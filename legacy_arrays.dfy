/** The recursive array helpers of the legacy tensor class (`utils/Tensor.js`
    and its TypeScript copy `lib/Tensor.ts`): shape by first elements with
    `isNaN`, the elementwise `doOperation`, `reshapeValue`, `repeatValue` and
    the `flat`/`reduce` behind `sumAll`. */
module LegacyArrays {

  import opened Results
  import opened NArrays
  import Kernels

  // ---------------------------------------------------------------------------
  // calculateShape

  /** `calculateShape(array)`: push the length, then recurse into the first
      element while `isNaN` of it holds. A number or an empty array reaches
      `undefined.length`, a TypeError. */
  function ShapeOf(a: NArr): Result<seq<nat>>
  {
    match a
    case Leaf(_) => Err(Crash)
    case Node(s) =>
      if s == [] then Err(Crash)
      else if Kernels.LooksNumeric(s[0]) then Ok([|s|])
      else
        var t :- ShapeOf(s[0]);
        Ok([|s|] + t)
  }

  /** `calculateShape(array, shape)`: the accumulator gets one length per level. */
  method CalculateShape(arr: NArr, shape: seq<nat>) returns (r: Result<seq<nat>>)
    ensures (ShapeOf(arr).Ok?) <==> (r.Ok?)
    ensures r.Ok? ==> r.value == shape + ShapeOf(arr).value
    ensures r.Err? ==> r.error == Crash
    decreases arr
  {
    if arr.Leaf? {
      return Err(Crash);
    }
    var acc := shape + [|arr.items|];
    if |arr.items| == 0 {
      return Err(Crash);
    }
    if !Kernels.LooksNumeric(arr.items[0]) {
      r := CalculateShape(arr.items[0], acc);
    } else {
      r := Ok(acc);
    }
  }

  /** A non-empty array always has a shape: the recursion only enters first
      elements that are arrays with an entry. Its first dimension is the length. */
  lemma {:induction false} ShapeOfDefined(a: NArr)
    requires a.Node? && a.items != []
    ensures ShapeOf(a).Ok? && |ShapeOf(a).value| >= 1 && ShapeOf(a).value[0] == |a.items|
    decreases a
  {
    var s := a.items;
    if !Kernels.LooksNumeric(s[0]) {
      ShapeOfDefined(s[0]);
    }
  }

  /** Where every array has at least two entries, `isNaN` tells arrays from
      numbers and the legacy shape is the first-element shape. */
  lemma {:induction false} ShapeOfStructural(a: NArr)
    requires a.Node? && Kernels.Structural(a)
    ensures ShapeOf(a) == Ok(Shape(a))
    decreases a
  {
    var s := a.items;
    assert Kernels.Structural(s[0]);
    if s[0].Node? {
      assert !Kernels.LooksNumeric(s[0]);
      ShapeOfStructural(s[0]);
      assert ShapeOf(a) == Ok([|s|] + ShapeOf(s[0]).value);
    } else {
      assert |s| >= 2 && Kernels.LooksNumeric(s[0]);
      assert ShapeOf(a) == Ok([|s|]);
      assert Shape(a) == [|s|] + [];
      assert Shape(a) == [|s|];
    }
  }

  /** A flat array of n > 0 numbers has shape [n]. */
  lemma FlatShapeOf(s: seq<NArr>)
    requires s != [] && forall i :: 0 <= i < |s| ==> s[i].Leaf?
    ensures ShapeOf(Node(s)) == Ok([|s|])
  {
  }

  /** A sub-array holding one number looks like a number to `isNaN`, so
      [[x]] has the legacy shape [1] and not [1, 1]. */
  lemma SingletonRowCollapses(x: real)
    ensures ShapeOf(Node([Node([Leaf(x)])])) == Ok([1])
    ensures Shape(Node([Node([Leaf(x)])])) == [1, 1]
  {
  }

  // ---------------------------------------------------------------------------
  // doOperation

  /** The element functions the legacy operations hand to `operation`. */
  datatype LegacyOp = AddOp | SubOp | MulOp | DivOp

  /** `tensorFun(x, y)` on two numbers; division throws on a zero divisor. */
  function Apply(op: LegacyOp, x: real, y: real): Result<real>
  {
    match op
    case AddOp => Ok(x + y)
    case SubOp => Ok(x - y)
    case MulOp => Ok(x * y)
    case DivOp => if y == 0.0 then Err(ZeroValue) else Ok(x / y)
  }

  /** `tensorFun(x, y)` on what `doOperation` hands it. The zero check of
      division looks at y alone; any pairing other than two numbers (an
      array, null or undefined) goes through JavaScript's coercions, which
      the model does not represent. */
  function Pair(op: LegacyOp, x: NArr, y: Option<NArr>): Result<real>
  {
    if op == DivOp && y == Some(Leaf(0.0)) then Err(ZeroValue)
    else if x.Leaf? && y.Some? && y.value.Leaf? then Apply(op, x.x, y.value.x)
    else Err(NonNumeric)
  }

  /** The second operand: the other tensor's array (`addArr`, None once it
      is null or undefined), or the number a number operand closes over. */
  datatype Second = Paired(b: Option<NArr>) | Constant(c: real)

  /** `a[i]`: undefined (None) past the end, on a number, or on undefined. */
  function Item(a: Option<NArr>, i: nat): Option<NArr>
  {
    if a.Some? && a.value.Node? && i < |a.value.items| then Some(a.value.items[i]) else None
  }

  /** `addArr ? addArr[i] : null` one level down. */
  function Down(sec: Second, i: nat): Second
  {
    match sec
    case Paired(b) => Paired(Item(b, i))
    case Constant(_) => sec
  }

  /** The value paired with entry `index` at the one-axis level. */
  function Partner(sec: Second, index: nat): Option<NArr>
  {
    match sec
    case Paired(b) => Item(b, index)
    case Constant(c) => Some(Leaf(c))
  }

  /** `doOperation(func, addArr, remShape, remArr)`: above one axis, one row
      per `remShape[0]` from `remArr[i]` (a TypeError when `remArr` is
      undefined); at one axis, `func` on every entry of `remArr`, none when it
      is a number. `lenient` is the `remArr != null` guard of lib/Tensor.ts,
      which returns [] where utils/Tensor.js fails. */
  function DoOp(op: LegacyOp, sec: Second, remShape: seq<nat>, remArr: Option<NArr>, lenient: bool): Result<NArr>
    decreases |remShape|, 1, 0
  {
    if |remShape| > 1 then
      var rows :- DoRows(op, sec, remShape, remArr, lenient, remShape[0]);
      Ok(Node(rows))
    else if remArr.None? then
      if lenient then Ok(Node([])) else Err(Crash)
    else if remArr.value.Leaf? then Ok(Node([]))
    else
      var xs :- DoLeaves(op, sec, remArr.value.items, |remArr.value.items|);
      Ok(Node(xs))
  }

  /** The first n rows, computed in order; the first failure stops the loop. */
  function DoRows(op: LegacyOp, sec: Second, remShape: seq<nat>, remArr: Option<NArr>, lenient: bool, n: nat): Result<seq<NArr>>
    requires |remShape| > 1
    decreases |remShape|, 0, n
  {
    if n == 0 then Ok([])
    else
      var prev :- DoRows(op, sec, remShape, remArr, lenient, n - 1);
      if remArr.None? then Err(Crash)
      else
        var row :- DoOp(op, Down(sec, n - 1), remShape[1..], Item(remArr, n - 1), lenient);
        Ok(prev + [row])
  }

  /** `func` on the first n entries, in order. */
  function DoLeaves(op: LegacyOp, sec: Second, items: seq<NArr>, n: nat): Result<seq<NArr>>
    requires n <= |items|
  {
    if n == 0 then Ok([])
    else
      var prev :- DoLeaves(op, sec, items, n - 1);
      var v :- Pair(op, items[n - 1], Partner(sec, n - 1));
      Ok(prev + [Leaf(v)])
  }

  /** `doOperation`: fresh arrays built by pushing row results and entries. */
  method DoOperation(op: LegacyOp, sec: Second, remShape: seq<nat>, remArr: Option<NArr>, lenient: bool)
    returns (r: Result<NArr>)
    ensures r == DoOp(op, sec, remShape, remArr, lenient)
    decreases |remShape|
  {
    var newArr: seq<NArr> := [];
    if |remShape| > 1 {
      for i := 0 to remShape[0]
        invariant DoRows(op, sec, remShape, remArr, lenient, i) == Ok(newArr)
      {
        if remArr.None? {
          RowsFailed(op, sec, remShape, remArr, lenient, i + 1, remShape[0]);
          return Err(Crash);
        }
        var row := DoOperation(op, Down(sec, i), remShape[1..], Item(remArr, i), lenient);
        if row.Err? {
          RowsFailed(op, sec, remShape, remArr, lenient, i + 1, remShape[0]);
          return Err(row.error);
        }
        newArr := newArr + [row.value];
      }
      return Ok(Node(newArr));
    }
    if remArr.None? {
      if lenient {
        return Ok(Node([]));
      }
      return Err(Crash);
    }
    if remArr.value.Leaf? {
      return Ok(Node([]));
    }
    var items := remArr.value.items;
    for index := 0 to |items|
      invariant DoLeaves(op, sec, items, index) == Ok(newArr)
    {
      var v := Pair(op, items[index], Partner(sec, index));
      if v.Err? {
        LeavesFailed(op, sec, items, index + 1, |items|);
        return Err(v.error);
      }
      newArr := newArr + [Leaf(v.value)];
    }
    r := Ok(Node(newArr));
  }

  /** A failed row ends the loop: later counts fail the same way. */
  lemma {:induction false} RowsFailed(op: LegacyOp, sec: Second, remShape: seq<nat>, remArr: Option<NArr>, lenient: bool, k: nat, n: nat)
    requires |remShape| > 1 && k <= n && DoRows(op, sec, remShape, remArr, lenient, k).Err?
    ensures DoRows(op, sec, remShape, remArr, lenient, n) == DoRows(op, sec, remShape, remArr, lenient, k)
    decreases n
  {
    if k < n {
      RowsFailed(op, sec, remShape, remArr, lenient, k, n - 1);
    }
  }

  /** A failed entry ends the loop: later counts fail the same way. */
  lemma {:induction false} LeavesFailed(op: LegacyOp, sec: Second, items: seq<NArr>, k: nat, n: nat)
    requires k <= n <= |items| && DoLeaves(op, sec, items, k).Err?
    ensures DoLeaves(op, sec, items, n) == DoLeaves(op, sec, items, k)
    decreases n
  {
    if k < n {
      LeavesFailed(op, sec, items, k, n - 1);
    }
  }

  // ---------------------------------------------------------------------------
  // doOperation on arrays of the tensor's shape

  function Quot(x: real, y: real): real
  {
    if y == 0.0 then 0.0 else x / y
  }

  /** The element function on two numbers where it does not throw. */
  function Total(op: LegacyOp): (real, real) -> real
  {
    match op
    case AddOp => Kernels.Plus
    case SubOp => Kernels.Minus
    case MulOp => Kernels.Times
    case DivOp => Quot
  }

  /** The element function with a fixed second operand. */
  function With(op: LegacyOp, c: real): real -> real
  {
    x => Total(op)(x, c)
  }

  /** Some leaf is 0. */
  predicate HasZero(b: NArr)
  {
    match b
    case Leaf(y) => y == 0.0
    case Node(s) => exists i :: 0 <= i < |s| && HasZero(s[i])
  }

  /** Some leaf exists. */
  predicate HasLeaf(a: NArr)
  {
    match a
    case Leaf(_) => true
    case Node(s) => exists i :: 0 <= i < |s| && HasLeaf(s[i])
  }

  predicate ZeroIn(rows: seq<NArr>, n: nat)
  {
    exists i :: 0 <= i < n && i < |rows| && HasZero(rows[i])
  }

  predicate LeafIn(rows: seq<NArr>, n: nat)
  {
    exists i :: 0 <= i < n && i < |rows| && HasLeaf(rows[i])
  }

  /** Against a tensor operand of the same shape, `doOperation` is the leafwise
      combination, and it throws exactly when it divides by an operand with a
      zero entry. */
  lemma {:induction false} DoOpPaired(op: LegacyOp, v: NArr, b: NArr, s: seq<nat>, lenient: bool)
    requires |s| >= 1 && HasShape(v, s) && HasShape(b, s)
    ensures Congruent(v, b)
    ensures DoOp(op, Paired(Some(b)), s, Some(v), lenient) ==
            if op == DivOp && HasZero(b) then Err(ZeroValue) else Ok(ZipWith(v, b, Total(op)))
    decreases |s|, 1
  {
    HasShapeCongruent(v, b, s);
    var f := Total(op);
    var z := ZipWith(v, b, f);
    if |s| > 1 {
      RowsPaired(op, v, b, s, lenient, s[0]);
      var r := DoRows(op, Paired(Some(b)), s, Some(v), lenient, s[0]);
      if r.Ok? {
        assert |r.value| == |z.items|;
        forall i | 0 <= i < |z.items| ensures r.value[i] == z.items[i] {
          assert z.items[i] == ZipWith(v.items[i], b.items[i], f);
        }
        assert r.value == z.items;
      }
      assert HasZero(b) <==> ZeroIn(b.items, s[0]);
    } else {
      var n := |v.items|;
      assert forall i :: 0 <= i < n ==> HasShape(v.items[i], s[1..]) && HasShape(b.items[i], s[1..]);
      LeavesPaired(op, v.items, b.items, n);
      var r := DoLeaves(op, Paired(Some(b)), v.items, n);
      if r.Ok? {
        assert |r.value| == |z.items|;
        forall i | 0 <= i < |z.items| ensures r.value[i] == z.items[i] {
          assert z.items[i] == ZipWith(v.items[i], b.items[i], f);
        }
        assert r.value == z.items;
      }
      assert HasZero(b) <==> ZeroIn(b.items, n);
    }
  }

  /** The rows loop against a tensor operand of the same shape. */
  lemma {:induction false} RowsPaired(op: LegacyOp, v: NArr, b: NArr, s: seq<nat>, lenient: bool, n: nat)
    requires |s| > 1 && HasShape(v, s) && HasShape(b, s) && Congruent(v, b) && n <= s[0]
    ensures var r := DoRows(op, Paired(Some(b)), s, Some(v), lenient, n);
            (r.Err? <==> op == DivOp && ZeroIn(b.items, n)) && (r.Err? ==> r.error == ZeroValue) &&
            (r.Ok? ==> |r.value| == n && forall i :: 0 <= i < n ==> r.value[i] == ZipWith(v.items[i], b.items[i], Total(op)))
    decreases |s|, 0, n
  {
    if n > 0 {
      var k := n - 1;
      RowsPaired(op, v, b, s, lenient, k);
      DoOpPaired(op, v.items[k], b.items[k], s[1..], lenient);
      assert ZeroIn(b.items, n) <==> ZeroIn(b.items, k) || HasZero(b.items[k]);
      assert Down(Paired(Some(b)), k) == Paired(Some(b.items[k]));
      assert Item(Some(v), k) == Some(v.items[k]);
    }
  }

  /** The entries loop against an operand row of the same length. */
  lemma {:induction false} LeavesPaired(op: LegacyOp, xs: seq<NArr>, ys: seq<NArr>, n: nat)
    requires |xs| == |ys| && n <= |xs|
    requires forall i :: 0 <= i < |xs| ==> xs[i].Leaf? && ys[i].Leaf?
    ensures var r := DoLeaves(op, Paired(Some(Node(ys))), xs, n);
            (r.Err? <==> op == DivOp && ZeroIn(ys, n)) && (r.Err? ==> r.error == ZeroValue) &&
            (r.Ok? ==> |r.value| == n && forall i :: 0 <= i < n ==> r.value[i] == Leaf(Total(op)(xs[i].x, ys[i].x)))
  {
    if n > 0 {
      var k := n - 1;
      LeavesPaired(op, xs, ys, k);
      assert ZeroIn(ys, n) <==> ZeroIn(ys, k) || HasZero(ys[k]);
      assert Partner(Paired(Some(Node(ys))), k) == Some(ys[k]);
      assert HasZero(ys[k]) <==> ys[k] == Leaf(0.0);
    }
  }

  /** Against a number, `doOperation` maps every leaf, and it throws exactly
      when it divides an array with at least one entry by 0. */
  lemma {:induction false} DoOpConstant(op: LegacyOp, v: NArr, c: real, s: seq<nat>, lenient: bool)
    requires |s| >= 1 && HasShape(v, s)
    ensures DoOp(op, Constant(c), s, Some(v), lenient) ==
            if op == DivOp && c == 0.0 && HasLeaf(v) then Err(ZeroValue) else Ok(MapLeaves(v, With(op, c)))
    decreases |s|, 1
  {
    var z := MapLeaves(v, With(op, c));
    if |s| > 1 {
      RowsConstant(op, v, c, s, lenient, s[0]);
      var r := DoRows(op, Constant(c), s, Some(v), lenient, s[0]);
      if r.Ok? {
        assert r.value == z.items;
      }
      assert HasLeaf(v) <==> LeafIn(v.items, s[0]);
    } else {
      var n := |v.items|;
      assert forall i :: 0 <= i < n ==> HasShape(v.items[i], s[1..]);
      LeavesConstant(op, v.items, c, n);
      var r := DoLeaves(op, Constant(c), v.items, n);
      if r.Ok? {
        forall i | 0 <= i < n ensures r.value[i] == z.items[i] {
          assert v.items[i].Leaf? && z.items[i] == MapLeaves(v.items[i], With(op, c));
          assert With(op, c)(v.items[i].x) == Total(op)(v.items[i].x, c);
        }
        assert r.value == z.items;
      }
      assert HasLeaf(v) <==> n > 0 by {
        if n > 0 {
          assert HasLeaf(v.items[0]);
        }
      }
    }
  }

  /** The rows loop against a number. */
  lemma {:induction false} RowsConstant(op: LegacyOp, v: NArr, c: real, s: seq<nat>, lenient: bool, n: nat)
    requires |s| > 1 && HasShape(v, s) && n <= s[0]
    ensures var r := DoRows(op, Constant(c), s, Some(v), lenient, n);
            (r.Err? <==> op == DivOp && c == 0.0 && LeafIn(v.items, n)) && (r.Err? ==> r.error == ZeroValue) &&
            (r.Ok? ==> |r.value| == n && forall i :: 0 <= i < n ==> r.value[i] == MapLeaves(v.items[i], With(op, c)))
    decreases |s|, 0, n
  {
    if n > 0 {
      var k := n - 1;
      RowsConstant(op, v, c, s, lenient, k);
      DoOpConstant(op, v.items[k], c, s[1..], lenient);
      assert LeafIn(v.items, n) <==> LeafIn(v.items, k) || HasLeaf(v.items[k]);
      assert Item(Some(v), k) == Some(v.items[k]);
    }
  }

  /** The entries loop against a number. */
  lemma {:induction false} LeavesConstant(op: LegacyOp, xs: seq<NArr>, c: real, n: nat)
    requires n <= |xs| && forall i :: 0 <= i < |xs| ==> xs[i].Leaf?
    ensures var r := DoLeaves(op, Constant(c), xs, n);
            (r.Err? <==> op == DivOp && c == 0.0 && n > 0) && (r.Err? ==> r.error == ZeroValue) &&
            (r.Ok? ==> |r.value| == n && forall i :: 0 <= i < n ==> r.value[i] == Leaf(Total(op)(xs[i].x, c)))
  {
    if n > 0 {
      LeavesConstant(op, xs, c, n - 1);
    }
  }

  // ---------------------------------------------------------------------------
  // reshapeValue

  /** `xs.slice(lo, hi)`: both ends clamped to the length. */
  function Slice(xs: seq<NArr>, lo: nat, hi: nat): seq<NArr>
    requires lo <= hi
  {
    if lo >= |xs| then [] else xs[lo..if hi <= |xs| then hi else |xs|]
  }

  /** `reshapeValue(value, newShape)`: a one-axis shape returns the array
      itself; otherwise `newShape[0]` rows, row i built from the slice
      [i·step, (i+1)·step) with `step = floor(|value| / newShape[0])`. No
      rows for an empty shape (`dim` undefined) or a zero first dimension. */
  function ReshapeOf(value: seq<NArr>, s: seq<nat>): NArr
    decreases |s|, 1
  {
    if |s| == 1 then Node(value)
    else if |s| == 0 || s[0] == 0 then Node([])
    else Node(RowsOf(value, s[1..], Quotient(|value|, s[0]), s[0]))
  }

  /** n rows, each reshaped from the next `step` elements of what remains. */
  function RowsOf(rem: seq<NArr>, rest: seq<nat>, step: nat, n: nat): (r: seq<NArr>)
    ensures |r| == n
    decreases |rest| + 1, 0, n
  {
    if n == 0 then []
    else [ReshapeOf(Take(rem, step), rest)] + RowsOf(Skip(rem, step), rest, step, n - 1)
  }

  /** The first k elements, or all when there are fewer. */
  function Take(xs: seq<NArr>, k: nat): (r: seq<NArr>)
    ensures |r| <= k
  {
    if k <= |xs| then xs[..k] else xs
  }

  /** All but the first k elements, or none when there are fewer. */
  function Skip(xs: seq<NArr>, k: nat): seq<NArr>
  {
    if k <= |xs| then xs[k..] else []
  }

  /** `slice(lo, lo + step)` is the first `step` of what follows lo, and
      what follows lo + step is what follows that. */
  lemma SliceSkip(value: seq<NArr>, lo: nat, step: nat)
    ensures Slice(value, lo, lo + step) == Take(Skip(value, lo), step)
    ensures Skip(value, lo + step) == Skip(Skip(value, lo), step)
  {
  }

  /** `Math.floor(n / d)`, as repeated subtraction. */
  function Quotient(n: nat, d: nat): nat
    requires d > 0
    decreases n
  {
    if n < d then 0 else 1 + Quotient(n - d, d)
  }

  lemma {:induction false} QuotientIsDiv(n: nat, d: nat)
    requires d > 0
    ensures Quotient(n, d) == n / d
    decreases n
  {
    if n < d {
      FloorUnique(n, d, 0, n);
    } else {
      QuotientIsDiv(n - d, d);
      var q, r := (n - d) / d, (n - d) % d;
      assert n - d == q * d + r;
      assert n == (q + 1) * d + r;
      FloorUnique(n, d, q + 1, r);
    }
  }

  /** Division is determined by quotient and remainder. */
  lemma FloorUnique(a: nat, d: nat, q: nat, r: nat)
    requires d > 0 && r < d && a == q * d + r
    ensures a / d == q
  {
    if a / d != q {
      DivUnique(a, a, q, a / d, r, a % d, d);
    }
  }

  /** Row i of RowsOf is cut from the `step` elements after i blocks. */
  lemma {:induction false} RowAt(rem: seq<NArr>, rest: seq<nat>, step: nat, n: nat, i: nat)
    requires i < n
    ensures RowsOf(rem, rest, step, n)[i] == ReshapeOf(Take(Skip(rem, Blocks(i, step)), step), rest)
    decreases i
  {
    if i > 0 {
      RowAt(Skip(rem, step), rest, step, n - 1, i - 1);
      RowAtStep(rem, rest, step, n, i);
    } else {
      RowAtFirst(rem, rest, step, n);
    }
  }

  /** Row 0 of RowsOf is cut from the first `step` elements. */
  lemma RowAtFirst(rem: seq<NArr>, rest: seq<nat>, step: nat, n: nat)
    requires 0 < n
    ensures RowsOf(rem, rest, step, n)[0] == ReshapeOf(Take(Skip(rem, Blocks(0, step)), step), rest)
  {
    RowsTail(rem, rest, step, n, 0);
    SkipNothing(rem, step);
  }

  lemma SkipNothing(rem: seq<NArr>, step: nat)
    ensures Skip(rem, Blocks(0, step)) == rem
  {
  }

  /** The inductive step of RowAt: row i is row i - 1 of what follows the first block. */
  lemma RowAtStep(rem: seq<NArr>, rest: seq<nat>, step: nat, n: nat, i: nat)
    requires 0 < i < n
    requires RowsOf(Skip(rem, step), rest, step, n - 1)[i - 1] ==
             ReshapeOf(Take(Skip(Skip(rem, step), Blocks(i - 1, step)), step), rest)
    ensures RowsOf(rem, rest, step, n)[i] == ReshapeOf(Take(Skip(rem, Blocks(i, step)), step), rest)
  {
    SkipBlocks(rem, step, i);
    RowsTail(rem, rest, step, n, i);
  }

  /** Skipping one block and then i - 1 more is skipping i blocks. */
  lemma SkipBlocks(rem: seq<NArr>, step: nat, i: nat)
    requires 0 < i
    ensures Skip(Skip(rem, step), Blocks(i - 1, step)) == Skip(rem, Blocks(i, step))
  {
    assert Blocks(i, step) == step + Blocks(i - 1, step);
    SkipSkip(rem, step, Blocks(i - 1, step));
  }

  /** Row 0 is cut from the front; row i > 0 is row i - 1 of what follows. */
  lemma RowsTail(rem: seq<NArr>, rest: seq<nat>, step: nat, n: nat, i: nat)
    requires i < n
    ensures i == 0 ==> RowsOf(rem, rest, step, n)[0] == ReshapeOf(Take(rem, step), rest)
    ensures i > 0 ==> RowsOf(rem, rest, step, n)[i] == RowsOf(Skip(rem, step), rest, step, n - 1)[i - 1]
  {
  }

  lemma SkipSkip(xs: seq<NArr>, j: nat, k: nat)
    ensures Skip(Skip(xs, j), k) == Skip(xs, j + k)
  {
  }

  /** The row `reshapeValue`'s loop computes at step i is row i of RowsOf. */
  lemma NextRow(value: seq<NArr>, rest: seq<nat>, step: nat, n: nat, i: nat, row: NArr)
    requires i < n && row == ReshapeOf(Slice(value, Blocks(i, step), Blocks(i, step) + step), rest)
    ensures RowsOf(value, rest, step, n)[i] == row
  {
    RowAt(value, rest, step, n, i);
    SliceSkip(value, Blocks(i, step), step);
  }

  /** A prefix grows by the next element. */
  lemma PrefixStep<T>(xs: seq<T>, i: nat, ys: seq<T>)
    requires i < |xs| && ys == xs[..i]
    ensures ys + [xs[i]] == xs[..i + 1]
  {
  }

  /** The offsets i·step and (i+1)·step, as i and i + 1 blocks of step. */
  lemma Offsets(i: nat, step: nat)
    ensures i * step == Blocks(i, step) && (i + 1) * step == Blocks(i, step) + step
  {
    BlocksIsProduct(i, step);
    BlocksIsProduct(i + 1, step);
  }

  /** `reshapeValue`: rows pushed one by one, each from its own recursive call. */
  method ReshapeValue(value: seq<NArr>, s: seq<nat>) returns (r: NArr)
    ensures r == ReshapeOf(value, s)
    ensures |s| == 1 ==> r == Node(value)
    decreases |s|
  {
    if |s| == 1 {
      return Node(value);
    }
    if |s| == 0 {
      return Node([]);
    }
    var dim := s[0];
    var result: seq<NArr> := [];
    if dim == 0 {
      return Node(result);
    }
    var step := |value| / dim;
    QuotientIsDiv(|value|, dim);
    ghost var rows := RowsOf(value, s[1..], step, dim);
    for i := 0 to dim
      invariant result == rows[..i]
    {
      Offsets(i, step);
      var row := ReshapeValue(Slice(value, i * step, (i + 1) * step), s[1..]);
      NextRow(value, s[1..], step, dim, i, row);
      PrefixStep(rows, i, result);
      result := result + [row];
    }
    assert result == rows;
    r := Node(result);
  }

  /** A flat array of exactly Product(s) numbers is reshaped to an array of
      shape s whose row-major leaves are the input, in order. */
  lemma ReshapeFlat(value: seq<NArr>, s: seq<nat>)
    requires |s| >= 1 && Kernels.AllLeaves(value) && |value| == Product(s)
    ensures HasShape(ReshapeOf(value, s), s)
    ensures Flatten(ReshapeOf(value, s)) == FlattenAll(value)
    ensures Positive(s) ==> Shape(ReshapeOf(value, s)) == s
  {
    ReshapeShape(value, s);
    ReshapeFlatten(value, s);
    if Positive(s) {
      ShapeOfHasShape(ReshapeOf(value, s), s);
    }
  }

  /** The step of a reshape to s with exactly Product(s) elements is the
      number of elements per row. */
  lemma ExactStep(value: seq<NArr>, s: seq<nat>)
    requires |s| > 1 && s[0] > 0 && |value| == Product(s)
    ensures Quotient(|value|, s[0]) == Product(s[1..]) && |value| == Blocks(s[0], Product(s[1..]))
  {
    var n, P := s[0], Product(s[1..]);
    QuotientIsDiv(|value|, n);
    DivExact(n, P);
    BlocksIsProduct(n, P);
  }

  lemma {:induction false} ReshapeShape(value: seq<NArr>, s: seq<nat>)
    requires |s| >= 1 && Kernels.AllLeaves(value) && |value| == Product(s)
    ensures HasShape(ReshapeOf(value, s), s)
    decreases |s|, 1
  {
    if |s| > 1 && s[0] > 0 {
      ExactStep(value, s);
      RowsShape(value, s[1..], Product(s[1..]), s[0]);
    } else if |s| > 1 {
      assert ReshapeOf(value, s) == Node([]);
    } else {
      assert forall i :: 0 <= i < |value| ==> HasShape(value[i], s[1..]);
    }
  }

  lemma {:induction false} RowsShape(rem: seq<NArr>, rest: seq<nat>, P: nat, m: nat)
    requires |rest| >= 1 && Kernels.AllLeaves(rem) && P == Product(rest) && |rem| == Blocks(m, P)
    ensures forall i :: 0 <= i < m ==> HasShape(RowsOf(rem, rest, P, m)[i], rest)
    decreases |rest| + 1, 0, m
  {
    if m > 0 {
      var block, after := rem[..P], rem[P..];
      assert Take(rem, P) == block && Skip(rem, P) == after;
      LeavesSplit(rem, P);
      ReshapeShape(block, rest);
      RowsShape(after, rest, P, m - 1);
      ConsShape(RowsOf(rem, rest, P, m), ReshapeOf(block, rest), RowsOf(after, rest, P, m - 1), rest);
    }
  }

  lemma {:induction false} ReshapeFlatten(value: seq<NArr>, s: seq<nat>)
    requires |s| >= 1 && |value| == Product(s)
    ensures Flatten(ReshapeOf(value, s)) == FlattenAll(value)
    decreases |s|, 1
  {
    if |s| > 1 && s[0] > 0 {
      ExactStep(value, s);
      RowsFlatten(value, s[1..], Product(s[1..]), s[0]);
    } else if |s| > 1 {
      assert value == [];
    }
  }

  lemma {:induction false} RowsFlatten(rem: seq<NArr>, rest: seq<nat>, P: nat, m: nat)
    requires |rest| >= 1 && P == Product(rest) && |rem| == Blocks(m, P)
    ensures FlattenAll(RowsOf(rem, rest, P, m)) == FlattenAll(rem)
    decreases |rest| + 1, 0, m
  {
    if m > 0 {
      var block, after := rem[..P], rem[P..];
      assert Take(rem, P) == block && Skip(rem, P) == after;
      ReshapeFlatten(block, rest);
      RowsFlatten(after, rest, P, m - 1);
      assert rem == block + after;
      ConsFlatten(RowsOf(rem, rest, P, m), ReshapeOf(block, rest), RowsOf(after, rest, P, m - 1), rem, block, after);
    } else {
      assert rem == [];
    }
  }

  /** A row of shape rest put in front of rows of shape rest. */
  lemma {:induction false} ConsShape(rows: seq<NArr>, head: NArr, tail: seq<NArr>, rest: seq<nat>)
    requires rows == [head] + tail && HasShape(head, rest)
    requires forall i :: 0 <= i < |tail| ==> HasShape(tail[i], rest)
    ensures forall i :: 0 <= i < |rows| ==> HasShape(rows[i], rest)
  {
    forall i | 0 <= i < |rows| ensures HasShape(rows[i], rest) {
      if i > 0 {
        assert rows[i] == tail[i - 1];
      }
    }
  }

  /** A row put in front of rows, each flattening back to its own part. */
  lemma {:induction false} ConsFlatten(rows: seq<NArr>, head: NArr, tail: seq<NArr>,
                                       whole: seq<NArr>, block: seq<NArr>, after: seq<NArr>)
    requires rows == [head] + tail && whole == block + after
    requires Flatten(head) == FlattenAll(block) && FlattenAll(tail) == FlattenAll(after)
    ensures FlattenAll(rows) == FlattenAll(whole)
  {
    FlattenAllAppend([head], tail);
    FlattenAllAppend(block, after);
    FlattenAllOne(head);
  }

  lemma {:induction false} FlattenAllOne(x: NArr)
    ensures FlattenAll([x]) == Flatten(x)
  {
    assert [x][..0] == [];
    assert FlattenAll([x]) == [] + Flatten(x);
  }

  /** m blocks of P, added up one at a time. */
  function Blocks(m: nat, P: nat): nat
  {
    if m == 0 then 0 else P + Blocks(m - 1, P)
  }

  lemma {:induction false} BlocksIsProduct(m: nat, P: nat)
    ensures Blocks(m, P) == m * P
  {
    if m > 0 {
      BlocksIsProduct(m - 1, P);
      Distrib(m - 1, P);
    }
  }

  lemma DivExact(n: nat, P: nat)
    requires n > 0
    ensures (n * P) / n == P
  {
    assert n * P == P * n + 0;
    FloorUnique(n * P, n, P, 0);
  }

  lemma LeavesSplit(rem: seq<NArr>, k: nat)
    requires k <= |rem| && Kernels.AllLeaves(rem)
    ensures Kernels.AllLeaves(rem[..k]) && Kernels.AllLeaves(rem[k..])
  {
    assert forall i :: 0 <= i < |rem| - k ==> rem[k..][i] == rem[k + i];
  }

  // ---------------------------------------------------------------------------
  // repeatValue

  /** `repeatValue(value, repeats)`: no repeats keep the value; otherwise an
      array of `repeats[0]` entries, each the value repeated by the rest. */
  function RepeatOf(value: NArr, reps: seq<nat>): NArr
    decreases |reps|
  {
    if reps == [] then value
    else Node(seq(reps[0], _ => RepeatOf(value, reps[1..])))
  }

  /** `repeatValue`: one recursive call pushed per repetition. */
  method RepeatValue(value: NArr, reps: seq<nat>) returns (r: NArr)
    ensures r == RepeatOf(value, reps)
    decreases |reps|
  {
    if |reps| == 0 {
      return value;
    }
    var result: seq<NArr> := [];
    for i := 0 to reps[0]
      invariant result == seq(i, _ => RepeatOf(value, reps[1..]))
    {
      var row := RepeatValue(value, reps[1..]);
      result := result + [row];
    }
    r := Node(result);
  }

  /** Repeating a value of shape t by reps gives an array of shape reps + t;
      with positive repeats that is also the shape read along first elements. */
  lemma {:induction false} RepeatShape(value: NArr, reps: seq<nat>, t: seq<nat>)
    requires HasShape(value, t)
    ensures HasShape(RepeatOf(value, reps), reps + t)
    ensures Positive(reps) && Positive(t) ==> Shape(RepeatOf(value, reps)) == reps + t
    decreases |reps|
  {
    if reps != [] {
      RepeatShape(value, reps[1..], t);
      assert (reps + t)[1..] == reps[1..] + t;
    } else {
      assert reps + t == t;
    }
    if Positive(reps) && Positive(t) {
      assert Positive(reps + t);
      ShapeOfHasShape(RepeatOf(value, reps), reps + t);
    }
  }

  /** n copies of xs, one after another. */
  function Copies(xs: seq<real>, n: nat): (r: seq<real>)
    ensures |r| == n * |xs|
  {
    if n == 0 then [] else Copies(xs, n - 1) + xs
  }

  /** The leaves of the repeated value are Product(reps) copies of the
      value's leaves, in order. */
  lemma {:induction false} RepeatFlatten(value: NArr, reps: seq<nat>)
    ensures Flatten(RepeatOf(value, reps)) == Copies(Flatten(value), Product(reps))
    decreases |reps|
  {
    if reps == [] {
      assert Copies(Flatten(value), 1) == [] + Flatten(value);
    } else {
      var inner := RepeatOf(value, reps[1..]);
      RepeatFlatten(value, reps[1..]);
      SameRows(inner, reps[0]);
      CopiesOfCopies(Flatten(value), Product(reps[1..]), reps[0]);
    }
  }

  /** The leaves of n equal rows. */
  lemma {:induction false} SameRows(row: NArr, n: nat)
    ensures FlattenAll(seq(n, _ => row)) == Copies(Flatten(row), n)
  {
    if n > 0 {
      var rows := seq(n, _ => row);
      assert rows[..n - 1] == seq(n - 1, _ => row);
      SameRows(row, n - 1);
    }
  }

  lemma {:induction false} CopiesOfCopies(xs: seq<real>, P: nat, n: nat)
    ensures Copies(Copies(xs, P), n) == Copies(xs, n * P)
  {
    if n > 0 {
      CopiesOfCopies(xs, P, n - 1);
      CopiesAppend(xs, (n - 1) * P, P);
      Distrib(n - 1, P);
    }
  }

  lemma {:induction false} CopiesAppend(xs: seq<real>, m: nat, k: nat)
    ensures Copies(xs, m) + Copies(xs, k) == Copies(xs, m + k)
  {
    if k > 0 {
      CopiesAppend(xs, m, k - 1);
    }
  }

  // ---------------------------------------------------------------------------
  // sumAll

  /** `array.flat(d)`: an entry that is an array is replaced by its own
      entries flattened d - 1 more levels, while d > 0. */
  function FlatItems(items: seq<NArr>, d: nat): seq<NArr>
    decreases items, 0
  {
    if items == [] then []
    else FlatItems(items[..|items| - 1], d) + Spread(items[|items| - 1], d)
  }

  function Spread(e: NArr, d: nat): seq<NArr>
    decreases e, 1
  {
    if e.Node? && d > 0 then FlatItems(e.items, d - 1) else [e]
  }

  /** `reduce((x, y) => x + y)` without a start value: a TypeError on an empty
      list, the one entry itself on a list of one, the sum of a list of
      numbers; any array among two or more entries turns `+` into string
      concatenation. */
  function ReduceSum(xs: seq<NArr>): (r: Result<NArr>)
    ensures r.Ok? ==> xs != [] && (r.value in xs || r.value.Leaf?)
  {
    if xs == [] then Err(Crash)
    else if |xs| == 1 then Ok(xs[0])
    else if Kernels.AllLeaves(xs) then Ok(Leaf(Sum(Kernels.Numbers(xs))))
    else Err(NonNumeric)
  }

  /** The new value of `sumAll()`: `[value.flat(depth).reduce(+)]` with the
      length of the shape as depth; a number has no `flat`. */
  function SumAllOf(value: NArr, depth: nat): Result<NArr>
  {
    if value.Leaf? then Err(Crash)
    else
      var total :- ReduceSum(FlatItems(value.items, depth));
      Ok(Node([total]))
  }

  /** Flattening rows of shape t by |t| or more levels lists all their leaves
      as numbers. */
  lemma {:induction false} FlatItemsLeaves(items: seq<NArr>, t: seq<nat>, d: nat)
    requires d >= |t| && forall i :: 0 <= i < |items| ==> HasShape(items[i], t)
    ensures Kernels.AllLeaves(FlatItems(items, d))
    ensures Kernels.Numbers(FlatItems(items, d)) == FlattenAll(items)
    decreases items, 0
  {
    if items != [] {
      var n := |items| - 1;
      FlatItemsLeaves(items[..n], t, d);
      SpreadLeaves(items[n], t, d);
      var A, B := FlatItems(items[..n], d), Spread(items[n], d);
      assert FlatItems(items, d) == A + B;
      assert Kernels.Numbers(A + B) == Kernels.Numbers(A) + Kernels.Numbers(B);
    }
  }

  lemma {:induction false} SpreadLeaves(e: NArr, t: seq<nat>, d: nat)
    requires d >= |t| && HasShape(e, t)
    ensures Kernels.AllLeaves(Spread(e, d))
    ensures Kernels.Numbers(Spread(e, d)) == Flatten(e)
    decreases e, 1
  {
    if t != [] {
      FlatItemsLeaves(e.items, t[1..], d - 1);
    }
  }

  /** On an array of shape s, `sumAll` with depth |s| leaves the one-entry
      array holding the sum of all leaves; only an array without leaves fails,
      at the `reduce` of an empty list. */
  lemma SumAllShaped(value: NArr, s: seq<nat>)
    requires |s| >= 1 && HasShape(value, s)
    ensures SumAllOf(value, |s|) ==
            if Flatten(value) == [] then Err(Crash) else Ok(Node([Leaf(Sum(Flatten(value)))]))
  {
    var f := FlatItems(value.items, |s|);
    FlatItemsLeaves(value.items, s[1..], |s|);
    assert Kernels.Numbers(f) == Flatten(value);
    if |f| == 1 {
      var y := f[0].x;
      assert Flatten(value) == [y];
      assert Sum([y]) == Sum([]) + y;
    }
  }

  /** `static sumAll(t)` reduces the top-level entries without flattening:
      on a flat array of numbers that is their sum. */
  lemma StaticSumFlat(items: seq<NArr>)
    requires items != [] && Kernels.AllLeaves(items)
    ensures ReduceSum(items) == Ok(Leaf(Sum(FlattenAll(items))))
  {
    Kernels.LeavesFlatten(items);
    if |items| == 1 {
      assert Sum([items[0].x]) == Sum([]) + items[0].x;
    }
  }

  // ---------------------------------------------------------------------------
  // Facts the tensor classes rely on

  /** `doOperation` fails only at run time or at a zero divisor, never with a
      shape complaint: that one belongs to `operation`'s own check. */
  lemma {:induction false} DoOpNoMismatch(op: LegacyOp, sec: Second, remShape: seq<nat>, remArr: Option<NArr>, lenient: bool)
    ensures DoOp(op, sec, remShape, remArr, lenient).Err? ==> DoOp(op, sec, remShape, remArr, lenient).error != ShapeMismatch
    decreases |remShape|, 1, 0
  {
    if |remShape| > 1 {
      RowsNoMismatch(op, sec, remShape, remArr, lenient, remShape[0]);
    } else if remArr.Some? && remArr.value.Node? {
      LeavesNoMismatch(op, sec, remArr.value.items, |remArr.value.items|);
    }
  }

  lemma {:induction false} RowsNoMismatch(op: LegacyOp, sec: Second, remShape: seq<nat>, remArr: Option<NArr>, lenient: bool, n: nat)
    requires |remShape| > 1
    ensures DoRows(op, sec, remShape, remArr, lenient, n).Err? ==> DoRows(op, sec, remShape, remArr, lenient, n).error != ShapeMismatch
    decreases |remShape|, 0, n
  {
    if n > 0 {
      RowsNoMismatch(op, sec, remShape, remArr, lenient, n - 1);
      DoOpNoMismatch(op, Down(sec, n - 1), remShape[1..], Item(remArr, n - 1), lenient);
    }
  }

  lemma {:induction false} LeavesNoMismatch(op: LegacyOp, sec: Second, items: seq<NArr>, n: nat)
    requires n <= |items|
    ensures DoLeaves(op, sec, items, n).Err? ==> DoLeaves(op, sec, items, n).error != ShapeMismatch
  {
    if n > 0 {
      LeavesNoMismatch(op, sec, items, n - 1);
    }
  }

  /** Some leaf is 0 exactly when 0 is among the row-major leaves. */
  lemma {:induction false} HasZeroFlatten(b: NArr)
    ensures HasZero(b) <==> 0.0 in Flatten(b)
    decreases b, 1
  {
    if b.Node? {
      ZeroInAll(b.items);
    }
  }

  lemma {:induction false} ZeroInAll(s: seq<NArr>)
    ensures (exists i :: 0 <= i < |s| && HasZero(s[i])) <==> 0.0 in FlattenAll(s)
    decreases s, 0
  {
    if s != [] {
      var n := |s| - 1;
      ZeroInAll(s[..n]);
      HasZeroFlatten(s[n]);
      assert FlattenAll(s) == FlattenAll(s[..n]) + Flatten(s[n]);
      if exists i :: 0 <= i < |s| && HasZero(s[i]) {
        var i :| 0 <= i < |s| && HasZero(s[i]);
        if i < n {
          assert s[..n][i] == s[i];
        }
      }
      if exists i :: 0 <= i < n && HasZero(s[..n][i]) {
        var i :| 0 <= i < n && HasZero(s[..n][i]);
        assert s[i] == s[..n][i];
      }
    }
  }

  /** An array has a leaf exactly when its row-major leaves are not empty. */
  lemma {:induction false} HasLeafFlatten(a: NArr)
    ensures HasLeaf(a) <==> Flatten(a) != []
    decreases a, 1
  {
    if a.Node? {
      LeafInAll(a.items);
    }
  }

  lemma {:induction false} LeafInAll(s: seq<NArr>)
    ensures (exists i :: 0 <= i < |s| && HasLeaf(s[i])) <==> FlattenAll(s) != []
    decreases s, 0
  {
    if s != [] {
      var n := |s| - 1;
      LeafInAll(s[..n]);
      HasLeafFlatten(s[n]);
      assert FlattenAll(s) == FlattenAll(s[..n]) + Flatten(s[n]);
      if exists i :: 0 <= i < |s| && HasLeaf(s[i]) {
        var i :| 0 <= i < |s| && HasLeaf(s[i]);
        if i < n {
          assert s[..n][i] == s[i];
        }
      }
      if exists i :: 0 <= i < n && HasLeaf(s[..n][i]) {
        var i :| 0 <= i < n && HasLeaf(s[..n][i]);
        assert s[i] == s[..n][i];
      }
    }
  }

  /** `calculateShape` after `repeat`: on an array where every array has two
      or more entries, repeating by positive counts gives the legacy shape
      reps + Shape(value). */
  lemma {:induction false} RepeatShapeOf(value: NArr, reps: seq<nat>)
    requires value.Node? && Kernels.Structural(value) && Positive(reps)
    ensures ShapeOf(RepeatOf(value, reps)) == Ok(reps + Shape(value))
    ensures !Kernels.LooksNumeric(RepeatOf(value, reps))
    decreases |reps|
  {
    if reps == [] {
      ShapeOfStructural(value);
      assert reps + Shape(value) == Shape(value);
    } else {
      var inner := RepeatOf(value, reps[1..]);
      assert Positive(reps[1..]);
      RepeatShapeOf(value, reps[1..]);
      var items := seq(reps[0], _ => inner);
      assert RepeatOf(value, reps) == Node(items);
      ShapeOfNested(items, reps[1..] + Shape(value));
      ConsAppend(reps, Shape(value));
    }
  }

  lemma ConsAppend(xs: seq<nat>, t: seq<nat>)
    requires xs != []
    ensures [xs[0]] + (xs[1..] + t) == xs + t
  {
  }

  /** An array whose first entry is no number-like value takes its shape
      from that entry, one level down. */
  lemma ShapeOfNested(items: seq<NArr>, t: seq<nat>)
    requires items != [] && !Kernels.LooksNumeric(items[0]) && ShapeOf(items[0]) == Ok(t)
    ensures ShapeOf(Node(items)) == Ok([|items|] + t)
    ensures !Kernels.LooksNumeric(Node(items))
  {
  }
}
