/** The array arithmetic of the operation library: the recursive maps of Add
    and Max, Mean's reduction, Matmul's triple loop and backward formula, and
    the contracts assumed for the helpers the library calls without showing
    them (Subtract, Multiply, NanToNum, Transpose). */
module Kernels {

  import opened Results
  import opened NArrays

  // ---------------------------------------------------------------------------
  // Add

  /** `b` has an entry of the same kind wherever `addArrays(a, b)` reads one
      (it maps over `a`, so an empty `a` reads nothing and extra entries of
      `b` are ignored). */
  predicate Covers(a: NArr, b: NArr)
  {
    match a
    case Leaf(_) => b.Leaf?
    case Node(s) => s == [] ||
                    (b.Node? && |s| <= |b.items| && forall i :: 0 <= i < |s| ==> Covers(s[i], b.items[i]))
  }

  /** `addArrays`: follows the structure of `a`, adding the entry of `b` at
      the same index. The Leaf case is the inner `v + b[i]` of the map; a
      number as the first operand of the top-level call is AddThrows. */
  function AddArrays(a: NArr, b: NArr): (r: NArr)
    requires Covers(a, b)
    ensures Congruent(a, r)
  {
    match a
    case Leaf(x) => Leaf(x + b.x)
    case Node(s) => Node(seq(|s|, i requires 0 <= i < |s| => AddArrays(s[i], b.items[i])))
  }

  function Plus(x: real, y: real): real { x + y }
  function Minus(x: real, y: real): real { x - y }
  function Times(x: real, y: real): real { x * y }

  /** Congruent arrays cover each other. */
  lemma {:induction false} CongruentCovers(a: NArr, b: NArr)
    requires Congruent(a, b)
    ensures Covers(a, b)
    decreases a
  {
    match a
    case Leaf(_) =>
    case Node(s) =>
      forall i | 0 <= i < |s| ensures Covers(s[i], b.items[i]) {
        CongruentCovers(s[i], b.items[i]);
      }
  }

  /** On congruent arrays addArrays is the leafwise sum. */
  lemma {:induction false} AddArraysIsZip(a: NArr, b: NArr)
    requires Congruent(a, b)
    ensures Covers(a, b) && AddArrays(a, b) == ZipWith(a, b, Plus)
    decreases a
  {
    CongruentCovers(a, b);
    match a
    case Leaf(_) =>
    case Node(s) =>
      forall i | 0 <= i < |s| ensures AddArrays(s[i], b.items[i]) == ZipWith(s[i], b.items[i], Plus) {
        AddArraysIsZip(s[i], b.items[i]);
      }
  }

  /** A JavaScript value as `addArrays` meets it in its second operand:
      undefined, or an array or number. */
  datatype JsValue = Undefined | Defined(v: NArr)

  /** `b[i]`: an entry of an array, and undefined past its end or on a number. */
  function Index(b: JsValue, i: nat): JsValue
    requires b.Defined?
  {
    match b.v
    case Leaf(_) => Undefined
    case Node(s) => if i < |s| then Defined(s[i]) else Undefined
  }

  /** `addArrays(a, b)` throws: `.map` of a number, or `b[i]` read from an
      undefined `b` while mapping over a non-empty `a`. An entry of `a` that
      is a number never throws: `v + b[i]` goes on with NaN or a string. */
  predicate AddThrows(a: NArr, b: JsValue)
    decreases a, 1
  {
    match a
    case Leaf(_) => true
    case Node(s) => if b.Undefined? then s != [] else ItemThrows(a, b, |s|)
  }

  /** One of the first n entries of `a` is an array whose `addArrays` with the
      entry of `b` at the same index throws. */
  predicate ItemThrows(a: NArr, b: JsValue, n: nat)
    requires a.Node? && b.Defined? && n <= |a.items|
    decreases a, 0, n
  {
    n > 0 &&
    ((a.items[n - 1].Node? && AddThrows(a.items[n - 1], Index(b, n - 1))) || ItemThrows(a, b, n - 1))
  }

  /** Whether `addArrays(a, b)` throws depends on the structure of `a` only,
      and every partial sum has the first operand's structure. */
  lemma {:induction false} ThrowsCongruent(a: NArr, c: NArr, b: JsValue)
    requires Congruent(a, c)
    ensures AddThrows(a, b) <==> AddThrows(c, b)
    decreases a, 1
  {
    if a.Node? && b.Defined? {
      ItemsThrowCongruent(a, c, b, |a.items|);
    }
  }

  lemma {:induction false} ItemsThrowCongruent(a: NArr, c: NArr, b: JsValue, n: nat)
    requires Congruent(a, c) && a.Node? && b.Defined? && n <= |a.items|
    ensures c.Node? && n <= |c.items|
    ensures ItemThrows(a, b, n) <==> ItemThrows(c, b, n)
    decreases a, 0, n
  {
    if n > 0 {
      ThrowsCongruent(a.items[n - 1], c.items[n - 1], Index(b, n - 1));
      ItemsThrowCongruent(a, c, b, n - 1);
    }
  }

  /** An array that covers b is added to b without a throw. */
  lemma {:induction false} CoversNoThrow(a: NArr, b: NArr)
    requires a.Node? && Covers(a, b)
    ensures !AddThrows(a, Defined(b))
    decreases a, 1
  {
    CoversNoItemThrows(a, b, |a.items|);
  }

  lemma {:induction false} CoversNoItemThrows(a: NArr, b: NArr, n: nat)
    requires a.Node? && Covers(a, b) && n <= |a.items|
    ensures !ItemThrows(a, Defined(b), n)
    decreases a, 0, n
  {
    if n > 0 {
      if a.items[n - 1].Node? {
        CoversNoThrow(a.items[n - 1], b.items[n - 1]);
      }
      CoversNoItemThrows(a, b, n - 1);
    }
  }

  /** `sum`: `arrays.reduce(addArrays)` with no initial value. Every partial
      sum has the structure of arrays[0], so a throw of any step is decided on
      arrays[0]; a throw wins over a NaN of an earlier step, which JavaScript
      carries on with. */
  function SumArrays(arrays: seq<NArr>): (r: Result<NArr>)
    ensures r.Ok? ==> |arrays| > 0 && Congruent(arrays[0], r.value)
    ensures r.Ok? && |arrays| >= 2 ==> arrays[0].Node?
  {
    if |arrays| == 0 then Err(Crash)
    else if |arrays| == 1 then CongruentReflexive(arrays[0]); Ok(arrays[0])
    else
      var n := |arrays| - 1;
      if AddThrows(arrays[0], Defined(arrays[n])) then Err(Crash)
      else
        match SumArrays(arrays[..n])
        case Err(e) => Err(e)
        case Ok(acc) =>
          if Covers(acc, arrays[n]) then
            CongruentTransitive(arrays[0], acc, AddArrays(acc, arrays[n]));
            Ok(AddArrays(acc, arrays[n]))
          else Err(NonNumeric)
  }

  /** The forward pass of Add crashes exactly when some step's `addArrays`
      throws, and in particular on two or more number-valued tensors. */
  lemma {:induction false} SumArraysCrash(arrays: seq<NArr>)
    requires |arrays| >= 2
    ensures SumArrays(arrays) == Err(Crash) <==>
              exists j :: 1 <= j < |arrays| && AddThrows(arrays[0], Defined(arrays[j]))
    ensures arrays[0].Leaf? ==> SumArrays(arrays) == Err(Crash)
    decreases |arrays|
  {
    var n := |arrays| - 1;
    assert AddThrows(arrays[0], Defined(arrays[n])) ==> 1 <= n < |arrays|;
    if n >= 2 {
      var pre := arrays[..n];
      SumArraysCrash(pre);
      assert forall j :: 1 <= j < n ==> pre[j] == arrays[j];
      if !AddThrows(arrays[0], Defined(arrays[n])) && SumArrays(pre).Ok? {
        var acc := SumArrays(pre).value;
        if !Covers(acc, arrays[n]) {
          assert SumArrays(arrays) == Err(NonNumeric);
        }
      }
    } else {
      assert arrays[..n] == [arrays[0]];
    }
  }

  /** Two number-valued tensors: `addArrays` calls `.map` on a number. */
  lemma NumbersCrash()
    ensures SumArrays([Leaf(1.0), Leaf(2.0)]) == Err(Crash)
  {
    SumArraysCrash([Leaf(1.0), Leaf(2.0)]);
  }

  /** A batch of two rows plus a one-row bias: the second row reads
      `undefined[0]`. */
  lemma BatchPlusRowCrash()
    ensures SumArrays([Node([Node([Leaf(1.0)]), Node([Leaf(2.0)])]), Node([Node([Leaf(5.0)])])]) == Err(Crash)
  {
    var a := Node([Node([Leaf(1.0)]), Node([Leaf(2.0)])]);
    var b := Node([Node([Leaf(5.0)])]);
    assert Index(Defined(b), 1) == Undefined;
    assert AddThrows(a.items[1], Undefined);
    assert ItemThrows(a, Defined(b), 2);
  }

  /** Sum over j of entry k of the flattened arrays. */
  function ColumnSum(arrays: seq<NArr>, k: nat): real
    requires forall j :: 0 <= j < |arrays| ==> k < |Flatten(arrays[j])|
  {
    if arrays == [] then 0.0
    else ColumnSum(arrays[..|arrays| - 1], k) + Flatten(arrays[|arrays| - 1])[k]
  }

  /** One step of the fold on arrays of one non-empty shape: no throw, and the
      last array is added to the partial sum. */
  lemma SumStepOfShape(arrays: seq<NArr>, s: seq<nat>)
    requires |arrays| >= 2 && |s| >= 1
    requires forall j :: 0 <= j < |arrays| ==> HasShape(arrays[j], s)
    requires SumArrays(arrays[..|arrays| - 1]).Ok?
    requires HasShape(SumArrays(arrays[..|arrays| - 1]).value, s)
    ensures Covers(SumArrays(arrays[..|arrays| - 1]).value, arrays[|arrays| - 1])
    ensures SumArrays(arrays) ==
              Ok(AddArrays(SumArrays(arrays[..|arrays| - 1]).value, arrays[|arrays| - 1]))
  {
    var n := |arrays| - 1;
    var acc := SumArrays(arrays[..n]).value;
    HasShapeCongruent(acc, arrays[n], s);
    CongruentCovers(acc, arrays[n]);
    HasShapeCongruent(arrays[0], arrays[n], s);
    CongruentCovers(arrays[0], arrays[n]);
    CoversNoThrow(arrays[0], arrays[n]);
  }

  /** Add's forward pass on inputs of one shape is that shape, and entry k of
      its row-major flattening is the sum of the inputs' entries k. */
  lemma {:induction false} SumArraysOfShape(arrays: seq<NArr>, s: seq<nat>)
    requires |arrays| > 0 && forall j :: 0 <= j < |arrays| ==> HasShape(arrays[j], s)
    requires |s| >= 1 || |arrays| == 1
    ensures forall j :: 0 <= j < |arrays| ==> |Flatten(arrays[j])| == Product(s)
    ensures SumArrays(arrays).Ok?
    ensures HasShape(SumArrays(arrays).value, s)
    ensures |Flatten(SumArrays(arrays).value)| == Product(s)
    ensures forall k :: 0 <= k < Product(s) ==>
              Flatten(SumArrays(arrays).value)[k] == ColumnSum(arrays, k)
  {
    forall j | 0 <= j < |arrays| ensures |Flatten(arrays[j])| == Product(s) {
      FlattenLength(arrays[j], s);
    }
    var n := |arrays| - 1;
    if n == 0 {
      FlattenLength(arrays[0], s);
      assert arrays[..0] == [];
    } else {
      var pre := arrays[..n];
      SumArraysOfShape(pre, s);
      var acc := SumArrays(pre).value;
      SumStepOfShape(arrays, s);
      HasShapeCongruent(acc, arrays[n], s);
      AddArraysIsZip(acc, arrays[n]);
      ZipWithFlatten(acc, arrays[n], Plus);
      var r := AddArrays(acc, arrays[n]);
      CongruentHasShape(acc, r, s);
      FlattenLength(r, s);
      forall k | 0 <= k < Product(s) ensures Flatten(r)[k] == ColumnSum(arrays, k) {
        assert ColumnSum(arrays, k) == ColumnSum(pre, k) + Flatten(arrays[n])[k];
      }
    }
  }

  /** Add's backward pass: `tensorCount` references to the incoming gradient. */
  function AddBackward(tensorCount: nat, g: NArr): (r: seq<NArr>)
    ensures |r| == tensorCount && forall i :: 0 <= i < |r| ==> r[i] == g
  {
    seq(tensorCount, _ => g)
  }

  // ---------------------------------------------------------------------------
  // Mean

  /** `array.flat()`: one level of nesting removed; numbers are kept as they are. */
  function FlatOne(s: seq<NArr>): seq<NArr>
  {
    if s == [] then []
    else FlatOne(s[..|s| - 1]) + (if s[|s| - 1].Node? then s[|s| - 1].items else [s[|s| - 1]])
  }

  predicate AllLeaves(s: seq<NArr>)
  {
    forall i :: 0 <= i < |s| ==> s[i].Leaf?
  }

  function Numbers(s: seq<NArr>): (r: seq<real>)
    requires AllLeaves(s)
    ensures |r| == |s| && forall i :: 0 <= i < |s| ==> r[i] == s[i].x
  {
    seq(|s|, i requires 0 <= i < |s| => s[i].x)
  }

  /** Mean's `setup`: `elementCount` is the product of the first input's
      shape, `None` standing for undefined. A number's shape, written [] here,
      is `[undefined]` in JavaScript, whose `reduce` returns that one entry
      without a throw. */
  function MeanElementCount(shape: seq<nat>): (r: Option<nat>)
    ensures shape != [] <==> r.Some?
    ensures r.Some? ==> r.value == Product(shape)
  {
    if shape == [] then None else Some(Product(shape))
  }

  /** Mean's forward pass: sum of `values[0].flat()` divided by `elementCount`,
      returned as a one-element array. A number has no `flat`, and an empty
      flattening has nothing to `reduce`: both throw before the division. */
  function MeanForward(v: NArr, elementCount: Option<nat>): (r: Result<NArr>)
    ensures r.Ok? ==> exists m :: r.value == Node([Leaf(m)])
    ensures v.Leaf? ==> r == Err(Crash)
  {
    if v.Leaf? then Err(Crash)
    else
      var f := FlatOne(v.items);
      if f == [] then Err(Crash)
      else if !AllLeaves(f) || elementCount.None? || elementCount.value == 0 then Err(NonNumeric)
      else Ok(Node([Leaf(NArrays.Sum(Numbers(f)) / elementCount.value as real)]))
  }

  /** One level of flattening lists all leaves of a rank-1 or rank-2 rectangular array. */
  lemma {:induction false} FlatOneOfRankTwo(s: seq<NArr>)
    requires forall i :: 0 <= i < |s| ==> s[i].Leaf? || (s[i].Node? && AllLeaves(s[i].items))
    ensures AllLeaves(FlatOne(s)) && Numbers(FlatOne(s)) == FlattenAll(s)
  {
    if s != [] {
      var n := |s| - 1;
      FlatOneOfRankTwo(s[..n]);
      if s[n].Node? {
        LeavesFlatten(s[n].items);
      }
      var A, B := FlatOne(s[..n]), (if s[n].Node? then s[n].items else [s[n]]);
      assert FlatOne(s) == A + B;
      assert Numbers(A + B) == Numbers(A) + Numbers(B);
    }
  }

  /** A flat array of numbers flattens to its numbers. */
  lemma {:induction false} LeavesFlatten(s: seq<NArr>)
    requires AllLeaves(s)
    ensures FlattenAll(s) == Numbers(s)
  {
    if s != [] {
      var n := |s| - 1;
      LeavesFlatten(s[..n]);
      assert Numbers(s) == Numbers(s[..n]) + [s[n].x];
    }
  }

  /** Mean of a rectangular array of rank 1 or 2 with positive dimensions is the
      sum of all its leaves over the product of its shape. */
  lemma MeanOfRankTwo(v: NArr)
    requires Rect(v) && v.Node? && 1 <= |Shape(v)| <= 2 && Positive(Shape(v))
    ensures Product(Shape(v)) > 0
    ensures MeanElementCount(Shape(v)) == Some(Product(Shape(v)))
    ensures MeanForward(v, Some(Product(Shape(v)))) ==
            Ok(Node([Leaf(NArrays.Sum(Flatten(v)) / Product(Shape(v)) as real)]))
  {
    var s := Shape(v);
    ProductPositive(s);
    RankTwoRows(v, s);
    FlatOneOfRankTwo(v.items);
    FlattenLength(v, s);
    assert |FlatOne(v.items)| == Product(s);
  }

  /** Each entry of a rank-1 or rank-2 array is a number or an array of numbers. */
  lemma RankTwoRows(v: NArr, s: seq<nat>)
    requires HasShape(v, s) && 1 <= |s| <= 2
    ensures forall i :: 0 <= i < |v.items| ==> v.items[i].Leaf? || (v.items[i].Node? && AllLeaves(v.items[i].items))
  {
    forall i | 0 <= i < |v.items|
      ensures v.items[i].Leaf? || (v.items[i].Node? && AllLeaves(v.items[i].items))
    {
      assert HasShape(v.items[i], s[1..]);
      if |s| == 2 {
        forall j | 0 <= j < |v.items[i].items| ensures v.items[i].items[j].Leaf? {
          assert HasShape(v.items[i].items[j], s[2..]);
        }
      }
    }
  }

  lemma {:induction false} ProductPositive(s: seq<nat>)
    requires Positive(s)
    ensures Product(s) > 0
  {
    if s != [] {
      assert Positive(s[1..]);
      ProductPositive(s[1..]);
    }
  }

  /** Mean's backward pass: one gradient of the cached shape filled with
      `gradient[0]` (a shape never set up, or a gradient without a leading number,
      cannot be filled). */
  function MeanBackward(shape: Option<seq<nat>>, g: NArr): (r: Result<seq<NArr>>)
    ensures r.Ok? ==> shape.Some? && |r.value| == 1 && HasShape(r.value[0], shape.value)
    ensures r.Ok? ==> g.Node? && |g.items| > 0 && g.items[0].Leaf? && Uniform(r.value[0], g.items[0].x)
  {
    if shape.None? then Err(Crash)
    else if g.Leaf? || |g.items| == 0 || g.items[0].Node? then Err(NonNumeric)
    else Ok([Filled(shape.value, g.items[0].x)])
  }

  // ---------------------------------------------------------------------------
  // Matmul

  /** Σ_{i < n} a[row][i] * b[i][col]: the inner loop's running sum. */
  function Dot(a: NArr, b: NArr, row: nat, col: nat, n: nat): real
    requires IsMatrix(a) && IsMatrix(b) && row < |a.items| && n <= Cols(a) && n <= |b.items| && col < Cols(b)
  {
    if n == 0 then 0.0 else Dot(a, b, row, col, n - 1) + At(a, row, n - 1) * At(b, n - 1, col)
  }

  /** When `tensorMul([a, b])` fails: `b[0].length` on an empty or numeric `b`,
      or `b[i]` read past the rows of `b` because a row of `a` is longer. */
  predicate TensorMulCrashes(a: NArr, b: NArr)
  {
    b.Leaf? || |b.items| == 0 ||
    (IsMatrix(a) && IsMatrix(b) && |a.items| > 0 && Cols(b) > 0 && Cols(a) > |b.items|)
  }

  /** The result of `tensorMul([a, b])` on matrices it does not crash on: shape
      [rows(a), cols(b)], entry (r, c) = Σ_{i < cols(a)} a[r][i] * b[i][c]. */
  function MatProduct(a: NArr, b: NArr): (r: NArr)
    requires IsMatrix(a) && IsMatrix(b) && !TensorMulCrashes(a, b)
    ensures IsMatrix(r) && HasShape(r, [|a.items|, Cols(b)]) && |r.items| == |a.items|
    ensures |a.items| > 0 ==> Cols(r) == Cols(b)
    ensures forall i, j :: 0 <= i < |a.items| && 0 <= j < Cols(b) ==>
              At(r, i, j) == Dot(a, b, i, j, Cols(a))
  {
    Tabulate(|a.items|, Cols(b), (i: nat, j: nat) =>
      if i < |a.items| && j < Cols(b) then Dot(a, b, i, j, Cols(a)) else 0.0)
  }

  /** `tensorMul([a, b])` as a value: operands that are not matrices give
      non-numeric entries in JavaScript and are reported as such. */
  function TensorMulResult(a: NArr, b: NArr): (r: Result<NArr>)
  {
    if TensorMulCrashes(a, b) then Err(Crash)
    else if !IsMatrix(a) || !IsMatrix(b) then Err(NonNumeric)
    else Ok(MatProduct(a, b))
  }

  /** `Matmul.tensorMul`: the triple loop filling a rows(a) × cols(b) buffer of zeros. */
  method TensorMul(a: NArr, b: NArr) returns (r: Result<NArr>)
    ensures r == TensorMulResult(a, b)
  {
    if b.Leaf? || |b.items| == 0 {
      return Err(Crash);
    }
    if !IsMatrix(a) || !IsMatrix(b) {
      if TensorMulCrashes(a, b) {
        return Err(Crash);
      }
      return Err(NonNumeric);
    }
    MatrixEntries(a);
    MatrixEntries(b);
    var rows, cols := |a.items|, Cols(b);
    var finalArr := new real[rows, cols]((_, _) => 0.0);
    var row := 0;
    while row < rows
      invariant 0 <= row <= rows
      invariant row > 0 && cols > 0 ==> Cols(a) <= |b.items|
      invariant forall i, j :: 0 <= i < row && 0 <= j < cols ==>
                  Cols(a) <= |b.items| && finalArr[i, j] == Dot(a, b, i, j, Cols(a))
    {
      var col := 0;
      while col < cols
        invariant 0 <= col <= cols
        invariant cols > 0 && (row > 0 || col > 0) ==> Cols(a) <= |b.items|
        invariant forall i, j :: 0 <= i < row && 0 <= j < cols ==>
                    Cols(a) <= |b.items| && finalArr[i, j] == Dot(a, b, i, j, Cols(a))
        invariant forall j :: 0 <= j < col ==>
                    Cols(a) <= |b.items| && finalArr[row, j] == Dot(a, b, row, j, Cols(a))
      {
        var sum := 0.0;
        var i := 0;
        while i < |a.items[row].items|
          invariant 0 <= i <= Cols(a) && i <= |b.items|
          invariant sum == Dot(a, b, row, col, i)
        {
          if i >= |b.items| {
            return Err(Crash);
          }
          sum := sum + a.items[row].items[i].x * b.items[i].items[col].x;
          i := i + 1;
        }
        finalArr[row, col] := sum;
        col := col + 1;
      }
      row := row + 1;
    }
    r := Ok(FromArray2(finalArr));
    assert r.value == MatProduct(a, b) by {
      MatrixExt(r.value, MatProduct(a, b));
    }
  }

  /** The nested-array view of a rows × cols buffer. */
  function FromArray2(m: array2<real>): (r: NArr)
    reads m
    ensures IsMatrix(r) && |r.items| == m.Length0 && (m.Length0 > 0 ==> Cols(r) == m.Length1)
    ensures forall i, j :: 0 <= i < m.Length0 && 0 <= j < m.Length1 ==> At(r, i, j) == m[i, j]
  {
    var r := Node(seq(m.Length0, i requires 0 <= i < m.Length0 reads m =>
               Node(seq(m.Length1, j requires 0 <= j < m.Length1 reads m => Leaf(m[i, j])))));
    assert forall i :: 0 <= i < m.Length0 ==> HasShape(r.items[i], [m.Length1]);
    assert m.Length0 > 0 ==> Cols(r) == m.Length1;
    assert m.Length0 == 0 ==> |r.items| == 0;
    r
  }

  lemma MulMonoInt(a: nat, b: nat, c: nat)
    requires a <= b
    ensures a * c <= b * c
  {
  }

  /** For conforming matrices (cols(a) == rows(b) > 0) tensorMul is the matrix
      product: it succeeds with shape [rows(a), cols(b)]. */
  lemma TensorMulConforming(a: NArr, b: NArr)
    requires IsMatrix(a) && IsMatrix(b) && |b.items| > 0 && Cols(a) == |b.items|
    ensures TensorMulResult(a, b).Ok?
    ensures HasShape(TensorMulResult(a, b).value, [|a.items|, Cols(b)])
  {
  }

  /** `Matmul.setup`'s check `shape1[1] != shape2[0]`: a missing axis reads as
      `undefined`, which differs from every number. */
  predicate MatmulShapesAgree(s1: seq<nat>, s2: seq<nat>)
  {
    (if |s1| > 1 then Some(s1[1]) else None) == (if |s2| > 0 then Some(s2[0]) else None)
  }

  /** `TensorUtils.transpose` as a value (the hidden `Transpose` operation is
      assumed to compute the same): `array[0].length` fails on an empty array. */
  function TransposeResult(a: NArr): (r: Result<NArr>)
    ensures r.Ok? ==> IsMatrix(a) && |a.items| > 0 && r.value == Transposed(a)
    ensures IsMatrix(a) ==> (r.Ok? <==> |a.items| > 0)
  {
    if a.Leaf? || |a.items| == 0 then Err(Crash)
    else if !IsMatrix(a) then Err(NonNumeric)
    else Ok(Transposed(a))
  }

  /** `Matmul.backward` as written: [tensorMul(G, transpose(t2)), tensorMul(t1, G)].
      The cached operands are absent until a forward pass has run. */
  function MatmulBackward(t1: Option<NArr>, t2: Option<NArr>, g: NArr): (r: Result<seq<NArr>>)
    ensures r.Ok? ==> |r.value| == 2
  {
    if t1.None? || t2.None? then Err(Crash)
    else
      var t2T :- TransposeResult(t2.value);
      var g1 :- TensorMulResult(g, t2T);
      var g2 :- TensorMulResult(t1.value, g);
      Ok([g1, g2])
  }

  /** The first gradient has t1's shape: for t1 of shape [m, n] (m, n > 0), t2
      of shape [n, p] (p > 0) and G of the output shape [m, p], G · t2ᵀ is m × n. */
  lemma MatmulFirstGradientShape(t1: NArr, t2: NArr, g: NArr, m: nat, n: nat, p: nat)
    requires m > 0 && n > 0 && p > 0
    requires HasShape(t1, [m, n]) && HasShape(t2, [n, p]) && HasShape(g, [m, p])
    ensures IsMatrix(t2) && TransposeResult(t2).Ok?
    ensures TensorMulResult(g, TransposeResult(t2).value).Ok?
    ensures HasShape(TensorMulResult(g, TransposeResult(t2).value).value, [m, n])
  {
    MatrixDims(t1, m, n);
    MatrixDims(t2, n, p);
    MatrixDims(g, m, p);
  }

  /** The second gradient as written is t1 · G, of shape [m, p], where the
      gradient of t2 should be t2's shape [n, p]; it exists only when n <= m. */
  lemma MatmulSecondGradientAsWritten(t1: NArr, t2: NArr, g: NArr, m: nat, n: nat, p: nat)
    requires m > 0 && n > 0 && p > 0
    requires HasShape(t1, [m, n]) && HasShape(t2, [n, p]) && HasShape(g, [m, p])
    ensures n > m ==> MatmulBackward(Some(t1), Some(t2), g) == Err(Crash)
    ensures n <= m ==> MatmulBackward(Some(t1), Some(t2), g).Ok? &&
                       HasShape(MatmulBackward(Some(t1), Some(t2), g).value[1], [m, p])
    ensures n <= m ==> HasShape(MatmulBackward(Some(t1), Some(t2), g).value[0], [m, n])
  {
    MatmulFirstGradientShape(t1, t2, g, m, n, p);
    MatrixDims(t1, m, n);
    MatrixDims(g, m, p);
  }

  /** The matrix of shape [r, c] has r rows and (for r > 0) c columns. */
  lemma MatrixDims(a: NArr, r: nat, c: nat)
    requires HasShape(a, [r, c])
    ensures IsMatrix(a) && |a.items| == r && (r > 0 ==> Cols(a) == c)
  {
    if r > 0 {
      assert HasShape(a.items[0], [c]);
    }
  }

  /** Concretely: t1 of shape [2, 3] times t2 of shape [3, 2] makes backward
      crash, and for t1 of shape [3, 2] times t2 of shape [2, 1] the gradient
      for t2 has shape [3, 1] instead of [2, 1]. */
  lemma MatmulSecondGradientExamples(t1: NArr, t2: NArr, g: NArr, u1: NArr, u2: NArr, h: NArr)
    requires HasShape(t1, [2, 3]) && HasShape(t2, [3, 2]) && HasShape(g, [2, 2])
    requires HasShape(u1, [3, 2]) && HasShape(u2, [2, 1]) && HasShape(h, [3, 1])
    ensures MatmulBackward(Some(t1), Some(t2), g) == Err(Crash)
    ensures MatmulBackward(Some(u1), Some(u2), h).Ok?
    ensures !HasShape(MatmulBackward(Some(u1), Some(u2), h).value[1], [2, 1])
  {
    MatmulSecondGradientAsWritten(t1, t2, g, 2, 3, 2);
    MatmulSecondGradientAsWritten(u1, u2, h, 3, 2, 1);
    var g2 := MatmulBackward(Some(u1), Some(u2), h).value[1];
    assert |g2.items| == 3;
  }

  /** For a square t1 (m == n) both backward gradients have their input's shape. */
  lemma MatmulBackwardSquare(t1: NArr, t2: NArr, g: NArr, n: nat, p: nat)
    requires n > 0 && p > 0
    requires HasShape(t1, [n, n]) && HasShape(t2, [n, p]) && HasShape(g, [n, p])
    ensures MatmulBackward(Some(t1), Some(t2), g).Ok?
    ensures HasShape(MatmulBackward(Some(t1), Some(t2), g).value[0], [n, n])
    ensures HasShape(MatmulBackward(Some(t1), Some(t2), g).value[1], [n, p])
  {
    MatmulSecondGradientAsWritten(t1, t2, g, n, n, p);
  }

  // ---------------------------------------------------------------------------
  // Max

  /** JavaScript's `isNaN(x)` is false: a number, or an array whose string form
      is a number literal (empty, or a single such element). */
  predicate LooksNumeric(a: NArr)
  {
    match a
    case Leaf(_) => true
    case Node(s) => |s| == 0 || (|s| == 1 && LooksNumeric(s[0]))
  }

  /** The number such a value coerces to (`[]` is 0, `[x]` is x). */
  function NumberOf(a: NArr): real
    requires LooksNumeric(a)
  {
    match a
    case Leaf(x) => x
    case Node(s) => if |s| == 0 then 0.0 else NumberOf(s[0])
  }

  /** `Max.max`: recurse while `isNaN`, else keep the value when it exceeds the limit. */
  function MaxOf(a: NArr, limit: real): NArr
  {
    if LooksNumeric(a) then (if NumberOf(a) > limit then a else Leaf(limit))
    else Node(seq(|a.items|, i requires 0 <= i < |a.items| => MaxOf(a.items[i], limit)))
  }

  /** Every array has at least two entries: here `isNaN` tells arrays from numbers. */
  predicate Structural(a: NArr)
  {
    match a
    case Leaf(_) => true
    case Node(s) => |s| >= 2 && forall i :: 0 <= i < |s| ==> Structural(s[i])
  }

  function Clamp(limit: real): real -> real
  {
    x => if x > limit then x else limit
  }

  function Mask(limit: real): (real, real) -> real
  {
    (x, g) => if x > limit then g else 0.0
  }

  /** On structural arrays Max's forward pass is the leafwise clamp from below. */
  lemma {:induction false} MaxOfStructural(a: NArr, limit: real)
    requires Structural(a)
    ensures MaxOf(a, limit) == MapLeaves(a, Clamp(limit))
    decreases a
  {
    match a
    case Leaf(_) =>
    case Node(s) =>
      forall i | 0 <= i < |s| ensures MaxOf(s[i], limit) == MapLeaves(s[i], Clamp(limit)) {
        MaxOfStructural(s[i], limit);
      }
  }

  /** The forward pass keeps the shape and clamps each flattened entry. */
  lemma MaxForwardFlatten(a: NArr, limit: real)
    requires Structural(a)
    ensures Congruent(a, MaxOf(a, limit))
    ensures |Flatten(MaxOf(a, limit))| == |Flatten(a)|
    ensures forall k :: 0 <= k < |Flatten(a)| ==>
              Flatten(MaxOf(a, limit))[k] == (if Flatten(a)[k] > limit then Flatten(a)[k] else limit)
  {
    MaxOfStructural(a, limit);
    MapLeavesFlatten(a, Clamp(limit));
  }

  /** `g` supplies an entry wherever `calcGrad` reads one. */
  predicate GradCovers(a: NArr, g: NArr)
  {
    LooksNumeric(a) ||
    (g.Node? && |a.items| <= |g.items| &&
     forall i :: 0 <= i < |a.items| ==> GradCovers(a.items[i], g.items[i]))
  }

  /** `Max.calcGrad`: the gradient where the cached input exceeds the limit, 0 elsewhere. */
  function CalcGrad(a: NArr, g: NArr, limit: real): NArr
    requires GradCovers(a, g)
  {
    if LooksNumeric(a) then (if NumberOf(a) > limit then g else Leaf(0.0))
    else Node(seq(|a.items|, i requires 0 <= i < |a.items| => CalcGrad(a.items[i], g.items[i], limit)))
  }

  /** On structural arrays with a gradient of the same shape calcGrad is the
      leafwise mask: strictly greater passes the gradient, otherwise 0. */
  lemma {:induction false} CalcGradStructural(a: NArr, g: NArr, limit: real)
    requires Structural(a) && Congruent(a, g)
    ensures GradCovers(a, g) && CalcGrad(a, g, limit) == ZipWith(a, g, Mask(limit))
    decreases a
  {
    match a
    case Leaf(_) =>
    case Node(s) =>
      forall i | 0 <= i < |s|
        ensures GradCovers(s[i], g.items[i]) && CalcGrad(s[i], g.items[i], limit) == ZipWith(s[i], g.items[i], Mask(limit))
      {
        CalcGradStructural(s[i], g.items[i], limit);
      }
  }

  /** The backward pass flattened: entry k is g's entry k where a's entry k
      is strictly above the limit, else 0. */
  lemma MaxBackwardFlatten(a: NArr, g: NArr, limit: real)
    requires Structural(a) && Congruent(a, g)
    ensures GradCovers(a, g)
    ensures |Flatten(CalcGrad(a, g, limit))| == |Flatten(a)| == |Flatten(g)|
    ensures forall k :: 0 <= k < |Flatten(a)| ==>
              Flatten(CalcGrad(a, g, limit))[k] == (if Flatten(a)[k] > limit then Flatten(g)[k] else 0.0)
  {
    CalcGradStructural(a, g, limit);
    ZipWithFlatten(a, g, Mask(limit));
  }

  /** `Max.forward`: the limit is `tensors[1][0]`. */
  function MaxForward(x: NArr, l: NArr): (r: Result<NArr>)
    ensures r.Ok? <==> l.Node? && |l.items| > 0 && l.items[0].Leaf?
  {
    if l.Node? && |l.items| > 0 && l.items[0].Leaf? then Ok(MaxOf(x, l.items[0].x))
    else Err(NonNumeric)
  }

  /** `Max.backward`: [calcGrad(cached input, G, limit), [0]]; nothing is cached
      before a forward pass. */
  function MaxBackward(cached: Option<NArr>, limit: Option<real>, g: NArr): (r: Result<seq<NArr>>)
    ensures r.Ok? ==> |r.value| == 2 && r.value[1] == Node([Leaf(0.0)])
  {
    if cached.None? || limit.None? then Err(Crash)
    else if !GradCovers(cached.value, g) then Err(NonNumeric)
    else Ok([CalcGrad(cached.value, g, limit.value), Node([Leaf(0.0)])])
  }

  /** ReLU on [[-1, 2, -3]] with limit 0 gives [[0, 2, 0]]; with gradient
      [[1, 1, 1]] the gradients are [[0, 1, 0]] and [0]. */
  lemma ReluExample()
    ensures MaxForward(Node([Node([Leaf(-1.0), Leaf(2.0), Leaf(-3.0)])]), Node([Leaf(0.0)])) ==
            Ok(Node([Node([Leaf(0.0), Leaf(2.0), Leaf(0.0)])]))
    ensures MaxBackward(Some(Node([Node([Leaf(-1.0), Leaf(2.0), Leaf(-3.0)])])), Some(0.0),
                        Node([Node([Leaf(1.0), Leaf(1.0), Leaf(1.0)])])) ==
            Ok([Node([Node([Leaf(0.0), Leaf(1.0), Leaf(0.0)])]), Node([Leaf(0.0)])])
  {
    var row := Node([Leaf(-1.0), Leaf(2.0), Leaf(-3.0)]);
    var a := Node([row]);
    assert !LooksNumeric(row) && !LooksNumeric(a);
    assert MaxOf(row, 0.0).items == [Leaf(0.0), Leaf(2.0), Leaf(0.0)];
    assert MaxOf(a, 0.0).items == [MaxOf(row, 0.0)];
    var g := Node([Node([Leaf(1.0), Leaf(1.0), Leaf(1.0)])]);
    assert GradCovers(row, g.items[0]);
    assert GradCovers(a, g);
    assert CalcGrad(row, g.items[0], 0.0).items == [Leaf(0.0), Leaf(1.0), Leaf(0.0)];
    assert CalcGrad(a, g, 0.0).items == [CalcGrad(row, g.items[0], 0.0)];
  }

  /** A one-element innermost array looks like a number to `isNaN`: the ReLU of
      [[-1]] is the bare limit 0, not [[0]]. */
  lemma ReluSingletonExample()
    ensures MaxForward(Node([Node([Leaf(-1.0)])]), Node([Leaf(0.0)])) == Ok(Leaf(0.0))
  {
  }

  // ---------------------------------------------------------------------------
  // Assumed helpers (classes the library calls but does not show)

  /** `Subtract.diff([a, b])`, assumed elementwise: arrays of different shapes give a
      value whose shape differs from `a`'s, which the value setter rejects. */
  function Diff(a: NArr, b: NArr): (r: Result<NArr>)
    ensures r.Ok? <==> SameShape(a, b)
    ensures r.Ok? ==> SameShape(a, r.value) && |Flatten(r.value)| == |Flatten(a)| == |Flatten(b)|
    ensures r.Ok? ==> forall k :: 0 <= k < |Flatten(a)| ==>
              Flatten(r.value)[k] == Flatten(a)[k] - Flatten(b)[k]
  {
    if SameShape(a, b) then
      SameShapeCongruent(a, b);
      ZipWithFlatten(a, b, Minus);
      CongruentSameShape(a, ZipWith(a, b, Minus));
      Ok(ZipWith(a, b, Minus))
    else Err(ShapeMismatch)
  }

  /** `Multiply.product([a, b])`, assumed elementwise on arrays of one shape. */
  function Product2(a: NArr, b: NArr): (r: Result<NArr>)
    ensures r.Ok? <==> SameShape(a, b)
    ensures r.Ok? ==> SameShape(a, r.value) && |Flatten(r.value)| == |Flatten(a)| == |Flatten(b)|
    ensures r.Ok? ==> forall k :: 0 <= k < |Flatten(a)| ==>
              Flatten(r.value)[k] == Flatten(a)[k] * Flatten(b)[k]
  {
    if SameShape(a, b) then
      SameShapeCongruent(a, b);
      ZipWithFlatten(a, b, Times);
      CongruentSameShape(a, ZipWith(a, b, Times));
      Ok(ZipWith(a, b, Times))
    else Err(ShapeMismatch)
  }

  /** `NanToNum.unNanify`: the model has no NaN, so every value is already clean. */
  function UnNanify(a: NArr): (r: NArr)
    ensures r == a
  {
    a
  }
}
