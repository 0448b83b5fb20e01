/** The legacy tensor classes: `Tensor` of `utils/Tensor.js` (`JsTensor`) and
    its TypeScript copy in `lib/Tensor.ts` (`TsTensor`). Each holds a nested
    array, the shape computed for it, a `require_grad` setting and a list of
    children; `operation` combines it with another tensor or a number, either
    in place or into a new tensor. The array algorithms are in module
    `LegacyArrays`; the closures of the legacy autograd are not modelled. */
module LegacyTensor {

  import opened Results
  import opened NArrays
  import opened LegacyArrays
  import Kernels

  /** `!value` is false: the value is defined and not the number 0 (arrays,
      even empty ones, are truthy). */
  predicate Truthy(v: Option<NArr>)
  {
    v.Some? && v.value != Leaf(0.0)
  }

  /** The shape the constructors compute: `calculateShape(value)` for an array
      with entries, [0] otherwise (an empty array, or a number, whose
      `length` is undefined). */
  function DefaultShape(v: NArr): (s: seq<nat>)
    ensures v.Node? && v.items != [] ==> ShapeOf(v) == Ok(s) && s[0] == |v.items|
    ensures v.Leaf? || v.items == [] ==> s == [0]
  {
    if v.Node? && v.items != [] then
      ShapeOfDefined(v);
      ShapeOf(v).value
    else [0]
  }

  /** The operand of `operation`: a tensor, a number (`!isNaN(tensor2)`), or
      anything else. */
  datatype Operand<T> = TensorArg(t: T) | NumberArg(c: real) | OtherArg

  /** An operand as `operation` reads it: a tensor's shape and value. */
  datatype ArgValue<S> = TensorValue(shape: S, value: NArr) | NumberValue(c: real) | OtherValue

  /** The reshape of a tensor's value: `reshapeValue` on its array; on a
      number, `slice` is missing unless no row is cut. */
  function ReshapeTensor(v: NArr, s: seq<nat>): Result<NArr>
  {
    if v.Node? then Ok(ReshapeOf(v.items, s))
    else if |s| == 1 then Ok(v)
    else if |s| == 0 || s[0] == 0 then Ok(Node([]))
    else Err(Crash)
  }

  /** A flat tensor value with Product(s) entries reshapes to an array of
      shape s with the same entries in row-major order. */
  lemma ReshapeTensorFlat(v: NArr, s: seq<nat>)
    requires v.Node? && Kernels.AllLeaves(v.items) && |v.items| == Product(s) && |s| >= 1
    ensures ReshapeTensor(v, s).Ok?
    ensures HasShape(ReshapeTensor(v, s).value, s) && Flatten(ReshapeTensor(v, s).value) == Flatten(v)
    ensures |s| == 1 ==> ReshapeTensor(v, s) == Ok(v)
  {
    ReshapeFlat(v.items, s);
  }

  // ---------------------------------------------------------------------------
  // utils/Tensor.js

  /** A child entry: a tensor (what the constructor is given) or an index
      key (what `registerChildren`'s `for…in` pushes). */
  datatype Child = Member(t: JsTensor) | Key(k: nat)

  /** `operation`: the shape check against a tensor operand, then
      `doOperation` with the other tensor's array or the number. None is the
      undefined result for any other operand. */
  function JsOutcome(op: LegacyOp, shape: seq<nat>, value: NArr, arg: ArgValue<seq<nat>>): Result<Option<NArr>>
  {
    match arg
    case OtherValue => Ok(None)
    case TensorValue(s2, v2) =>
      if shape != s2 then Err(ShapeMismatch)
      else
        var v :- DoOp(op, Paired(Some(v2)), shape, Some(value), false);
        Ok(Some(v))
    case NumberValue(c) =>
      var v :- DoOp(op, Constant(c), shape, Some(value), false);
      Ok(Some(v))
  }

  /** The shape check: "Shapes do not match" exactly when the shapes differ. */
  lemma JsShapeGuard(op: LegacyOp, shape: seq<nat>, value: NArr, s2: seq<nat>, v2: NArr)
    ensures JsOutcome(op, shape, value, TensorValue(s2, v2)) == Err(ShapeMismatch) <==> shape != s2
  {
    DoOpNoMismatch(op, Paired(Some(v2)), shape, Some(value), false);
  }

  /** Against a tensor of the same shape, the result is the leafwise
      combination, of that shape; division fails exactly when a divisor entry
      is 0. */
  lemma JsOperationPaired(op: LegacyOp, v: NArr, w: NArr, s: seq<nat>)
    requires |s| >= 1 && HasShape(v, s) && HasShape(w, s)
    ensures Congruent(v, w)
    ensures JsOutcome(op, s, v, TensorValue(s, w)) ==
            if op == DivOp && 0.0 in Flatten(w) then Err(ZeroValue) else Ok(Some(ZipWith(v, w, Total(op))))
    ensures HasShape(ZipWith(v, w, Total(op)), s)
  {
    DoOpPaired(op, v, w, s, false);
    HasZeroFlatten(w);
    ZipWithFlatten(v, w, Total(op));
    CongruentHasShape(v, ZipWith(v, w, Total(op)), s);
  }

  /** Against a number, the result is the leafwise map, of the same shape;
      division by 0 fails exactly when there is an entry to divide. */
  lemma JsOperationConstant(op: LegacyOp, v: NArr, c: real, s: seq<nat>)
    requires |s| >= 1 && HasShape(v, s)
    ensures JsOutcome(op, s, v, NumberValue(c)) ==
            if op == DivOp && c == 0.0 && Flatten(v) != [] then Err(ZeroValue) else Ok(Some(MapLeaves(v, With(op, c))))
    ensures HasShape(MapLeaves(v, With(op, c)), s)
  {
    DoOpConstant(op, v, c, s, false);
    HasLeafFlatten(v);
    MapLeavesFlatten(v, With(op, c));
    CongruentHasShape(v, MapLeaves(v, With(op, c)), s);
  }

  /** `divide` and static `divide`: "Zero value encountered" exactly when a
      divisor entry is 0; otherwise every entry is the quotient of the
      entries at the same place. */
  lemma DivideZeroCheck(v: NArr, w: NArr, s: seq<nat>)
    requires |s| >= 1 && HasShape(v, s) && HasShape(w, s)
    ensures JsOutcome(DivOp, s, v, TensorValue(s, w)) == Err(ZeroValue) <==> 0.0 in Flatten(w)
    ensures 0.0 !in Flatten(w) ==>
              JsOutcome(DivOp, s, v, TensorValue(s, w)).Ok? && JsOutcome(DivOp, s, v, TensorValue(s, w)).value.Some? &&
              var z := Flatten(JsOutcome(DivOp, s, v, TensorValue(s, w)).value.value);
              |z| == |Flatten(v)| == |Flatten(w)| &&
              forall k :: 0 <= k < |z| ==> Flatten(w)[k] != 0.0 && z[k] == Flatten(v)[k] / Flatten(w)[k]
  {
    JsOperationPaired(DivOp, v, w, s);
    ZipWithFlatten(v, w, Total(DivOp));
  }

  class JsTensor {
    var value: NArr
    var shape: seq<nat>
    var requireGrad: bool
    var children: seq<Child>

    /** The fields as the constructor sets them once its checks passed. */
    constructor Init(value: NArr, shape: seq<nat>, requireGrad: bool, children: seq<Child>)
      ensures this.value == value && this.shape == shape
      ensures this.requireGrad == requireGrad && this.children == children
    {
      this.value := value;
      this.shape := shape;
      this.requireGrad := requireGrad;
      this.children := children;
    }

    /** `new Tensor(value, require_grad, children)`: "value not defined" for
        a falsy value, else the value with its default shape. */
    static method New(value: Option<NArr>, requireGrad: bool, children: seq<Child>) returns (r: Result<JsTensor>)
      ensures !Truthy(value) <==> r == Err(ValueNotDefined)
      ensures Truthy(value) <==> r.Ok?
      ensures r.Ok? ==> fresh(r.value) && r.value.value == value.value && r.value.shape == DefaultShape(value.value) &&
                        r.value.requireGrad == requireGrad && r.value.children == children
    {
      if !Truthy(value) {
        return Err(ValueNotDefined);
      }
      var v := value.value;
      var shape: seq<nat> := [0];
      if v.Node? && |v.items| > 0 {
        var s := CalculateShape(v, []);
        assert s.Ok? by { ShapeOfDefined(v); }
        shape := s.value;
      }
      var t := new JsTensor.Init(v, shape, requireGrad, children);
      r := Ok(t);
    }

    /** `registerChildren(children)`: `for…in` walks the indices, so the
        index keys 0, 1, ... are pushed, never the tensors. */
    method RegisterChildren(cs: seq<Child>)
      modifies this`children
      ensures |children| == |old(children)| + |cs| && children[..|old(children)|] == old(children)
      ensures forall i :: 0 <= i < |cs| ==> children[|old(children)| + i] == Key(i)
    {
      ghost var before := children;
      for i := 0 to |cs|
        invariant children == before + seq(i, k requires 0 <= k => Key(k))
      {
        children := children + [Key(i)];
      }
    }

    /** The operand's shape and value as they are now. */
    static function ArgOf(arg: Operand<JsTensor>): ArgValue<seq<nat>>
      reads if arg.TensorArg? then {arg.t} else {}
    {
      match arg
      case TensorArg(t) => TensorValue(t.shape, t.value)
      case NumberArg(c) => NumberValue(c)
      case OtherArg => OtherValue
    }

    /** The children a new result tensor gets. */
    function ChildrenOf(arg: Operand<JsTensor>): seq<Child>
    {
      if arg.TensorArg? then [Member(this), Member(arg.t)] else [Member(this)]
    }

    /** `operation(tensor2, tensorFun, returnSelf)`: with `returnSelf` the
        value is replaced and `this` returned, otherwise a new tensor with the
        result, this tensor's `require_grad` and children [this, tensor2] (or
        [this] for a number). A failure leaves the value as it was. */
    method Operation(arg: Operand<JsTensor>, op: LegacyOp, returnSelf: bool) returns (r: Result<Option<JsTensor>>)
      modifies this`value
      ensures var o := JsOutcome(op, old(shape), old(value), old(ArgOf(arg)));
              (o.Err? ==> r == Err(o.error) && value == old(value)) &&
              (o == Ok(None) ==> r == Ok(None) && value == old(value)) &&
              (o.Ok? && o.value.Some? && returnSelf ==> r == Ok(Some(this)) && value == o.value.value) &&
              (o.Ok? && o.value.Some? && !returnSelf ==>
                 value == old(value) && r.Ok? && r.value.Some? && fresh(r.value.value) &&
                 r.value.value.value == o.value.value && r.value.value.shape == DefaultShape(o.value.value) &&
                 r.value.value.requireGrad == requireGrad && r.value.value.children == ChildrenOf(arg))
    {
      var sec: Second;
      match arg {
        case OtherArg =>
          return Ok(None);
        case TensorArg(t) =>
          if shape != t.shape {
            return Err(ShapeMismatch);
          }
          sec := Paired(Some(t.value));
        case NumberArg(c) =>
          sec := Constant(c);
      }
      var v := DoOperation(op, sec, shape, Some(value), false);
      if v.Err? {
        return Err(v.error);
      }
      if returnSelf {
        value := v.value;
        return Ok(Some(this));
      }
      var n := New(Some(v.value), requireGrad, ChildrenOf(arg));
      r := Ok(Some(n.value));
    }

    /** `reshape(newShape)`: the value reshaped and the shape set to newShape. */
    method Reshape(newShape: seq<nat>) returns (o: Outcome)
      modifies this`value, this`shape
      ensures ReshapeTensor(old(value), newShape).Err? ==>
                o == Fail(ReshapeTensor(old(value), newShape).error) && value == old(value) && shape == old(shape)
      ensures ReshapeTensor(old(value), newShape).Ok? ==>
                o == Pass && value == ReshapeTensor(old(value), newShape).value && shape == newShape
    {
      if value.Node? {
        value := ReshapeValue(value.items, newShape);
      } else if |newShape| == 0 || (|newShape| > 1 && newShape[0] == 0) {
        value := Node([]);
      } else if |newShape| > 1 {
        return Fail(Crash);
      }
      shape := newShape;
      o := Pass;
    }

    /** `repeat(repeats)`: the value repeated, then the shape recomputed; the
        recomputation can fail after the value was replaced. */
    method Repeat(reps: seq<nat>) returns (o: Outcome)
      modifies this`value, this`shape
      ensures value == RepeatOf(old(value), reps)
      ensures ShapeOf(value).Ok? ==> o == Pass && shape == ShapeOf(value).value
      ensures ShapeOf(value).Err? ==> o == Fail(Crash) && shape == old(shape)
    {
      value := RepeatValue(value, reps);
      var s := CalculateShape(value, []);
      if s.Err? {
        return Fail(s.error);
      }
      shape := s.value;
      o := Pass;
    }

    /** `sumAll()`: the value becomes [total of value.flat(shape.length)] and
        the shape [1]. */
    method SumAll() returns (o: Outcome)
      modifies this`value, this`shape
      ensures SumAllOf(old(value), |old(shape)|).Err? ==>
                o == Fail(SumAllOf(old(value), |old(shape)|).error) && value == old(value) && shape == old(shape)
      ensures SumAllOf(old(value), |old(shape)|).Ok? ==>
                o == Pass && value == SumAllOf(old(value), |old(shape)|).value && shape == [1]
    {
      if value.Leaf? {
        return Fail(Crash);
      }
      var total := ReduceSum(FlatItems(value.items, |shape|));
      if total.Err? {
        return Fail(total.error);
      }
      value := Node([total.value]);
      shape := [1];
      o := Pass;
    }

    /** `static sumAll(t)`: `reduce` over the top-level entries (no
        flattening) into a new tensor with `require_grad` true and child t. */
    static method StaticSumAll(t: JsTensor) returns (r: Result<JsTensor>)
      ensures t.value.Leaf? ==> r == Err(Crash)
      ensures t.value.Node? && ReduceSum(t.value.items).Err? ==> r == Err(ReduceSum(t.value.items).error)
      ensures t.value.Node? && ReduceSum(t.value.items).Ok? ==>
                r.Ok? && fresh(r.value) && r.value.value == Node([ReduceSum(t.value.items).value]) &&
                r.value.shape == DefaultShape(Node([ReduceSum(t.value.items).value])) &&
                r.value.requireGrad && r.value.children == [Member(t)]
    {
      if t.value.Leaf? {
        return Err(Crash);
      }
      var total := ReduceSum(t.value.items);
      if total.Err? {
        return Err(total.error);
      }
      r := New(Some(Node([total.value])), true, [Member(t)]);
    }
  }

  /** The tensor a `sumAll()` leaves when its shape field describes its
      value: the one-entry array of the sum of all entries, unless there are
      none. */
  lemma SumAllTensor(value: NArr, s: seq<nat>)
    requires |s| >= 1 && HasShape(value, s)
    ensures SumAllOf(value, |s|) ==
            if Flatten(value) == [] then Err(Crash) else Ok(Node([Leaf(Sum(Flatten(value)))]))
  {
    SumAllShaped(value, s);
  }

  /** A rectangular value whose arrays all have two or more entries gets its
      structural shape from the constructor. */
  lemma DefaultShapeStructural(v: NArr)
    requires v.Node? && Kernels.Structural(v)
    ensures DefaultShape(v) == Shape(v)
  {
    ShapeOfStructural(v);
  }

  // ---------------------------------------------------------------------------
  // lib/Tensor.ts

  /** What the `shape` and `require_grad` fields can hold once the
      constructor's positional arguments are misaligned: a list of numbers, a
      boolean, or a list of tensors. */
  datatype Slot = Dims(dims: seq<nat>) | Flag(flag: bool) | Refs(refs: seq<TsTensor>)

  /** `a.toString() !== b.toString()` is false. Numbers print as digits
      joined by commas, booleans as "true" or "false", a list of tensors as
      their `toString` texts ("Tensor: ..."), an empty list as "". Whether
      two non-empty lists of tensors print alike depends on those tensors'
      own values and settings; `refsAlike` says whether they do. */
  predicate SameText(a: Slot, b: Slot, refsAlike: bool)
  {
    match (a, b)
    case (Dims(s), Dims(t)) => s == t
    case (Flag(x), Flag(y)) => x == y
    case (Refs(u), Refs(w)) => if u == [] || w == [] then u == [] && w == [] else refsAlike
    case (Dims(s), Refs(u)) => s == [] && u == []
    case (Refs(u), Dims(s)) => s == [] && u == []
    case (_, _) => false
  }

  /** The length `doOperation` reads from its shape: a boolean has none, and
      a list of tensors counts its entries. */
  function SlotLength(a: Slot): Option<nat>
  {
    match a
    case Dims(s) => Some(|s|)
    case Flag(_) => None
    case Refs(u) => Some(|u|)
  }

  /** `doOperation` on a tensor of shape `shape`, lenient about a missing
      `rem_arr`. Without a length above 1 it maps over the top-level entries;
      above one axis with a list of tensors, `i < rem_shape[0]` compares with
      a tensor and is false at once, so no row is made. */
  function TsDo(op: LegacyOp, sec: Second, shape: Slot, value: NArr): Result<NArr>
  {
    match shape
    case Dims(s) => DoOp(op, sec, s, Some(value), true)
    case Flag(_) => DoOp(op, sec, [1], Some(value), true)
    case Refs(u) => if |u| > 1 then Ok(Node([])) else DoOp(op, sec, [1], Some(value), true)
  }

  /** `operation` of lib/Tensor.ts: the text comparison of the shapes, then
      `doOperation`; None is the `return this` for any other operand. */
  function TsOutcome(op: LegacyOp, shape: Slot, value: NArr, arg: ArgValue<Slot>, refsAlike: bool): Result<Option<NArr>>
  {
    match arg
    case OtherValue => Ok(None)
    case TensorValue(s2, v2) =>
      if !SameText(shape, s2, refsAlike) then Err(ShapeMismatch)
      else
        var v :- TsDo(op, Paired(Some(v2)), shape, value);
        Ok(Some(v))
    case NumberValue(c) =>
      var v :- TsDo(op, Constant(c), shape, value);
      Ok(Some(v))
  }

  /** With list-of-number shapes and arrays of that shape, both versions of
      `operation` compute the same result. */
  lemma TsDimsAgree(op: LegacyOp, v: NArr, w: NArr, s: seq<nat>, refsAlike: bool)
    requires |s| >= 1 && HasShape(v, s) && HasShape(w, s)
    ensures TsOutcome(op, Dims(s), v, TensorValue(Dims(s), w), refsAlike) == JsOutcome(op, s, v, TensorValue(s, w))
  {
    DoOpPaired(op, v, w, s, true);
    DoOpPaired(op, v, w, s, false);
  }

  /** A list-of-number shape passes the text comparison exactly when the
      lists are equal. */
  lemma TsShapeGuard(op: LegacyOp, s: seq<nat>, value: NArr, s2: seq<nat>, v2: NArr, refsAlike: bool)
    ensures TsOutcome(op, Dims(s), value, TensorValue(Dims(s2), v2), refsAlike) == Err(ShapeMismatch) <==> s != s2
  {
    DoOpNoMismatch(op, Paired(Some(v2)), s, Some(value), true);
  }

  /** The misaligned constructor call at work: two results of operations
      both have the shape `true`, so the check lets arrays of lengths 2 and
      3 through and the sum takes the first two entries of the longer one,
      where utils/Tensor.js reports mismatched shapes. */
  lemma MisalignedGuard()
    ensures var v1, v2 := Node([Leaf(1.0), Leaf(2.0)]), Node([Leaf(1.0), Leaf(2.0), Leaf(3.0)]);
            Shape(v1) != Shape(v2) &&
            SameText(Flag(true), Flag(true), false) &&
            TsOutcome(AddOp, Flag(true), v1, TensorValue(Flag(true), v2), false) == Ok(Some(Node([Leaf(2.0), Leaf(4.0)]))) &&
            JsOutcome(AddOp, Shape(v1), v1, TensorValue(Shape(v2), v2)) == Err(ShapeMismatch)
  {
    var items := [Leaf(1.0), Leaf(2.0)];
    var v1, v2 := Node(items), Node([Leaf(1.0), Leaf(2.0), Leaf(3.0)]);
    assert Shape(v1) == [2] && Shape(v2) == [3];
    var sec := Paired(Some(v2));
    assert Partner(sec, 0) == Some(Leaf(1.0)) && Partner(sec, 1) == Some(Leaf(2.0));
    assert Pair(AddOp, items[0], Partner(sec, 0)) == Ok(2.0);
    assert Pair(AddOp, items[1], Partner(sec, 1)) == Ok(4.0);
    NextLeaf(AddOp, sec, items, 1, [], 2.0);
    assert [] + [Leaf(2.0)] == [Leaf(2.0)];
    NextLeaf(AddOp, sec, items, 2, [Leaf(2.0)], 4.0);
    assert [Leaf(2.0)] + [Leaf(4.0)] == [Leaf(2.0), Leaf(4.0)];
    assert DoOp(AddOp, sec, [1], Some(v1), true) == Ok(Node([Leaf(2.0), Leaf(4.0)]));
  }

  /** One more entry of `doOperation`'s one-axis loop. */
  lemma NextLeaf(op: LegacyOp, sec: Second, items: seq<NArr>, n: nat, prev: seq<NArr>, v: real)
    requires 0 < n <= |items| && DoLeaves(op, sec, items, n - 1) == Ok(prev)
    requires Pair(op, items[n - 1], Partner(sec, n - 1)) == Ok(v)
    ensures DoLeaves(op, sec, items, n) == Ok(prev + [Leaf(v)])
  {
  }

  /** A second-generation result has a list of two tensors as its shape:
      every operation on it with a number yields an empty array. */
  lemma SecondGenerationEmpties(op: LegacyOp, u: seq<TsTensor>, v: NArr, c: real, refsAlike: bool)
    requires |u| > 1
    ensures TsOutcome(op, Refs(u), v, NumberValue(c), refsAlike) == Ok(Some(Node([])))
    ensures forall s2, v2 :: SameText(Refs(u), s2, refsAlike) ==>
              TsOutcome(op, Refs(u), v, TensorValue(s2, v2), refsAlike) == Ok(Some(Node([])))
  {
  }

  class TsTensor {
    var value: NArr
    var shape: Slot
    var requireGrad: Slot
    var children: seq<TsTensor>

    constructor Init(value: NArr, shape: Slot, requireGrad: Slot)
      ensures this.value == value && this.shape == shape && this.requireGrad == requireGrad && children == []
    {
      this.value := value;
      this.shape := shape;
      this.requireGrad := requireGrad;
      children := [];
    }

    /** `new Tensor(value, shape?, require_grad)`: the default shape is
        computed first, so an undefined value without a shape fails on
        `value.length`; then a falsy value is rejected. `children` keeps its
        default []. */
    static method New(value: Option<NArr>, shape: Option<Slot>, requireGrad: Slot) returns (r: Result<TsTensor>)
      ensures shape.None? && value.None? ==> r == Err(Crash)
      ensures (shape.Some? || value.Some?) && !Truthy(value) ==> r == Err(ValueNotDefined)
      ensures Truthy(value) ==>
                r.Ok? && fresh(r.value) && r.value.value == value.value &&
                r.value.shape == (if shape.Some? then shape.value else Dims(DefaultShape(value.value))) &&
                r.value.requireGrad == requireGrad && r.value.children == []
    {
      var s: Slot;
      if shape.Some? {
        s := shape.value;
      } else if value.None? {
        return Err(Crash);
      } else {
        s := Dims(DefaultShape(value.value));
      }
      if !Truthy(value) {
        return Err(ValueNotDefined);
      }
      var t := new TsTensor.Init(value.value, s, requireGrad);
      r := Ok(t);
    }

    /** `registerChildren(children)`: `for…of` appends the tensors in order. */
    method RegisterChildren(cs: seq<TsTensor>)
      modifies this`children
      ensures children == old(children) + cs
    {
      ghost var before := children;
      for i := 0 to |cs|
        invariant children == before + cs[..i]
      {
        children := children + [cs[i]];
      }
    }

    static function ArgOf(arg: Operand<TsTensor>): ArgValue<Slot>
      reads if arg.TensorArg? then {arg.t} else {}
    {
      match arg
      case TensorArg(t) => TensorValue(t.shape, t.value)
      case NumberArg(c) => NumberValue(c)
      case OtherArg => OtherValue
    }

    /** The list `operation` hands to the constructor as its third argument. */
    function RefsOf(arg: Operand<TsTensor>): seq<TsTensor>
    {
      if arg.TensorArg? then [this, arg.t] else [this]
    }

    /** `operation(tensor2, tensorFun, returnSelf)` as written: the new tensor
        is built with `(value, this.require_grad, [this, tensor2], [bf1, bf2])`,
        so its shape is this tensor's `require_grad`, its `require_grad` the
        list of operands and its children stay empty. */
    method Operation(arg: Operand<TsTensor>, op: LegacyOp, returnSelf: bool, refsAlike: bool) returns (r: Result<TsTensor>)
      modifies this`value
      ensures var o := TsOutcome(op, old(shape), old(value), old(ArgOf(arg)), refsAlike);
              (o.Err? ==> r == Err(o.error) && value == old(value)) &&
              (o == Ok(None) ==> r == Ok(this) && value == old(value)) &&
              (o.Ok? && o.value.Some? && returnSelf ==> r == Ok(this) && value == o.value.value) &&
              (o.Ok? && o.value.Some? && !returnSelf ==>
                 value == old(value) && r.Ok? && fresh(r.value) && r.value.value == o.value.value &&
                 r.value.shape == requireGrad && r.value.requireGrad == Refs(RefsOf(arg)) && r.value.children == [])
    {
      var sec: Second;
      match arg {
        case OtherArg =>
          return Ok(this);
        case TensorArg(t) =>
          if !SameText(shape, t.shape, refsAlike) {
            return Err(ShapeMismatch);
          }
          sec := Paired(Some(t.value));
        case NumberArg(c) =>
          sec := Constant(c);
      }
      var v: Result<NArr>;
      match shape {
        case Dims(s) =>
          v := DoOperation(op, sec, s, Some(value), true);
        case Flag(_) =>
          v := DoOperation(op, sec, [1], Some(value), true);
        case Refs(u) =>
          if |u| > 1 {
            v := Ok(Node([]));
          } else {
            v := DoOperation(op, sec, [1], Some(value), true);
          }
      }
      if v.Err? {
        return Err(v.error);
      }
      if returnSelf {
        value := v.value;
        return Ok(this);
      }
      r := New(Some(v.value), Some(requireGrad), Refs(RefsOf(arg)));
    }

    /** `reshape(newShape)`. */
    method Reshape(newShape: seq<nat>) returns (o: Outcome)
      modifies this`value, this`shape
      ensures ReshapeTensor(old(value), newShape).Err? ==>
                o == Fail(ReshapeTensor(old(value), newShape).error) && value == old(value) && shape == old(shape)
      ensures ReshapeTensor(old(value), newShape).Ok? ==>
                o == Pass && value == ReshapeTensor(old(value), newShape).value && shape == Dims(newShape)
    {
      if value.Node? {
        value := ReshapeValue(value.items, newShape);
      } else if |newShape| == 0 || (|newShape| > 1 && newShape[0] == 0) {
        value := Node([]);
      } else if |newShape| > 1 {
        return Fail(Crash);
      }
      shape := Dims(newShape);
      o := Pass;
    }

    /** `repeat(repeats)`. */
    method Repeat(reps: seq<nat>) returns (o: Outcome)
      modifies this`value, this`shape
      ensures value == RepeatOf(old(value), reps)
      ensures ShapeOf(value).Ok? ==> o == Pass && shape == Dims(ShapeOf(value).value)
      ensures ShapeOf(value).Err? ==> o == Fail(Crash) && shape == old(shape)
    {
      value := RepeatValue(value, reps);
      var s := CalculateShape(value, []);
      if s.Err? {
        return Fail(s.error);
      }
      shape := Dims(s.value);
      o := Pass;
    }

    /** `sumAll()`: `flat(this.shape.length)`, where an undefined length
        (a boolean shape) means one level. */
    method SumAll() returns (o: Outcome)
      modifies this`value, this`shape
      ensures var r := SumAllOf(old(value), SlotLength(old(shape)).GetOr(1));
              (r.Err? ==> o == Fail(r.error) && value == old(value) && shape == old(shape)) &&
              (r.Ok? ==> o == Pass && value == r.value && shape == Dims([1]))
    {
      if value.Leaf? {
        return Fail(Crash);
      }
      var depth := SlotLength(shape).GetOr(1);
      var total := ReduceSum(FlatItems(value.items, depth));
      if total.Err? {
        return Fail(total.error);
      }
      value := Node([total.value]);
      shape := Dims([1]);
      o := Pass;
    }

    /** `static sumAll(t)`: the constructor receives `true` as the shape and
        [t] as `require_grad`. */
    static method StaticSumAll(t: TsTensor) returns (r: Result<TsTensor>)
      ensures t.value.Leaf? ==> r == Err(Crash)
      ensures t.value.Node? && ReduceSum(t.value.items).Err? ==> r == Err(ReduceSum(t.value.items).error)
      ensures t.value.Node? && ReduceSum(t.value.items).Ok? ==>
                r.Ok? && fresh(r.value) && r.value.value == Node([ReduceSum(t.value.items).value]) &&
                r.value.shape == Flag(true) && r.value.requireGrad == Refs([t]) && r.value.children == []
    {
      if t.value.Leaf? {
        return Err(Crash);
      }
      var total := ReduceSum(t.value.items);
      if total.Err? {
        return Err(total.error);
      }
      r := New(Some(Node([total.value])), Some(Flag(true)), Refs([t]));
    }
  }

  /** A boolean shape flattens one level in `sumAll`: an operation result
      holding a matrix is summed like an array of shape [n, m]. */
  lemma FlagShapeSumAll(value: NArr, n: nat, m: nat)
    requires HasShape(value, [n, m])
    ensures SlotLength(Flag(true)).GetOr(1) == 1
    ensures SumAllOf(value, 1) == SumAllOf(value, |[n, m]|)
  {
    FlatItemsLeaves(value.items, [m], 1);
    FlatItemsLeaves(value.items, [m], 2);
  }
}
