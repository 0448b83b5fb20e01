/** The tensor, its gradient handler and the operation protocol: a value cell
    with a shape-checked setter, a per-tensor gradient state and the recorded
    graph (children and producing operation). The recursion of `backward` over
    that graph is in module `Backprop`. */
module Autograd {

  import opened Results
  import opened NArrays
  import Kernels
  import TensorUtils
  import opened Operations

  class Tensor {
    /** `_value`; the getter's `structuredClone` is the value itself here,
        since arrays are immutable values. */
    var value: NArr
    /** `gradientHandler`, replaced by the optimiser's `zero_grad`. */
    var handler: GradientHandler

    /** `new Tensor(value)`: no shape check, and a fresh handler bound to the new tensor. */
    constructor (v: NArr)
      ensures value == v
      ensures fresh(handler) && handler.tensor == this && handler.Untouched()
    {
      value := v;
      handler := new GradientHandler(null);
      new;
      handler.tensor := this;
    }

    /** The `shape` getter: recomputed from the stored value on every read. */
    method GetShape() returns (s: seq<nat>)
      ensures s == NArrays.Shape(value)
    {
      if value.Leaf? {
        s := [];
      } else {
        s := TensorUtils.CalculateShape(value, []);
      }
    }

    /** The `value` setter: rejects a value whose shape differs from the current
        one and then leaves the value as it was. */
    method SetValue(v: NArr) returns (o: Outcome)
      modifies this`value
      ensures NArrays.Shape(v) == NArrays.Shape(old(value)) ==> o == Pass && value == v
      ensures NArrays.Shape(v) != NArrays.Shape(old(value)) ==> o == Fail(ShapeMismatch) && value == old(value)
    {
      var s1: seq<nat>;
      if v.Leaf? {
        s1 := [];
      } else {
        s1 := TensorUtils.CalculateShape(v, []);
      }
      var s2 := GetShape();
      if s1 != s2 {
        return Fail(ShapeMismatch);
      }
      value := v;
      return Pass;
    }

    /** `clone()`: an equal value in a new tensor with its own fresh handler. */
    method Clone() returns (t: Tensor)
      ensures fresh(t) && fresh(t.handler) && t.value == value
      ensures t.handler.tensor == t && t.handler.Untouched()
    {
      t := new Tensor(value);
    }
  }

  class GradientHandler {
    /** `_tensor`: the tensor this handler belongs to. */
    var tensor: Tensor?
    /** `Operation`: the producer, absent for a leaf. */
    var op: Operation?
    /** `_children`: the producer's inputs, in order. */
    var children: seq<Tensor>
    /** `_gradient`, by value: absent until `backward` or the setter assigns it. */
    var gradient: Option<NArr>

    constructor (t: Tensor?)
      ensures tensor == t && Untouched()
    {
      tensor := t;
      op := null;
      children := [];
      gradient := None;
    }

    /** A handler no operation has used yet. */
    predicate Untouched()
      reads this
    {
      op == null && children == [] && gradient == None
    }

    /** The `gradient` getter: an error until a gradient is set. */
    method GetGradient() returns (r: Result<NArr>)
      ensures gradient.None? <==> r == Err(NotConnected)
      ensures gradient.Some? ==> r == Ok(gradient.value)
    {
      if gradient.None? {
        return Err(NotConnected);
      }
      return Ok(gradient.value);
    }

    /** The `gradient` setter. */
    method SetGradient(g: Tensor)
      modifies this`gradient
      ensures gradient == Some(g.value)
    {
      gradient := Some(g.value);
    }

    /** `registerChildren`: appends in order after the existing children. */
    method RegisterChildren(cs: seq<Tensor>)
      modifies this`children
      ensures children == old(children) + cs
    {
      children := children + cs;
    }

    /** `registerOperation`: replaces the producer. */
    method RegisterOperation(o: Operation)
      modifies this`op
      ensures op == o
    {
      op := o;
    }

    /** `applyGradient`: value := value − gradient through the checked setter. */
    method ApplyGradient() returns (o: Outcome)
      requires tensor != null
      modifies tensor`value
      ensures gradient.None? ==> o == Fail(NotConnected) && tensor.value == old(tensor.value)
      ensures gradient.Some? ==> var d := Kernels.Diff(old(tensor.value), gradient.value);
                (d.Err? ==> o == Fail(d.error) && tensor.value == old(tensor.value)) &&
                (d.Ok? ==> o == Pass && tensor.value == d.value)
    {
      var g := GetGradient();
      if g.Err? {
        return Fail(g.error);
      }
      var d := Kernels.Diff(tensor.value, g.value);
      if d.Err? {
        return Fail(d.error);
      }
      o := tensor.SetValue(d.value);
    }
  }

  // ---------------------------------------------------------------------------
  // Operations

  class Operation {
    const kind: OpKind
    var tensorCount: Option<nat>
    var shape: Option<seq<nat>>
    var elementCount: Option<nat>
    var t1: Option<NArr>
    var t2: Option<NArr>
    var limit: Option<real>
    var cached: Option<NArr>

    constructor (k: OpKind)
      ensures kind == k && State() == Initial
    {
      kind := k;
      tensorCount, shape, elementCount := None, None, None;
      t1, t2, limit, cached := None, None, None, None;
    }

    function State(): OpState
      reads this`tensorCount, this`shape, this`elementCount, this`t1, this`t2, this`limit, this`cached
    {
      OpState(tensorCount, shape, elementCount, t1, t2, limit, cached)
    }

    /** `setup(tensors)`: the operation's checks, storing what it caches. */
    method Setup(tensors: seq<Tensor>) returns (o: Outcome)
      modifies this
      ensures (State(), o) == SetupStep(kind, old(State()), Shapes(Values(tensors)))
    {
      var shapes := ShapesOf(tensors);
      match kind {
        case AddOp =>
          tensorCount := Some(|tensors|);
          o := Pass;
        case MeanOp =>
          if |tensors| == 0 {
            return Fail(Crash);
          }
          shape := Some(shapes[0]);
          elementCount := Kernels.MeanElementCount(shapes[0]);
          o := Pass;
        case MatmulOp =>
          if |tensors| != 2 {
            return Fail(Arity);
          }
          if !Kernels.MatmulShapesAgree(shapes[0], shapes[1]) {
            return Fail(ShapeMismatch);
          }
          o := Pass;
        case MaxOp =>
          if |tensors| != 2 {
            return Fail(Arity);
          }
          if shapes[1] != [1] {
            return Fail(ShapeMismatch);
          }
          o := Pass;
        case TransposeOp =>
          o := Pass;
      }
    }

    /** `forward(values)`: the output value, caching operands where the operation does. */
    method Forward(values: seq<NArr>) returns (r: Result<NArr>)
      modifies this
      ensures (State(), r) == ForwardStep(kind, old(State()), values)
    {
      match kind {
        case AddOp =>
          r := Kernels.SumArrays(values);
        case MeanOp =>
          if |values| == 0 {
            return Err(Crash);
          }
          r := Kernels.MeanForward(values[0], elementCount);
        case MatmulOp =>
          if |values| < 2 {
            return Err(Crash);
          }
          t1 := Some(values[0]);
          t2 := Some(values[1]);
          r := Kernels.TensorMul(values[0], values[1]);
        case MaxOp =>
          if |values| < 2 {
            return Err(Crash);
          }
          var l := values[1];
          limit := if l.Node? && |l.items| > 0 && l.items[0].Leaf? then Some(l.items[0].x) else None;
          cached := Some(values[0]);
          r := Kernels.MaxForward(values[0], l);
        case TransposeOp =>
          if |values| == 0 {
            return Err(Crash);
          }
          r := TransposeValue(values[0]);
      }
    }

    /** `backward(gradient)`: one array per input from the cached fields. */
    method Backward(g: NArr) returns (r: Result<seq<NArr>>)
      ensures r == BackwardOf(kind, State(), g)
    {
      match kind {
        case AddOp =>
          var n := if tensorCount.Some? then tensorCount.value else 1;
          r := Ok(seq(n, _ => g));
        case MeanOp =>
          r := Kernels.MeanBackward(shape, g);
        case MatmulOp =>
          if t1.None? || t2.None? {
            return Err(Crash);
          }
          var t2T :- TransposeValue(t2.value);
          var g1 :- Kernels.TensorMul(g, t2T);
          var g2 :- Kernels.TensorMul(t1.value, g);
          r := Ok([g1, g2]);
        case MaxOp =>
          r := Kernels.MaxBackward(cached, limit, g);
        case TransposeOp =>
          var t :- TransposeValue(g);
          r := Ok([t]);
      }
    }

    /** `getGradient(gradient)`: backward on the gradient's value, each array
        wrapped in a new tensor. */
    method GetGradient(g: Tensor) returns (r: Result<seq<Tensor>>)
      ensures r.Ok? <==> BackwardOf(kind, State(), g.value).Ok?
      ensures r.Err? ==> r.error == BackwardOf(kind, State(), g.value).error
      ensures r.Ok? ==> Values(r.value) == BackwardOf(kind, State(), g.value).value
      ensures r.Ok? ==> forall i :: 0 <= i < |r.value| ==> fresh(r.value[i])
    {
      var grads := Backward(g.value);
      if grads.Err? {
        return Err(grads.error);
      }
      var ts := Wrap(grads.value);
      return Ok(ts);
    }

    /** `_call(tensors)`: setup, then forward on the input values, then a new
        tensor whose children are the inputs and whose producer is this operation. */
    method Call(tensors: seq<Tensor>) returns (r: Result<Tensor>)
      modifies this
      ensures State() == CallStep(kind, old(State()), old(Values(tensors))).0
      ensures ValueOf(r) == CallStep(kind, old(State()), old(Values(tensors))).1
      ensures ValueOf(r) == Apply(kind, old(Values(tensors)))
      ensures r.Ok? ==> fresh(r.value) && fresh(r.value.handler) && r.value.handler.tensor == r.value
      ensures r.Ok? ==> r.value.handler.children == tensors && r.value.handler.op == this
      ensures r.Ok? ==> r.value.handler.gradient == None
    {
      ghost var st0 := State();
      var values := ValuesOf(tensors);
      ghost var cs := CallStep(kind, st0, values);
      CallOutputFresh(kind, st0, values);
      var o := Setup(tensors);
      if o.Fail? {
        assert (State(), Err(o.error)) == cs;
        return Err(o.error);
      }
      var f := Forward(values);
      assert (State(), f) == cs;
      if f.Err? {
        return Err(f.error);
      }
      ghost var st2 := State();
      var out := new Tensor(f.value);
      out.handler.RegisterChildren(tensors);
      out.handler.RegisterOperation(this);
      assert State() == st2;
      r := Ok(out);
    }

    /** `verify(tensors)`: call, backward seeded with the output, then the
        count check and the first gradient whose shape differs from its input. */
    method Verify(tensors: seq<Tensor>) returns (o: Outcome)
      modifies this
      ensures o == VerifyOutcome(kind, old(State()), old(Values(tensors)))
    {
      var called := Call(tensors);
      if called.Err? {
        return Fail(called.error);
      }
      o := CheckGradients(tensors, called.value);
    }

    /** The rest of `verify`: backward seeded with the output, the count
        check, then the first gradient whose shape differs from its input. */
    method CheckGradients(tensors: seq<Tensor>, out: Tensor) returns (o: Outcome)
      ensures o == GradientOutcome(kind, State(), Values(tensors), out.value)
    {
      ghost var values := Values(tensors);
      ghost var bo := BackwardOf(kind, State(), out.value);
      var got := GetGradient(out);
      if got.Err? {
        return Fail(got.error);
      }
      var grads := got.value;
      if |grads| != |tensors| {
        return Fail(GradientCount);
      }
      assert Values(tensors) == values && Values(grads) == bo.value;
      o := CompareShapes(tensors, grads);
    }
  }

  /** The loop of `verify`: the first input whose gradient has another shape. */
  method CompareShapes(tensors: seq<Tensor>, grads: seq<Tensor>) returns (o: Outcome)
    requires |tensors| == |grads|
    ensures var m := FirstMismatch(Shapes(Values(tensors)), Shapes(Values(grads)), 0);
            o == if m.Some? then Fail(GradientShape(m.value)) else Pass
  {
    ghost var ss, gs := Shapes(Values(tensors)), Shapes(Values(grads));
    for i := 0 to |tensors|
      invariant forall j :: 0 <= j < i ==> ss[j] == gs[j]
    {
      var s1 := Shape(tensors[i].value);
      var s2 := Shape(grads[i].value);
      if s1 != s2 {
        MismatchAt(ss, gs, i);
        return Fail(GradientShape(i));
      }
    }
    assert FirstMismatch(ss, gs, 0) == None;
    o := Pass;
  }

  /** A mismatch after an equal prefix is the first one. */
  lemma MismatchAt(ss: seq<seq<nat>>, gs: seq<seq<nat>>, i: nat)
    requires |ss| == |gs| && i < |ss| && ss[i] != gs[i]
    requires forall j :: 0 <= j < i ==> ss[j] == gs[j]
    ensures FirstMismatch(ss, gs, 0) == Some(i)
  {
    assert FirstMismatch(ss, gs, 0).Some?;
  }

  /** Each array in a new tensor of its own, in order. */
  method Wrap(arrays: seq<NArr>) returns (ts: seq<Tensor>)
    ensures Values(ts) == arrays
    ensures forall i :: 0 <= i < |ts| ==> fresh(ts[i])
  {
    ts := [];
    for i := 0 to |arrays|
      invariant Values(ts) == arrays[..i]
      invariant forall j :: 0 <= j < |ts| ==> fresh(ts[j])
    {
      var t := new Tensor(arrays[i]);
      ts := ts + [t];
    }
    assert arrays[..|arrays|] == arrays;
  }

  /** The hidden `Transpose` operation, assumed to be `TensorUtils.transpose`. */
  method TransposeValue(a: NArr) returns (r: Result<NArr>)
    ensures r == Kernels.TransposeResult(a)
  {
    if a.Leaf? || |a.items| == 0 {
      return Err(Crash);
    }
    if !IsMatrix(a) {
      return Err(NonNumeric);
    }
    r := TensorUtils.Transpose(a);
  }

  /** A tensor result as the value it carries. */
  function ValueOf(r: Result<Tensor>): Result<NArr>
    reads if r.Ok? then {r.value} else {}
  {
    match r
    case Ok(t) => Ok(t.value)
    case Err(e) => Err(e)
  }

  function Values(ts: seq<Tensor>): (r: seq<NArr>)
    reads ts`value
    ensures |r| == |ts| && forall i :: 0 <= i < |ts| ==> r[i] == ts[i].value
  {
    if ts == [] then [] else Values(ts[..|ts| - 1]) + [ts[|ts| - 1].value]
  }

  /** `tensors.map(t => t.value)`. */
  method ValuesOf(ts: seq<Tensor>) returns (r: seq<NArr>)
    ensures r == Values(ts)
  {
    r := [];
    for i := 0 to |ts|
      invariant r == Values(ts[..i])
    {
      r := r + [ts[i].value];
    }
    assert ts[..|ts|] == ts;
  }

  /** The inputs' shapes, each read through the shape getter. */
  method ShapesOf(ts: seq<Tensor>) returns (r: seq<seq<nat>>)
    ensures r == Shapes(Values(ts))
  {
    r := [];
    for i := 0 to |ts|
      invariant r == Shapes(Values(ts[..i]))
    {
      var s := ts[i].GetShape();
      r := r + [s];
    }
    assert ts[..|ts|] == ts;
  }
}
