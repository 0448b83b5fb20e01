/** The operation library as state transitions: what `setup`, `forward` and
    `backward` of Add, Mean, Matmul, Max (and the assumed Transpose) compute
    and cache, and what `verify` concludes from them. The `Autograd.Operation`
    class is proved to follow these definitions. */
module Operations {

  import opened Results
  import opened NArrays
  import Kernels

  datatype OpKind = AddOp | MeanOp | MatmulOp | MaxOp | TransposeOp

  /** The fields an operation caches between calls; `None` is a field never assigned. */
  datatype OpState = OpState(
    tensorCount: Option<nat>,         // Add
    shape: Option<seq<nat>>,          // Mean
    elementCount: Option<nat>,        // Mean
    t1: Option<NArr>,                 // Matmul
    t2: Option<NArr>,                 // Matmul
    limit: Option<real>,              // Max
    cached: Option<NArr>)             // Max

  const Initial := OpState(None, None, None, None, None, None, None)

  /** `setup(tensors)`, given the input shapes: the checks it makes and the
      fields it stores. */
  function SetupStep(kind: OpKind, st: OpState, shapes: seq<seq<nat>>): (r: (OpState, Outcome))
    ensures kind == MatmulOp || kind == MaxOp ==> r.0 == st
    ensures (kind == MatmulOp || kind == MaxOp) && |shapes| != 2 ==> r.1 == Fail(Arity)
  {
    match kind
    case AddOp => (st.(tensorCount := Some(|shapes|)), Pass)
    case MeanOp =>
      if |shapes| == 0 then (st, Fail(Crash))
      else (st.(shape := Some(shapes[0]), elementCount := Kernels.MeanElementCount(shapes[0])), Pass)
    case MatmulOp =>
      if |shapes| != 2 then (st, Fail(Arity))
      else if !Kernels.MatmulShapesAgree(shapes[0], shapes[1]) then (st, Fail(ShapeMismatch))
      else (st, Pass)
    case MaxOp =>
      if |shapes| != 2 then (st, Fail(Arity))
      else if shapes[1] != [1] then (st, Fail(ShapeMismatch))
      else (st, Pass)
    case TransposeOp => (st, Pass)
  }

  /** `forward(values)`: the output value and the operands it caches. */
  function ForwardStep(kind: OpKind, st: OpState, values: seq<NArr>): (r: (OpState, Result<NArr>))
  {
    match kind
    case AddOp => (st, Kernels.SumArrays(values))
    case MeanOp =>
      if |values| == 0 then (st, Err(Crash))
      else (st, Kernels.MeanForward(values[0], st.elementCount))
    case MatmulOp =>
      if |values| < 2 then (st, Err(Crash))
      else (st.(t1 := Some(values[0]), t2 := Some(values[1])), Kernels.TensorMulResult(values[0], values[1]))
    case MaxOp =>
      if |values| < 2 then (st, Err(Crash))
      else
        var l := values[1];
        var lim := if l.Node? && |l.items| > 0 && l.items[0].Leaf? then Some(l.items[0].x) else None;
        (st.(limit := lim, cached := Some(values[0])), Kernels.MaxForward(values[0], l))
    case TransposeOp =>
      if |values| == 0 then (st, Err(Crash)) else (st, Kernels.TransposeResult(values[0]))
  }

  /** `backward(gradient)`: one array per input, computed from the cached fields.
      `Array(undefined)` has one slot, so Add before any setup returns one copy. */
  function BackwardOf(kind: OpKind, st: OpState, g: NArr): (r: Result<seq<NArr>>)
    ensures kind == AddOp ==> r.Ok? && |r.value| == st.tensorCount.GetOr(1) &&
                              forall i :: 0 <= i < |r.value| ==> r.value[i] == g
    ensures kind == MatmulOp || kind == MaxOp ==> r.Ok? ==> |r.value| == 2
    ensures kind == MeanOp || kind == TransposeOp ==> r.Ok? ==> |r.value| == 1
  {
    match kind
    case AddOp => Ok(Kernels.AddBackward(st.tensorCount.GetOr(1), g))
    case MeanOp => Kernels.MeanBackward(st.shape, g)
    case MatmulOp => Kernels.MatmulBackward(st.t1, st.t2, g)
    case MaxOp => Kernels.MaxBackward(st.cached, st.limit, g)
    case TransposeOp =>
      match Kernels.TransposeResult(g)
      case Ok(t) => Ok([t])
      case Err(e) => Err(e)
  }

  function Shapes(values: seq<NArr>): (r: seq<seq<nat>>)
    ensures |r| == |values| && forall i :: 0 <= i < |values| ==> r[i] == Shape(values[i])
  {
    seq(|values|, i requires 0 <= i < |values| => Shape(values[i]))
  }

  /** The first index i at or after `from` whose gradient shape differs from its input's. */
  function FirstMismatch(inputs: seq<seq<nat>>, grads: seq<seq<nat>>, from: nat): (r: Option<nat>)
    requires |inputs| == |grads| && from <= |inputs|
    ensures r.None? <==> forall i :: from <= i < |inputs| ==> inputs[i] == grads[i]
    ensures r.Some? ==> from <= r.value < |inputs| && inputs[r.value] != grads[r.value] &&
                        forall i :: from <= i < r.value ==> inputs[i] == grads[i]
    decreases |inputs| - from
  {
    if from == |inputs| then None
    else if inputs[from] != grads[from] then Some(from)
    else FirstMismatch(inputs, grads, from + 1)
  }

  /** What `_call(tensors)` leaves in the operation and returns: the setup on
      the inputs' shapes and, when it passes, the forward on their values. */
  function CallStep(kind: OpKind, st: OpState, values: seq<NArr>): (OpState, Result<NArr>)
  {
    var (st1, o1) := SetupStep(kind, st, Shapes(values));
    if o1.Fail? then (st1, Err(o1.error)) else ForwardStep(kind, st1, values)
  }

  /** The output value of `_call(values)` on a fresh operation. */
  function Apply(kind: OpKind, values: seq<NArr>): Result<NArr>
  {
    CallStep(kind, Initial, values).1
  }

  /** The output of `_call` does not depend on what the operation cached
      before: `setup` checks only the new inputs and `forward` reads only
      what this `setup` stored. */
  lemma CallOutputFresh(kind: OpKind, st: OpState, values: seq<NArr>)
    ensures CallStep(kind, st, values).1 == Apply(kind, values)
  {
  }

  /** `_call` of each kind on the arity `Linear` and `Sequential` use. */
  lemma ApplyTranspose(a: NArr)
    ensures Apply(TransposeOp, [a]) == Kernels.TransposeResult(a)
  {
  }

  lemma ApplyMatmul(a: NArr, b: NArr)
    ensures Apply(MatmulOp, [a, b]) ==
            if !Kernels.MatmulShapesAgree(Shape(a), Shape(b)) then Err(ShapeMismatch)
            else Kernels.TensorMulResult(a, b)
  {
    assert Shapes([a, b]) == [Shape(a), Shape(b)];
  }

  lemma ApplyAdd(a: NArr, b: NArr)
    ensures Apply(AddOp, [a, b]) == Kernels.SumArrays([a, b])
  {
  }

  lemma ApplyMax(x: NArr, l: NArr)
    ensures Apply(MaxOp, [x, l]) ==
            if Shape(l) != [1] then Err(ShapeMismatch) else Kernels.MaxForward(x, l)
  {
    assert Shapes([x, l]) == [Shape(x), Shape(l)];
  }

  /** What `verify(tensors)` reports: the `_call`, then `backward` seeded with
      the call's own output, then the count check and the first shape mismatch. */
  function VerifyOutcome(kind: OpKind, st: OpState, values: seq<NArr>): Outcome
  {
    var (st2, out) := CallStep(kind, st, values);
    if out.Err? then Fail(out.error) else GradientOutcome(kind, st2, values, out.value)
  }

  /** The rest of `verify` once `_call` returned `out`. */
  function GradientOutcome(kind: OpKind, st: OpState, values: seq<NArr>, out: NArr): Outcome
  {
    match BackwardOf(kind, st, out)
    case Err(e) => Fail(e)
    case Ok(grads) =>
      if |grads| != |values| then Fail(GradientCount)
      else
        match FirstMismatch(Shapes(values), Shapes(grads), 0)
        case Some(i) => Fail(GradientShape(i))
        case None => Pass
  }

  // ---------------------------------------------------------------------------
  // Which operations pass `verify`

  /** Add's forward pass on inputs of one shape has that shape. */
  lemma AddShape(values: seq<NArr>, s: seq<nat>)
    requires |values| > 0 && Positive(s) && forall j :: 0 <= j < |values| ==> HasShape(values[j], s)
    requires |s| >= 1 || |values| == 1
    ensures Kernels.SumArrays(values).Ok? && Shape(Kernels.SumArrays(values).value) == s
  {
    Kernels.SumArraysOfShape(values, s);
    ShapeOfHasShape(Kernels.SumArrays(values).value, s);
  }

  /** Add verifies on any non-empty list of inputs of one shape, unless they
      are two or more numbers (see AddNumbersFail). */
  lemma AddVerifies(st: OpState, values: seq<NArr>, s: seq<nat>)
    requires |values| > 0 && Positive(s) && forall j :: 0 <= j < |values| ==> HasShape(values[j], s)
    requires |s| >= 1 || |values| == 1
    ensures VerifyOutcome(AddOp, st, values) == Pass
  {
    AddShape(values, s);
    forall j | 0 <= j < |values| ensures Shape(values[j]) == s {
      ShapeOfHasShape(values[j], s);
    }
    AddVerifiesOfShapes(st, values, s);
  }

  lemma AddVerifiesOfShapes(st: OpState, values: seq<NArr>, s: seq<nat>)
    requires Kernels.SumArrays(values).Ok? && Shape(Kernels.SumArrays(values).value) == s
    requires forall j :: 0 <= j < |values| ==> Shape(values[j]) == s
    ensures VerifyOutcome(AddOp, st, values) == Pass
  {
    var out := Kernels.SumArrays(values).value;
    var st1 := st.(tensorCount := Some(|values|));
    assert SetupStep(AddOp, st, Shapes(values)) == (st1, Pass);
    var grads := BackwardOf(AddOp, st1, out).value;
    VerifyFromParts(AddOp, st, values, st1, st1, out, grads);
  }

  /** Add on two or more number-valued tensors fails `verify`: its forward
      pass calls `.map` on a number. */
  lemma AddNumbersFail(st: OpState, values: seq<NArr>)
    requires |values| >= 2 && values[0].Leaf?
    ensures VerifyOutcome(AddOp, st, values) == Fail(Crash)
  {
    Kernels.SumArraysCrash(values);
  }

  /** Mean verifies on one input of rank 1 or 2 with positive dimensions. */
  lemma MeanVerifies(st: OpState, v: NArr)
    requires Rect(v) && v.Node? && 1 <= |Shape(v)| <= 2 && Positive(Shape(v))
    ensures VerifyOutcome(MeanOp, st, [v]) == Pass
  {
    Kernels.MeanOfRankTwo(v);
    var s := Shape(v);
    var st1 := st.(shape := Some(s), elementCount := Some(Product(s)));
    assert SetupStep(MeanOp, st, Shapes([v])) == (st1, Pass);
    var out := Kernels.MeanForward(v, Some(Product(s))).value;
    var g := BackwardOf(MeanOp, st1, out).value[0];
    ShapeOfHasShape(g, s);
  }

  /** Mean on a number-valued tensor: the setup passes and leaves
      `elementCount` undefined, and the forward pass throws in `flat`. */
  lemma MeanOfNumber(st: OpState, x: real)
    ensures CallStep(MeanOp, st, [Leaf(x)]) ==
              (st.(shape := Some([]), elementCount := None), Err(Crash))
    ensures VerifyOutcome(MeanOp, st, [Leaf(x)]) == Fail(Crash)
  {
    assert Shapes([Leaf(x)]) == [[]];
  }

  /** Max verifies on a structural input and a one-element limit. */
  lemma MaxVerifies(st: OpState, x: NArr, l: real)
    requires Rect(x) && x.Node? && Kernels.Structural(x) && Positive(Shape(x))
    ensures VerifyOutcome(MaxOp, st, [x, Node([Leaf(l)])]) == Pass
  {
    var values := [x, Node([Leaf(l)])];
    assert Shapes(values)[1] == [1];
    var st2 := st.(limit := Some(l), cached := Some(x));
    var out := Kernels.MaxOf(x, l);
    assert ForwardStep(MaxOp, st, values) == (st2, Ok(out));
    var grads := MaxGradients(x, l);
    VerifyFromParts(MaxOp, st, values, st, st2, out, grads);
    assert Shapes(values) == Shapes(grads);
  }

  /** Max's backward pass after its forward on a structural input: the mask
      of the input's shape, and zero for the limit. */
  lemma MaxGradients(x: NArr, l: real) returns (grads: seq<NArr>)
    requires Kernels.Structural(x)
    ensures Kernels.MaxBackward(Some(x), Some(l), Kernels.MaxOf(x, l)) == Ok(grads)
    ensures |grads| == 2 && Shape(grads[0]) == Shape(x) && grads[1] == Node([Leaf(0.0)])
  {
    var out := Kernels.MaxOf(x, l);
    Kernels.MaxForwardFlatten(x, l);
    CongruentSymmetric(x, out);
    Kernels.CalcGradStructural(x, out, l);
    var g := Kernels.CalcGrad(x, out, l);
    ZipWithFlatten(x, out, Kernels.Mask(l));
    CongruentShape(x, g);
    grads := [g, Node([Leaf(0.0)])];
  }

  /** `verify` after a successful call and backward pass is decided by the
      gradient count and shapes alone. */
  lemma VerifyFromParts(kind: OpKind, st: OpState, values: seq<NArr>, st1: OpState, st2: OpState,
                        out: NArr, grads: seq<NArr>)
    requires SetupStep(kind, st, Shapes(values)) == (st1, Pass)
    requires ForwardStep(kind, st1, values) == (st2, Ok(out))
    requires BackwardOf(kind, st2, out) == Ok(grads) && |grads| == |values|
    ensures VerifyOutcome(kind, st, values) ==
            (match FirstMismatch(Shapes(values), Shapes(grads), 0)
             case Some(i) => Fail(GradientShape(i))
             case None => Pass)
  {
  }

  lemma VerifyBackwardFails(kind: OpKind, st: OpState, values: seq<NArr>, st1: OpState, st2: OpState,
                            out: NArr, e: Error)
    requires SetupStep(kind, st, Shapes(values)) == (st1, Pass)
    requires ForwardStep(kind, st1, values) == (st2, Ok(out))
    requires BackwardOf(kind, st2, out) == Err(e)
    ensures VerifyOutcome(kind, st, values) == Fail(e)
  {
  }

  /** Matmul verifies when the first operand is square: t1 of shape [n, n] and
      t2 of shape [n, p]. */
  lemma MatmulVerifiesSquare(st: OpState, t1: NArr, t2: NArr, n: nat, p: nat)
    requires n > 0 && p > 0 && HasShape(t1, [n, n]) && HasShape(t2, [n, p])
    ensures VerifyOutcome(MatmulOp, st, [t1, t2]) == Pass
  {
    var out := MatmulForwardOf(st, t1, t2, n, n, p);
    var grads := MatmulSquareGrads(t1, t2, out, n, p);
    VerifyFromParts(MatmulOp, st, [t1, t2], st, st.(t1 := Some(t1), t2 := Some(t2)), out, grads);
  }

  /** With a square first operand both Matmul gradients have their operand's shape. */
  lemma MatmulSquareGrads(t1: NArr, t2: NArr, out: NArr, n: nat, p: nat) returns (grads: seq<NArr>)
    requires n > 0 && p > 0 && HasShape(t1, [n, n]) && HasShape(t2, [n, p])
    requires HasShape(out, [n, p])
    ensures Kernels.MatmulBackward(Some(t1), Some(t2), out) == Ok(grads)
    ensures |grads| == 2 && Shapes([t1, t2]) == Shapes(grads)
  {
    Kernels.MatmulBackwardSquare(t1, t2, out, n, p);
    grads := Kernels.MatmulBackward(Some(t1), Some(t2), out).value;
    ShapeOfHasShape(t1, [n, n]);
    ShapeOfHasShape(t2, [n, p]);
    ShapeOfHasShape(grads[0], [n, n]);
    ShapeOfHasShape(grads[1], [n, p]);
  }

  /** Setup and forward of Matmul on conforming matrices t1 [m, n] and t2 [n, p]. */
  lemma MatmulForwardOf(st: OpState, t1: NArr, t2: NArr, m: nat, n: nat, p: nat) returns (out: NArr)
    requires m > 0 && n > 0 && p > 0 && HasShape(t1, [m, n]) && HasShape(t2, [n, p])
    ensures IsMatrix(t1) && |t1.items| == m && Cols(t1) == n
    ensures IsMatrix(t2) && |t2.items| == n && Cols(t2) == p
    ensures SetupStep(MatmulOp, st, Shapes([t1, t2])) == (st, Pass)
    ensures ForwardStep(MatmulOp, st, [t1, t2]) == (st.(t1 := Some(t1), t2 := Some(t2)), Ok(out))
    ensures Kernels.TensorMulResult(t1, t2) == Ok(out) && HasShape(out, [m, p])
  {
    var values := [t1, t2];
    ShapeOfHasShape(t1, [m, n]);
    ShapeOfHasShape(t2, [n, p]);
    Kernels.MatrixDims(t1, m, n);
    Kernels.MatrixDims(t2, n, p);
    assert Kernels.MatmulShapesAgree(Shapes(values)[0], Shapes(values)[1]);
    Kernels.TensorMulConforming(t1, t2);
    out := Kernels.TensorMulResult(t1, t2).value;
  }

  /** With t1 of shape [m, n] and n > m the written backward crashes; with n < m
      `verify` names index 1, the shape of t2's gradient. */
  lemma MatmulVerifyAsWritten(st: OpState, t1: NArr, t2: NArr, m: nat, n: nat, p: nat)
    requires m > 0 && n > 0 && p > 0 && m != n && HasShape(t1, [m, n]) && HasShape(t2, [n, p])
    ensures n > m ==> VerifyOutcome(MatmulOp, st, [t1, t2]) == Fail(Crash)
    ensures n < m ==> VerifyOutcome(MatmulOp, st, [t1, t2]) == Fail(GradientShape(1))
  {
    var out := MatmulForwardOf(st, t1, t2, m, n, p);
    Kernels.MatmulSecondGradientAsWritten(t1, t2, out, m, n, p);
    if n > m {
      VerifyBackwardFails(MatmulOp, st, [t1, t2], st, st.(t1 := Some(t1), t2 := Some(t2)), out, Crash);
    } else {
      MatmulMismatch(st, t1, t2, out, m, n, p);
    }
  }

  lemma MatmulMismatch(st: OpState, t1: NArr, t2: NArr, out: NArr, m: nat, n: nat, p: nat)
    requires m > 0 && n > 0 && p > 0 && n < m && HasShape(t1, [m, n]) && HasShape(t2, [n, p])
    requires SetupStep(MatmulOp, st, Shapes([t1, t2])) == (st, Pass)
    requires ForwardStep(MatmulOp, st, [t1, t2]) == (st.(t1 := Some(t1), t2 := Some(t2)), Ok(out))
    requires Kernels.MatmulBackward(Some(t1), Some(t2), out).Ok?
    requires HasShape(Kernels.MatmulBackward(Some(t1), Some(t2), out).value[0], [m, n])
    requires HasShape(Kernels.MatmulBackward(Some(t1), Some(t2), out).value[1], [m, p])
    ensures VerifyOutcome(MatmulOp, st, [t1, t2]) == Fail(GradientShape(1))
  {
    var grads := Kernels.MatmulBackward(Some(t1), Some(t2), out).value;
    MatmulMismatchShapes(t1, t2, grads, m, n, p);
    VerifyFromParts(MatmulOp, st, [t1, t2], st, st.(t1 := Some(t1), t2 := Some(t2)), out, grads);
  }

  /** Gradients of shapes [m, n] and [m, p] for operands [m, n] and [n, p],
      n < m, first differ from the operands' shapes at index 1. */
  lemma MatmulMismatchShapes(t1: NArr, t2: NArr, grads: seq<NArr>, m: nat, n: nat, p: nat)
    requires m > 0 && n > 0 && p > 0 && n < m && HasShape(t1, [m, n]) && HasShape(t2, [n, p])
    requires |grads| == 2 && HasShape(grads[0], [m, n]) && HasShape(grads[1], [m, p])
    ensures FirstMismatch(Shapes([t1, t2]), Shapes(grads), 0) == Some(1)
  {
    ShapeOfHasShape(t1, [m, n]);
    ShapeOfHasShape(t2, [n, p]);
    ShapeOfHasShape(grads[0], [m, n]);
    ShapeOfHasShape(grads[1], [m, p]);
    assert Shapes([t1, t2])[0] == Shapes(grads)[0];
    assert Shapes(grads)[1][0] == m && Shapes([t1, t2])[1][0] == n;
  }

  /** Matmul and Max refuse any number of inputs other than two. */
  lemma ArityChecked(kind: OpKind, st: OpState, values: seq<NArr>)
    requires (kind == MatmulOp || kind == MaxOp) && |values| != 2
    ensures VerifyOutcome(kind, st, values) == Fail(Arity)
  {
  }
}
