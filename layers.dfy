/** Layers and models: the named parameter map every layer keeps, the dense
    `Linear` layer built from the operation library, and `Sequential`, which
    feeds each layer's output to the next. */
module Layers {

  import opened Results
  import opened NArrays
  import opened Operations
  import opened Autograd
  import Kernels
  import Factory

  // ---------------------------------------------------------------------------
  // The parameter map

  /** The entries of a `Map<String, Tensor>` in insertion order. */
  type Entries = seq<(string, Tensor)>

  /** The position of `name`, if it is a key. */
  function IndexOf(entries: Entries, name: string): (r: Option<nat>)
    ensures r.Some? ==> r.value < |entries| && entries[r.value].0 == name &&
                        forall j :: 0 <= j < r.value ==> entries[j].0 != name
    ensures r.None? ==> forall j :: 0 <= j < |entries| ==> entries[j].0 != name
  {
    if entries == [] then None
    else if entries[0].0 == name then Some(0)
    else match IndexOf(entries[1..], name)
         case None => None
         case Some(i) => Some(i + 1)
  }

  /** `map.get(name)`. */
  function Lookup(entries: Entries, name: string): Option<Tensor>
  {
    match IndexOf(entries, name)
    case None => None
    case Some(i) => Some(entries[i].1)
  }

  /** `map.set(name, t)`: an existing key keeps its place and takes the new
      tensor; a new key is appended. */
  function MapSet(entries: Entries, name: string, t: Tensor): Entries
  {
    match IndexOf(entries, name)
    case None => entries + [(name, t)]
    case Some(i) => entries[i := (name, t)]
  }

  predicate KeysDistinct(entries: Entries)
  {
    forall i, j :: 0 <= i < j < |entries| ==> entries[i].0 != entries[j].0
  }

  /** After `set(name, t)` the map binds name to t, every other key keeps its
      binding, keys stay distinct and in order, and the map grows by one entry
      exactly when the name was new. */
  lemma MapSetSpec(entries: Entries, name: string, t: Tensor, other: string)
    ensures Lookup(MapSet(entries, name, t), name) == Some(t)
    ensures other != name ==> Lookup(MapSet(entries, name, t), other) == Lookup(entries, other)
    ensures KeysDistinct(entries) ==> KeysDistinct(MapSet(entries, name, t))
    ensures |MapSet(entries, name, t)| == |entries| + (if Lookup(entries, name).Some? then 0 else 1)
    ensures forall i :: 0 <= i < |entries| ==> MapSet(entries, name, t)[i].0 == entries[i].0
  {
    var m := MapSet(entries, name, t);
    var io := IndexOf(entries, other);
    var iom := IndexOf(m, other);
    match IndexOf(entries, name) {
      case None =>
        assert m[|entries|].0 == name && forall j :: 0 <= j < |entries| ==> m[j].0 != name;
        assert IndexOf(m, name) == Some(|entries|);
      case Some(i) =>
        assert m[i].0 == name && forall j :: 0 <= j < i ==> m[j].0 != name;
        assert IndexOf(m, name) == Some(i);
    }
    if other != name {
      if io.Some? {
        assert m[io.value].0 == other;
        assert iom == io;
      } else {
        assert iom.None?;
      }
    }
  }

  /** A JavaScript `Map<String, Tensor>` object, shared by reference. */
  class ParamMap {
    var entries: Entries

    constructor ()
      ensures entries == []
    {
      entries := [];
    }

    /** `set(name, t)`. */
    method Set(name: string, t: Tensor)
      modifies this
      ensures entries == MapSet(old(entries), name, t)
      ensures Lookup(entries, name) == Some(t)
      ensures forall other :: other != name ==> Lookup(entries, other) == Lookup(old(entries), other)
    {
      forall other {
        MapSetSpec(entries, name, t, other);
      }
      entries := MapSet(entries, name, t);
    }
  }

  /** The parameter part of `Layer`: a map the getter hands out by reference
      and the setter replaces. */
  class Layer {
    var parameters: ParamMap

    /** A new layer starts with an empty map of its own. */
    constructor ()
      ensures fresh(parameters) && parameters.entries == []
    {
      parameters := new ParamMap();
    }

    /** The `parameters` getter: the live map, not a copy. */
    method GetParameters() returns (m: ParamMap)
      ensures m == parameters
    {
      m := parameters;
    }

    /** The `parameters` setter: the layer now uses `m` itself. */
    method SetParameters(m: ParamMap)
      modifies this
      ensures parameters == m
    {
      parameters := m;
    }

    /** `registerParameter(name, t)`: `set` on the current map. */
    method RegisterParameter(name: string, t: Tensor)
      modifies parameters
      ensures parameters.entries == MapSet(old(parameters.entries), name, t)
    {
      parameters.Set(name, t);
    }
  }

  // ---------------------------------------------------------------------------
  // The dense layer as a value

  /** input · weightsᵀ + biases, through the Transpose, Matmul and Add operations. */
  function AffineValue(x: NArr, w: NArr, b: NArr): Result<NArr>
  {
    var wt :- Apply(TransposeOp, [w]);
    var m :- Apply(MatmulOp, [x, wt]);
    Apply(AddOp, [m, b])
  }

  /** `forward(input)` on values: the affine map, then the clamp at 0 when `relu`. */
  function LinearValue(x: NArr, w: NArr, b: NArr, relu: bool): Result<NArr>
  {
    var s :- AffineValue(x, w, b);
    if relu then Apply(MaxOp, [s, Node([Leaf(0.0)])]) else Ok(s)
  }

  /** An input of shape [1, n] through weights of shape [o, n] and biases of
      shape [1, o] gives an output of shape [1, o]: without `relu` always,
      with it when o >= 2 (a one-entry row looks like a number to Max). */
  lemma LinearShape(x: NArr, w: NArr, b: NArr, relu: bool, n: nat, o: nat)
    requires n > 0 && o > 0 && HasShape(x, [1, n]) && HasShape(w, [o, n]) && HasShape(b, [1, o])
    requires relu ==> o >= 2
    ensures LinearValue(x, w, b, relu).Ok?
    ensures HasShape(LinearValue(x, w, b, relu).value, [1, o])
  {
    var s := LinearSum(x, w, b, n, o);
    if relu {
      ReluRow(s, o, 0.0);
    }
  }

  /** The part of `forward` before the activation. */
  lemma LinearSum(x: NArr, w: NArr, b: NArr, n: nat, o: nat) returns (s: NArr)
    requires n > 0 && o > 0 && HasShape(x, [1, n]) && HasShape(w, [o, n]) && HasShape(b, [1, o])
    ensures LinearValue(x, w, b, false) == Ok(s) && HasShape(s, [1, o])
    ensures forall relu :: LinearValue(x, w, b, relu) == if relu then Apply(MaxOp, [s, Node([Leaf(0.0)])]) else Ok(s)
  {
    var m := AffineParts(x, w, b, n, o);
    Kernels.SumArraysOfShape([m, b], [1, o]);
    s := Kernels.SumArrays([m, b]).value;
  }

  /** Transpose and Matmul succeed on conforming shapes, leaving the row
      product m for the Add. */
  lemma AffineParts(x: NArr, w: NArr, b: NArr, n: nat, o: nat) returns (m: NArr)
    requires n > 0 && o > 0 && HasShape(x, [1, n]) && HasShape(w, [o, n])
    ensures IsMatrix(w) && |w.items| > 0
    ensures Kernels.TensorMulResult(x, Transposed(w)) == Ok(m) && HasShape(m, [1, o])
    ensures AffineValue(x, w, b) == Kernels.SumArrays([m, b])
  {
    ShapeOfHasShape(x, [1, n]);
    ShapeOfHasShape(w, [o, n]);
    Kernels.MatrixDims(w, o, n);
    Kernels.MatrixDims(x, 1, n);
    var wt := Transposed(w);
    ApplyTranspose(w);
    ShapeOfHasShape(wt, [n, o]);
    ApplyMatmul(x, wt);
    Kernels.TensorMulConforming(x, wt);
    m := Kernels.TensorMulResult(x, wt).value;
    ApplyAdd(m, b);
  }

  /** Max with limit l on a [1, o] array, o >= 2: the row clamped entrywise. */
  lemma ReluRow(s: NArr, o: nat, l: real)
    requires o >= 2 && HasShape(s, [1, o])
    ensures Apply(MaxOp, [s, Node([Leaf(l)])]) == Ok(Node([MapLeaves(s.items[0], Kernels.Clamp(l))]))
    ensures HasShape(Node([MapLeaves(s.items[0], Kernels.Clamp(l))]), [1, o])
  {
    var row := s.items[0];
    assert HasShape(row, [o]);
    assert Kernels.Structural(row) by {
      forall i | 0 <= i < |row.items| ensures row.items[i].Leaf? {
        assert HasShape(row.items[i], []);
      }
    }
    assert !Kernels.LooksNumeric(row);
    assert !Kernels.LooksNumeric(s);
    Kernels.MaxOfStructural(row, l);
    Kernels.MaxForwardFlatten(row, l);
    assert Kernels.MaxOf(s, l).items == [Kernels.MaxOf(row, l)];
    ShapeOfHasShape(s, [1, o]);
    assert Shape(Node([Leaf(l)])) == [1];
    assert Shapes([s, Node([Leaf(l)])]) == [[1, o], [1]];
    var c := MapLeaves(row, Kernels.Clamp(l));
    CongruentHasShape(row, c, [o]);
  }

  /** A freshly built layer (all weights and biases 0) outputs zeros of shape
      [1, o] for every input of shape [1, n]. */
  lemma LinearZero(x: NArr, relu: bool, n: nat, o: nat)
    requires n > 0 && o > 0 && HasShape(x, [1, n])
    requires relu ==> o >= 2
    ensures LinearValue(x, Filled([o, n], 0.0), Filled([1, o], 0.0), relu) == Ok(Filled([1, o], 0.0))
  {
    var w, b := Filled([o, n], 0.0), Filled([1, o], 0.0);
    var s := LinearSum(x, w, b, n, o);
    SumZero(x, w, b, n, o, s);
    if relu {
      ReluRow(s, o, 0.0);
      ClampZeros(s.items[0]);
      assert Node([MapLeaves(s.items[0], Kernels.Clamp(0.0))]) == s;
    }
  }

  lemma SumZero(x: NArr, w: NArr, b: NArr, n: nat, o: nat, s: NArr)
    requires n > 0 && o > 0 && HasShape(x, [1, n])
    requires w == Filled([o, n], 0.0) && b == Filled([1, o], 0.0)
    requires LinearValue(x, w, b, false) == Ok(s)
    ensures s == b
  {
    var m := ProductZero(x, w, n, o);
    var m' := AffineParts(x, w, b, n, o);
    assert s == Kernels.SumArrays([m, b]).value;
    ZerosPlusZeros(m, b, o, s);
  }

  /** Zeros plus zeros of shape [1, o] are those zeros. */
  lemma ZerosPlusZeros(m: NArr, b: NArr, o: nat, s: NArr)
    requires o > 0 && HasShape(m, [1, o]) && Uniform(m, 0.0) && b == Filled([1, o], 0.0)
    requires Kernels.SumArrays([m, b]) == Ok(s)
    ensures s == b
  {
    HasShapeCongruent(m, b, [1, o]);
    Kernels.AddArraysIsZip(m, b);
    ZipZeros(m, b);
    Kernels.SumArraysOfShape([m, b], [1, o]);
    FilledUnique(s, [1, o], 0.0);
  }

  lemma ProductZero(x: NArr, w: NArr, n: nat, o: nat) returns (m: NArr)
    requires n > 0 && o > 0 && HasShape(x, [1, n]) && w == Filled([o, n], 0.0)
    ensures IsMatrix(w) && |w.items| > 0
    ensures Kernels.TensorMulResult(x, Transposed(w)) == Ok(m)
    ensures HasShape(m, [1, o]) && Uniform(m, 0.0)
  {
    Kernels.MatrixDims(x, 1, n);
    Kernels.MatrixDims(w, o, n);
    var wt := Transposed(w);
    ZeroMatrix(w);
    assert forall i, j :: 0 <= i < n && 0 <= j < o ==> At(wt, i, j) == 0.0;
    Kernels.TensorMulConforming(x, wt);
    m := Kernels.MatProduct(x, wt);
    forall i, j | 0 <= i < 1 && 0 <= j < o ensures At(m, i, j) == 0.0 {
      DotZero(x, wt, i, j, n);
    }
    ZeroEntries(m, 1, o);
  }

  lemma ZeroMatrix(a: NArr)
    requires IsMatrix(a) && Uniform(a, 0.0)
    ensures forall i, j :: 0 <= i < |a.items| && 0 <= j < Cols(a) ==> At(a, i, j) == 0.0
  {
    MatrixEntries(a);
    forall i, j | 0 <= i < |a.items| && 0 <= j < Cols(a) ensures At(a, i, j) == 0.0 {
      assert Uniform(a.items[i], 0.0);
      assert Uniform(a.items[i].items[j], 0.0);
    }
  }

  lemma {:induction false} DotZero(a: NArr, b: NArr, row: nat, col: nat, k: nat)
    requires IsMatrix(a) && IsMatrix(b) && row < |a.items| && k <= Cols(a) && k <= |b.items| && col < Cols(b)
    requires forall i, j :: 0 <= i < |b.items| && 0 <= j < Cols(b) ==> At(b, i, j) == 0.0
    ensures Kernels.Dot(a, b, row, col, k) == 0.0
  {
    if k > 0 {
      DotZero(a, b, row, col, k - 1);
    }
  }

  /** A matrix whose entries are all 0 is the zero-filled array of its shape. */
  lemma ZeroEntries(m: NArr, r: nat, c: nat)
    requires IsMatrix(m) && |m.items| == r && (r > 0 ==> Cols(m) == c)
    requires forall i, j :: 0 <= i < r && 0 <= j < c ==> At(m, i, j) == 0.0
    ensures HasShape(m, [r, c]) && Uniform(m, 0.0)
  {
    MatrixEntries(m);
    forall i | 0 <= i < r ensures Uniform(m.items[i], 0.0) {
      forall j | 0 <= j < c ensures Uniform(m.items[i].items[j], 0.0) {
        assert At(m, i, j) == 0.0;
      }
    }
  }

  lemma {:induction false} ZipZeros(a: NArr, b: NArr)
    requires Congruent(a, b) && Uniform(a, 0.0) && Uniform(b, 0.0)
    ensures Uniform(ZipWith(a, b, Kernels.Plus), 0.0)
    decreases a
  {
    match a
    case Leaf(_) =>
    case Node(s) =>
      forall i | 0 <= i < |s| ensures Uniform(ZipWith(a, b, Kernels.Plus).items[i], 0.0) {
        ZipZeros(s[i], b.items[i]);
      }
  }

  lemma {:induction false} ClampZeros(a: NArr)
    requires Uniform(a, 0.0)
    ensures MapLeaves(a, Kernels.Clamp(0.0)) == a
    decreases a
  {
    match a
    case Leaf(_) =>
    case Node(s) =>
      forall i | 0 <= i < |s| ensures MapLeaves(a, Kernels.Clamp(0.0)).items[i] == s[i] {
        ClampZeros(s[i]);
      }
  }

  // ---------------------------------------------------------------------------
  // The dense layer

  /** `Linear`: zero-initialised weights [num_out, num_inputs] and biases
      [1, num_out], registered by name, and one Transpose, Add and Matmul
      object reused by every forward pass. */
  class Linear {
    /** The `Layer` part. */
    const base: Layer
    const weights: Tensor
    const biases: Tensor
    const transposer: Operation
    const adder: Operation
    const matMul: Operation
    /** `null` is `None`; only the exact string "relu" turns the clamp on. */
    const activation: Option<string>

    /** The operation objects are three distinct objects holding the kinds
        they were made with. */
    predicate Valid()
    {
      transposer.kind == TransposeOp && adder.kind == AddOp && matMul.kind == MatmulOp &&
      transposer != adder && transposer != matMul && adder != matMul
    }

    /** The reused operations after one affine pass on input: each call
        made records its operands, and a call not made, after an earlier one
        failed, leaves its object as it was. */
    twostate predicate Recorded(x: NArr)
      reads transposer, matMul, adder, weights, biases
    {
      RecordedFrom(x, old(States()))
    }

    /** The states of the three reused operations. */
    function States(): (OpState, OpState, OpState)
      reads transposer, matMul, adder
    {
      (transposer.State(), matMul.State(), adder.State())
    }

    /** Recorded, from the states s0 the three operations had before the pass. */
    predicate RecordedFrom(x: NArr, s0: (OpState, OpState, OpState))
      reads transposer, matMul, adder, weights, biases
    {
      RecordedVals(States(), weights.value, biases.value, x, s0)
    }

    /** No forward pass of this layer ran: its operations hold what they held. */
    twostate predicate Untouched()
      reads transposer, matMul, adder
    {
      States() == old(States())
    }

    /** p is the Matmul's output on [input, q], and q the Transpose's output
        on [weights]. */
    ghost predicate ProductGraph(p: Tensor, input: Tensor)
      reads p, p.handler, set t | t in p.handler.children, set t | t in p.handler.children :: t.handler
    {
      var h := p.handler;
      h.op == matMul && |h.children| == 2 && h.children[0] == input &&
      var q := h.children[1].handler;
      q.op == transposer && q.children == [weights]
    }

    /** out is the Add's output on [p, biases], p as in ProductGraph. */
    ghost predicate AffineGraph(out: Tensor, input: Tensor)
      reads out, out.handler, set t | t in out.handler.children, set t | t in out.handler.children :: t.handler
      reads set t, u | t in out.handler.children && u in t.handler.children :: u
      reads set t, u | t in out.handler.children && u in t.handler.children :: u.handler
    {
      var h := out.handler;
      h.op == adder && |h.children| == 2 && h.children[1] == biases && ProductGraph(h.children[0], input)
    }

    predicate Relu()
    {
      activation == Some("relu")
    }

    constructor (numInputs: nat, numOut: nat, activation: Option<string>)
      ensures Valid() && this.activation == activation
      ensures fresh(base) && fresh(base.parameters) && fresh(weights) && fresh(biases)
      ensures fresh(transposer) && fresh(adder) && fresh(matMul)
      ensures weights.value == Filled([numOut, numInputs], 0.0) && biases.value == Filled([1, numOut], 0.0)
      ensures base.parameters.entries == [("weights", weights), ("biases", biases)]
      ensures transposer.State() == Initial && adder.State() == Initial && matMul.State() == Initial
    {
      base := new Layer();
      var w := Factory.FilledTensor([numOut, numInputs], 0.0);
      var b := Factory.FilledTensor([1, numOut], 0.0);
      weights, biases := w, b;
      transposer := new Operation(TransposeOp);
      adder := new Operation(AddOp);
      matMul := new Operation(MatmulOp);
      this.activation := activation;
      new;
      base.RegisterParameter("weights", weights);
      base.RegisterParameter("biases", biases);
    }

    /** `forward(input)`: the affine part, then a new Max with [0] when `relu`. */
    method Forward(input: Tensor) returns (r: Result<Tensor>)
      requires Valid()
      modifies transposer, adder, matMul
      ensures ValueOf(r) == LinearValue(input.value, weights.value, biases.value, Relu())
      ensures Recorded(input.value)
      ensures r.Ok? ==> fresh(r.value)
      ensures r.Ok? && !Relu() ==> AffineGraph(r.value, input)
      ensures r.Ok? && Relu() ==>
                var h := r.value.handler;
                h.op != null && fresh(h.op) && h.op.kind == MaxOp && |h.children| == 2 &&
                AffineGraph(h.children[0], input) && h.children[1].value == Node([Leaf(0.0)])
    {
      var x := Affine(input);
      ghost var xv := ValueOf(x);
      LinearSteps(input.value, weights.value, biases.value, Relu(), xv);
      if x.Err? || !Relu() {
        return x;
      }
      r := Relu0(x.value);
    }

    /** matMul([input, transposer([weights])]). */
    method Product(input: Tensor) returns (r: Result<Tensor>)
      requires Valid()
      modifies transposer, matMul
      ensures ValueOf(r) == ProductValue(input.value, weights.value)
      ensures transposer.State() == CallStep(TransposeOp, old(transposer.State()), [weights.value]).0
      ensures matMul.State() == match Apply(TransposeOp, [weights.value])
                                case Ok(wt) => CallStep(MatmulOp, old(matMul.State()), [input.value, wt]).0
                                case Err(_) => old(matMul.State())
      ensures r.Ok? ==> fresh(r.value) && ProductGraph(r.value, input)
    {
      assert Values([weights]) == [weights.value];
      var wt := transposer.Call([weights]);
      if wt.Err? {
        return Err(wt.error);
      }
      var q := wt.value;
      assert Values([input, q]) == [input.value, q.value];
      r := matMul.Call([input, q]);
    }

    /** adder([matMul([input, transposer([weights])]), biases]). The reused
        operations keep the operands of this call. */
    method Affine(input: Tensor) returns (r: Result<Tensor>)
      requires Valid()
      modifies transposer, adder, matMul
      ensures ValueOf(r) == AffineValue(input.value, weights.value, biases.value)
      ensures Recorded(input.value)
      ensures r.Ok? ==> fresh(r.value) && AffineGraph(r.value, input)
    {
      var m := Product(input);
      if m.Err? {
        return Err(m.error);
      }
      var p := m.value;
      assert Values([p, biases]) == [p.value, biases.value];
      r := adder.Call([p, biases]);
    }
  }

  /** `new Max()([x, new Tensor([0])])`: x clamped below at 0. */
  method Relu0(x: Tensor) returns (r: Result<Tensor>)
    ensures ValueOf(r) == Apply(MaxOp, [x.value, Node([Leaf(0.0)])])
    ensures r.Ok? ==> fresh(r.value)
    ensures r.Ok? ==> var h := r.value.handler;
              h.op != null && fresh(h.op) && h.op.kind == MaxOp &&
              h.op.State() == CallStep(MaxOp, Initial, [x.value, Node([Leaf(0.0)])]).0 &&
              |h.children| == 2 && h.children[0] == x && fresh(h.children[1]) &&
              h.children[1].value == Node([Leaf(0.0)])
  {
    var maxOp := new Operation(MaxOp);
    var zero := new Tensor(Node([Leaf(0.0)]));
    assert Values([x, zero]) == [x.value, zero.value];
    r := maxOp.Call([x, zero]);
  }

  /** input · weightsᵀ: the Matmul's result on the Transpose's. */
  function ProductValue(x: NArr, w: NArr): Result<NArr>
  {
    var wt :- Apply(TransposeOp, [w]);
    Apply(MatmulOp, [x, wt])
  }

  /** The activation step of `forward`, given the affine part's result. */
  lemma LinearSteps(x: NArr, w: NArr, b: NArr, relu: bool, a: Result<NArr>)
    requires a == AffineValue(x, w, b)
    ensures a.Err? ==> LinearValue(x, w, b, relu) == Err(a.error)
    ensures a.Ok? && !relu ==> LinearValue(x, w, b, relu) == a
    ensures a.Ok? && relu ==> LinearValue(x, w, b, relu) == Apply(MaxOp, [a.value, Node([Leaf(0.0)])])
  {
  }

  // ---------------------------------------------------------------------------
  // The sequential model

  /** What `forward` of one layer reads: its weights, biases and activation. */
  datatype LayerSpec = LayerSpec(w: NArr, b: NArr, relu: bool)

  function Specs(ls: seq<Linear>): (r: seq<LayerSpec>)
    reads set l | l in ls :: l.weights
    reads set l | l in ls :: l.biases
    ensures |r| == |ls| && forall i :: 0 <= i < |ls| ==>
              r[i] == LayerSpec(ls[i].weights.value, ls[i].biases.value, ls[i].Relu())
  {
    if ls == [] then []
    else Specs(ls[..|ls| - 1]) + [LayerSpec(ls[|ls| - 1].weights.value, ls[|ls| - 1].biases.value, ls[|ls| - 1].Relu())]
  }

  /** The layers ls read what specs lists. */
  ghost predicate Describes(ls: seq<Linear>, specs: seq<LayerSpec>)
    reads set l | l in ls :: l.weights
    reads set l | l in ls :: l.biases
  {
    |specs| == |ls| &&
    forall k :: 0 <= k < |ls| ==> specs[k] == LayerSpec(ls[k].weights.value, ls[k].biases.value, ls[k].Relu())
  }

  /** After i passes of the loop of `Sequential.forward` from x the result
      is v: the fold of the first i layers while that succeeds; after a
      failing layer, the loop stops with the fold's error. */
  predicate Reached(x: NArr, specs: seq<LayerSpec>, i: nat, v: Result<NArr>)
    requires i <= |specs|
  {
    if v.Ok? then Fold(x, specs[..i]) == v
    else i > 0 && Fold(x, specs[..i]).Err? && v == Fold(x, specs)
  }

  /** Layer i applied to the fold of the layers before it reaches i + 1. */
  lemma ReachedStep(x: NArr, specs: seq<LayerSpec>, i: nat, y: NArr, v: Result<NArr>)
    requires i < |specs| && Reached(x, specs, i, Ok(y))
    requires v == LinearValue(y, specs[i].w, specs[i].b, specs[i].relu)
    ensures Reached(x, specs, i + 1, v)
  {
    FoldStep(x, specs, i, y);
    if v.Err? {
      FoldStops(x, specs, i + 1);
    }
  }

  /** When the loop stops, at the end or on an error, its result is the
      fold of all the layers. */
  lemma ReachedDone(x: NArr, specs: seq<LayerSpec>, i: nat, v: Result<NArr>)
    requires i <= |specs| && Reached(x, specs, i, v) && (i == |specs| || v.Err?)
    ensures v == Fold(x, specs) && (i == |specs| || (i > 0 && Fold(x, specs[..i]).Err?))
  {
    if v.Ok? {
      assert specs[..i] == specs;
    }
  }

  /** One pass of the loop of `Sequential.forward`: layer i applied to the
      previous output extends the fold by one layer, its operations keep the
      operands of this pass, and no other layer's operations change. */
  method ForwardLayer(r: Result<Tensor>, ghost x: NArr, ghost specs: seq<LayerSpec>, i: nat,
                      ls: seq<Linear>, ghost s0: seq<(OpState, OpState, OpState)>)
      returns (out: Result<Tensor>)
    requires i < |ls| && (forall l :: l in ls ==> l.Valid()) && Describes(ls, specs)
    requires r.Ok? && Reached(x, specs, i, ValueOf(r))
    requires SeparateOps(ls) ==> Progress(StatesOf(ls), x, specs, s0, i)
    modifies ls[i].transposer, ls[i].adder, ls[i].matMul
    ensures Describes(ls, specs) && Reached(x, specs, i + 1, ValueOf(out))
    ensures out.Ok? ==> fresh(out.value)
    ensures ls[i].Recorded(r.value.value)
    ensures forall k :: 0 <= k < |ls| && Apart(ls[k], ls[i]) ==> ls[k].Untouched()
    ensures SeparateOps(ls) ==> Progress(StatesOf(ls), x, specs, s0, i + 1)
  {
    ghost var pre := StatesOf(ls);
    var l := ls[i];
    out := l.Forward(r.value);
    ReachedStep(x, specs, i, r.value.value, ValueOf(out));
    if SeparateOps(ls) {
      ghost var cur := StatesOf(ls);
      forall k | 0 <= k < |ls| && k != i ensures cur[k] == pre[k] {
        assert Apart(ls[k], ls[i]);
      }
      ProgressStep(pre, cur, x, specs, s0, i, r.value.value);
    }
  }

  lemma SpecsOf(ls: seq<Linear>, specs: seq<LayerSpec>)
    requires Describes(ls, specs)
    ensures Specs(ls) == specs
  {
  }

  /** The layers applied left to right, each to the previous output. */
  function Fold(x: NArr, specs: seq<LayerSpec>): Result<NArr>
  {
    if specs == [] then Ok(x)
    else
      var y :- Fold(x, specs[..|specs| - 1]);
      var l := specs[|specs| - 1];
      LinearValue(y, l.w, l.b, l.relu)
  }

  lemma FoldStep(x: NArr, specs: seq<LayerSpec>, i: nat, y: NArr)
    requires i < |specs| && Fold(x, specs[..i]) == Ok(y)
    ensures Fold(x, specs[..i + 1]) == LinearValue(y, specs[i].w, specs[i].b, specs[i].relu)
  {
    assert specs[..i + 1][..i] == specs[..i];
  }

  /** A failing layer ends the fold with its error. */
  lemma {:induction false} FoldStops(x: NArr, specs: seq<LayerSpec>, i: nat)
    requires i <= |specs| && Fold(x, specs[..i]).Err?
    ensures Fold(x, specs) == Fold(x, specs[..i])
    decreases |specs| - i
  {
    if i < |specs| {
      assert specs[..i + 1][..i] == specs[..i];
      FoldStops(x, specs, i + 1);
    } else {
      assert specs[..i] == specs;
    }
  }

  /** Layers whose sizes chain (layer k maps dims[k] to dims[k+1] inputs,
      with at least two outputs where it applies relu) map an input of shape
      [1, dims[0]] to an output of shape [1, dims[|specs|]]. */
  lemma {:induction false} FoldShape(x: NArr, specs: seq<LayerSpec>, dims: seq<nat>)
    requires |dims| == |specs| + 1 && forall k :: 0 <= k < |dims| ==> dims[k] > 0
    requires forall k :: 0 <= k < |specs| ==>
               HasShape(specs[k].w, [dims[k + 1], dims[k]]) && HasShape(specs[k].b, [1, dims[k + 1]]) &&
               (specs[k].relu ==> dims[k + 1] >= 2)
    requires HasShape(x, [1, dims[0]])
    ensures Fold(x, specs).Ok? && HasShape(Fold(x, specs).value, [1, dims[|specs|]])
  {
    if specs != [] {
      var n := |specs| - 1;
      FoldShape(x, specs[..n], dims[..n + 1]);
      var y := Fold(x, specs[..n]).value;
      LinearShape(y, specs[n].w, specs[n].b, specs[n].relu, dims[n], dims[n + 1]);
    }
  }

  /** No two layers share an operation object: each `Linear` makes its own,
      so this holds unless one layer was added twice. */
  ghost predicate SeparateOps(ls: seq<Linear>)
  {
    forall i, j :: 0 <= i < |ls| && 0 <= j < |ls| && i != j ==> Apart(ls[i], ls[j])
  }

  /** The two layers have no operation object in common. */
  ghost predicate Apart(a: Linear, b: Linear)
  {
    a.transposer != b.transposer && a.transposer != b.adder && a.transposer != b.matMul &&
    a.adder != b.transposer && a.adder != b.adder && a.adder != b.matMul &&
    a.matMul != b.transposer && a.matMul != b.adder && a.matMul != b.matMul
  }

  /** The states of every layer's operations. */
  ghost function StatesOf(ls: seq<Linear>): (r: seq<(OpState, OpState, OpState)>)
    reads set l | l in ls :: l.transposer, set l | l in ls :: l.matMul, set l | l in ls :: l.adder
    ensures |r| == |ls| && forall k :: 0 <= k < |ls| ==> r[k] == ls[k].States()
  {
    if ls == [] then [] else StatesOf(ls[..|ls| - 1]) + [ls[|ls| - 1].States()]
  }

  /** The states t of a layer's Transpose, Matmul and Add after an affine
      pass on x with weights w and biases b, from the states s0: each call
      made records its operands, and a call not made keeps its state. */
  predicate RecordedVals(t: (OpState, OpState, OpState), w: NArr, b: NArr, x: NArr,
                         s0: (OpState, OpState, OpState))
  {
    t.0 == CallStep(TransposeOp, s0.0, [w]).0 &&
    t.1 == (match Apply(TransposeOp, [w])
            case Ok(wt) => CallStep(MatmulOp, s0.1, [x, wt]).0
            case Err(_) => s0.1) &&
    t.2 == match ProductValue(x, w)
           case Ok(m) => CallStep(AddOp, s0.2, [m, b]).0
           case Err(_) => s0.2
  }

  /** The loop of `Sequential.forward` after i layers, with the operations'
      states cur and their states s0 before the loop: each layer before i ran
      on the fold of the layers before it, and the others keep their states. */
  predicate Progress(cur: seq<(OpState, OpState, OpState)>, x: NArr, specs: seq<LayerSpec>,
                     s0: seq<(OpState, OpState, OpState)>, i: nat)
  {
    |s0| == |cur| && |specs| == |cur| && i <= |cur| &&
    (forall k :: 0 <= k < i ==>
       Fold(x, specs[..k]).Ok? && RecordedVals(cur[k], specs[k].w, specs[k].b, Fold(x, specs[..k]).value, s0[k])) &&
    (forall k :: i <= k < |cur| ==> cur[k] == s0[k])
  }

  /** A pass of layer i on the fold of the layers before it, touching no
      other layer's operations, moves the progress on by one layer. */
  lemma ProgressStep(pre: seq<(OpState, OpState, OpState)>, cur: seq<(OpState, OpState, OpState)>,
                     x: NArr, specs: seq<LayerSpec>, s0: seq<(OpState, OpState, OpState)>, i: nat, y: NArr)
    requires Progress(pre, x, specs, s0, i) && i < |pre| && |cur| == |pre|
    requires Fold(x, specs[..i]) == Ok(y) && RecordedVals(cur[i], specs[i].w, specs[i].b, y, pre[i])
    requires forall k :: 0 <= k < |cur| && k != i ==> cur[k] == pre[k]
    ensures Progress(cur, x, specs, s0, i + 1)
  {
  }

  /** The operations' states cur after a forward pass from x through the
      layers specs, from the states s0: a layer whose input, the fold of the
      layers before it, exists ran on that input, and the others kept their
      states. */
  predicate Ran(cur: seq<(OpState, OpState, OpState)>, x: NArr, specs: seq<LayerSpec>,
                s0: seq<(OpState, OpState, OpState)>)
    requires |cur| == |specs| == |s0|
  {
    forall k :: 0 <= k < |cur| ==>
      var y := Fold(x, specs[..k]);
      if y.Ok? then RecordedVals(cur[k], specs[k].w, specs[k].b, y.value, s0[k]) else cur[k] == s0[k]
  }

  /** When the loop stops, at the end or after a failing layer, each layer
      either ran on the fold of the layers before it or was not reached. */
  lemma ProgressDone(cur: seq<(OpState, OpState, OpState)>, x: NArr, specs: seq<LayerSpec>,
                     s0: seq<(OpState, OpState, OpState)>, i: nat)
    requires Progress(cur, x, specs, s0, i)
    requires i == |cur| || (i > 0 && Fold(x, specs[..i]).Err?)
    ensures |cur| == |specs| == |s0| && Ran(cur, x, specs, s0)
  {
    forall k | i <= k < |cur| ensures Fold(x, specs[..k]).Err? {
      assert specs[..k][..i] == specs[..i];
      FoldStops(x, specs[..k], i);
    }
  }

  /** The loop of `Sequential.forward` over the layers ls from input: each
      layer runs on the previous output while the layers before it succeed. */
  method RunLayers(ls: seq<Linear>, input: Tensor, ghost specs: seq<LayerSpec>) returns (r: Result<Tensor>)
    requires |ls| > 0 && (forall l :: l in ls ==> l.Valid()) && Describes(ls, specs)
    modifies OpsOf(ls)
    ensures ValueOf(r) == Fold(input.value, specs)
    ensures SeparateOps(ls) ==> Ran(StatesOf(ls), input.value, specs, old(StatesOf(ls)))
  {
    ghost var x := input.value;
    ghost var sep := SeparateOps(ls);
    ghost var s0 := StatesOf(ls);
    r := Ok(input);
    var i := 0;
    while i < |ls| && r.Ok?
      invariant 0 <= i <= |ls| && Describes(ls, specs)
      invariant Reached(x, specs, i, ValueOf(r))
      invariant sep ==> Progress(StatesOf(ls), x, specs, s0, i)
    {
      r := ForwardLayer(r, x, specs, i, ls, s0);
      i := i + 1;
    }
    ReachedDone(x, specs, i, ValueOf(r));
    if sep {
      ProgressDone(StatesOf(ls), x, specs, s0, i);
    }
  }

  ghost function OpsOf(ls: seq<Linear>): set<Operation>
  {
    (set l | l in ls :: l.transposer) + (set l | l in ls :: l.adder) + (set l | l in ls :: l.matMul)
  }

  class Sequential {
    /** `_layers`; `Linear` is the only layer of the library. */
    var layers: seq<Linear>

    constructor ()
      ensures layers == []
    {
      layers := [];
    }

    /** `add(layer)`: appended after the existing layers. */
    method Add(l: Linear)
      modifies this
      ensures layers == old(layers) + [l]
    {
      layers := layers + [l];
    }

    /** `forward(params)`: params[0] into layer 0, each later layer the
        previous output; with no layers the result is never assigned. Layer k
        runs exactly when the layers before it succeeded, and its operations
        then keep the operands of its pass. */
    method Forward(params: seq<Tensor>) returns (r: Result<Tensor>)
      requires forall l :: l in layers ==> l.Valid()
      modifies OpsOf(layers)
      ensures layers == [] ==> r == Err(NoOutput)
      ensures layers != [] && params == [] ==> r == Err(Crash)
      ensures layers != [] && params != [] ==> ValueOf(r) == Fold(params[0].value, Specs(layers))
      ensures layers != [] && params != [] && SeparateOps(layers) ==>
                |Specs(layers)| == |layers| && Ran(StatesOf(layers), params[0].value, Specs(layers), old(StatesOf(layers)))
    {
      if |layers| == 0 {
        return Err(NoOutput);
      }
      if |params| == 0 {
        return Err(Crash);
      }
      var ls := layers;
      ghost var specs := Specs(ls);
      assert Describes(ls, specs);
      r := RunLayers(ls, params[0], specs);
      SpecsOf(ls, specs);
    }

    /** `getParameters()`: each layer's own map object, in layer order. */
    method GetParameters() returns (ms: seq<ParamMap>)
      ensures |ms| == |layers| && forall i :: 0 <= i < |layers| ==> ms[i] == layers[i].base.parameters
    {
      ms := [];
      for i := 0 to |layers|
        invariant |ms| == i && forall k :: 0 <= k < i ==> ms[k] == layers[k].base.parameters
      {
        ms := ms + [layers[i].base.parameters];
      }
    }
  }
}
