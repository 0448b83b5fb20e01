/** `TensorFactory` (and the identical `ones`/`zeros`/`filled` of
    `TensorUtils`): tensors whose every entry is one number. The factory's
    `filledArray` is the same algorithm as `TensorUtils.filledArray` and is
    modelled by `TensorUtils.FilledArray`. */
module Factory {

  import opened Results
  import opened NArrays
  import TensorUtils
  import opened Autograd

  /** `filled(shape, fillValue)`: a new tensor holding `filledArray(shape, fillValue)`. */
  method FilledTensor(shape: seq<nat>, fillValue: real) returns (t: Tensor)
    ensures fresh(t) && fresh(t.handler) && t.handler.tensor == t && t.handler.Untouched()
    ensures t.value == Filled(shape, fillValue)
  {
    var v := TensorUtils.FilledArray(shape, fillValue);
    t := new Tensor(v);
  }

  /** `ones(shape)`: `filled(shape, 1)`. */
  method Ones(shape: seq<nat>) returns (t: Tensor)
    ensures fresh(t) && fresh(t.handler) && t.handler.tensor == t && t.handler.Untouched()
    ensures t.value == Filled(shape, 1.0)
  {
    t := FilledTensor(shape, 1.0);
  }

  /** `zeros(shape)`: `filled(shape, 0)`. */
  method Zeros(shape: seq<nat>) returns (t: Tensor)
    ensures fresh(t) && fresh(t.handler) && t.handler.tensor == t && t.handler.Untouched()
    ensures t.value == Filled(shape, 0.0)
  {
    t := FilledTensor(shape, 0.0);
  }

  /** A filled array has exactly the requested shape when no dimension is 0,
      lists `Product(shape)` copies of the fill value, and is the only array
      of that shape whose every leaf is the fill value. */
  lemma FilledShape(shape: seq<nat>, v: real, a: NArr)
    requires Positive(shape)
    ensures Shape(Filled(shape, v)) == shape
    ensures Flatten(Filled(shape, v)) == seq(Product(shape), _ => v)
    ensures HasShape(a, shape) && Uniform(a, v) ==> a == Filled(shape, v)
  {
    ShapeOfHasShape(Filled(shape, v), shape);
    FilledFlatten(shape, v);
    if HasShape(a, shape) && Uniform(a, v) {
      FilledUnique(a, shape, v);
    }
  }

  /** Each slot is built by its own call, so writing one leaf of a filled
      array leaves every other position as it was. */
  lemma FilledSlotsIndependent(shape: seq<nat>, v: real, p: seq<nat>, w: real, p': seq<nat>)
    requires |shape| > 0 && InRange(p, shape) && InRange(p', shape) && p' != p
    ensures Writable(Filled(shape, v), p)
    ensures Get(SetAt(Filled(shape, v), p, w), p') == Some(Leaf(v))
  {
    SetAtOnlyThere(Filled(shape, v), shape, p, w, p');
    FilledGet(shape, v, p');
  }

  lemma {:induction false} FilledGet(shape: seq<nat>, v: real, p: seq<nat>)
    requires InRange(p, shape)
    ensures Get(Filled(shape, v), p) == Some(Leaf(v))
    decreases |shape|
  {
    if shape != [] {
      FilledGet(shape[1..], v, p[1..]);
    }
  }
}
