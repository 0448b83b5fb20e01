/** The depth-first `backward` recursion of the gradient handler, on a value
    snapshot of the recorded graph. Tensors are named by creation order, the
    gradient field of every handler is one entry of a map from name to
    gradient value, and an assignment to a handler's gradient is an update of
    that map, so a later write replaces an earlier one. */
module Backprop {

  import opened Results
  import opened NArrays
  import opened Operations
  import Kernels

  /** One recorded tensor: its value, the kind and cached fields of the
      operation that produced it (none for a leaf), and its children. When
      one operation object produced several tensors, its fields are those
      left by its latest call, as each handler reads them at backward time. */
  datatype Vertex = Vertex(value: NArr, producer: Option<(OpKind, OpState)>, children: seq<nat>)

  /** The recorded graph. An operation's output is created after its inputs,
      so a child always has a smaller name than its parent. */
  type Graph = map<nat, Vertex>

  /** The gradient field of every handler that has one. */
  type Gradients = map<nat, NArr>

  ghost predicate Closed(G: Graph)
  {
    forall t :: t in G ==> forall c :: c in G[t].children ==> c in G && c < t
  }

  /** The tensors reachable from t through recorded children, t included. */
  ghost function Below(G: Graph, t: nat): (r: set<nat>)
    requires Closed(G) && t in G
    ensures t in r && forall u :: u in r ==> u in G && u <= t
    decreases t, 1
  {
    {t} + BelowChildren(G, t, |G[t].children|)
  }

  /** The tensors reachable from the first k children of t. */
  ghost function BelowChildren(G: Graph, t: nat, k: nat): (r: set<nat>)
    requires Closed(G) && t in G && k <= |G[t].children|
    ensures forall u :: u in r ==> u in G && u < t
    decreases t, 0, k
  {
    if k == 0 then {}
    else
      var c := G[t].children[k - 1];
      assert c in G[t].children;
      BelowChildren(G, t, k - 1) + Below(G, c)
  }

  /** The gradient writes `backward(seed)` on t makes, as a map (a later write
      replaces an earlier one), and how it ends. With no seed the tensor's own
      value is the seed and must have shape [1]; an explicit seed is not
      checked. A producer's gradients go to the children in index order, a
      child beyond the last gradient receiving none; t's own gradient is
      written last. A failure ends the recursion, keeping earlier writes. */
  ghost function Descend(G: Graph, t: nat, seed: Option<NArr>): (r: (Gradients, Outcome))
    requires Closed(G) && t in G
    decreases t, 1
  {
    var temp := seed.GetOr(G[t].value);
    if seed.None? && Shape(G[t].value) != [1] then (map[], Fail(NonScalarBackward))
    else
      match G[t].producer
      case None => (map[t := temp], Pass)
      case Some(p) =>
        (match BackwardOf(p.0, p.1, temp)
         case Err(e) => (map[], Fail(e))
         case Ok(grads) =>
           var (w, o) := DescendChildren(G, t, grads, |G[t].children|);
           if o.Fail? then (w, o) else (w[t := temp], Pass))
  }

  /** The writes of `children[i].backward(grads[i])` for i below k, in order. */
  ghost function DescendChildren(G: Graph, t: nat, grads: seq<NArr>, k: nat): (r: (Gradients, Outcome))
    requires Closed(G) && t in G && k <= |G[t].children|
    decreases t, 0, k
  {
    if k == 0 then (map[], Pass)
    else
      var (w, o) := DescendChildren(G, t, grads, k - 1);
      if o.Fail? then (w, o)
      else
        var c := G[t].children[k - 1];
        assert c in G[t].children;
        var (w2, o2) := Descend(G, c, if k - 1 < |grads| then Some(grads[k - 1]) else None);
        (w + w2, o2)
  }

  /** Once a child fails, the later children are not visited. */
  lemma {:induction false} DescendChildrenStops(G: Graph, t: nat, grads: seq<NArr>, k: nat, k': nat)
    requires Closed(G) && t in G && k <= k' <= |G[t].children|
    requires DescendChildren(G, t, grads, k).1.Fail?
    ensures DescendChildren(G, t, grads, k') == DescendChildren(G, t, grads, k)
    decreases k'
  {
    if k' > k {
      DescendChildrenStops(G, t, grads, k, k' - 1);
    }
  }

  lemma OverrideAssoc(a: Gradients, b: Gradients, c: Gradients)
    ensures a + b + c == a + (b + c)
  {
  }

  /** `backward(previousGradient)` on the tensor t, given every handler's
      gradient before the call: the gradients after it and how it ends. */
  method Backward(G: Graph, t: nat, prev: Option<NArr>, grads: Gradients) returns (grads': Gradients, o: Outcome)
    requires Closed(G) && t in G
    ensures grads' == grads + Descend(G, t, prev).0
    ensures o == Descend(G, t, prev).1
    decreases t, 1
  {
    var temp := if prev.Some? then prev.value else G[t].value;
    if prev.None? && Shape(temp) != [1] {
      return grads, Fail(NonScalarBackward);
    }
    grads' := grads;
    match G[t].producer {
      case None =>
      case Some(p) =>
        var childGrads := BackwardOf(p.0, p.1, temp);
        if childGrads.Err? {
          return grads, Fail(childGrads.error);
        }
        grads', o := BackwardChildren(G, t, childGrads.value, grads);
        if o.Fail? {
          return;
        }
    }
    grads' := grads'[t := temp];
    o := Pass;
  }

  /** The loop of `backward` over the children, in index order. */
  method BackwardChildren(G: Graph, t: nat, gv: seq<NArr>, grads: Gradients) returns (grads': Gradients, o: Outcome)
    requires Closed(G) && t in G
    ensures grads' == grads + DescendChildren(G, t, gv, |G[t].children|).0
    ensures o == DescendChildren(G, t, gv, |G[t].children|).1
    decreases t, 0
  {
    var cs := G[t].children;
    grads', o := grads, Pass;
    var i := 0;
    while i < |cs| && o.Pass?
      invariant 0 <= i <= |cs|
      invariant grads' == grads + DescendChildren(G, t, gv, i).0
      invariant o == DescendChildren(G, t, gv, i).1
    {
      assert cs[i] in G[t].children;
      var seed := if i < |gv| then Some(gv[i]) else None;
      ghost var before := grads';
      grads', o := Backward(G, cs[i], seed, grads');
      OverrideAssoc(grads, DescendChildren(G, t, gv, i).0, Descend(G, cs[i], seed).0);
      i := i + 1;
    }
    if o.Fail? {
      DescendChildrenStops(G, t, gv, i, |cs|);
    }
  }

  // ---------------------------------------------------------------------------
  // What backward promises

  /** Every gradient written lies in the graph below t. */
  lemma {:induction false} DescendWritesBelow(G: Graph, t: nat, seed: Option<NArr>)
    requires Closed(G) && t in G
    ensures Descend(G, t, seed).0.Keys <= Below(G, t)
    decreases t, 1
  {
    var temp := seed.GetOr(G[t].value);
    if seed.None? && Shape(G[t].value) != [1] {
    } else if G[t].producer.Some? {
      var p := G[t].producer.value;
      if BackwardOf(p.0, p.1, temp).Ok? {
        DescendChildrenWritesBelow(G, t, BackwardOf(p.0, p.1, temp).value, |G[t].children|);
      }
    }
  }

  lemma {:induction false} DescendChildrenWritesBelow(G: Graph, t: nat, grads: seq<NArr>, k: nat)
    requires Closed(G) && t in G && k <= |G[t].children|
    ensures DescendChildren(G, t, grads, k).0.Keys <= BelowChildren(G, t, k)
    decreases t, 0, k
  {
    if k > 0 {
      DescendChildrenWritesBelow(G, t, grads, k - 1);
      var c := G[t].children[k - 1];
      assert c in G[t].children;
      DescendWritesBelow(G, c, if k - 1 < |grads| then Some(grads[k - 1]) else None);
    }
  }

  /** A completed backward leaves t's gradient equal to its seed: the
      argument, or the tensor's own value when there is none. */
  lemma DescendSetsOwnGradient(G: Graph, t: nat, seed: Option<NArr>)
    requires Closed(G) && t in G && Descend(G, t, seed).1.Pass?
    ensures t in Descend(G, t, seed).0 && Descend(G, t, seed).0[t] == seed.GetOr(G[t].value)
  {
  }

  /** `backward()` without a gradient on a tensor whose shape is not [1] fails
      before any gradient is written, and with one it completes when the
      tensor is a leaf: a leaf writes only its own gradient, even one whose
      shape differs from its value's. */
  lemma SeedRules(G: Graph, t: nat, seed: Option<NArr>)
    requires Closed(G) && t in G
    ensures seed.None? && Shape(G[t].value) != [1] ==> Descend(G, t, seed) == (map[], Fail(NonScalarBackward))
    ensures G[t].producer.None? && (seed.Some? || Shape(G[t].value) == [1]) ==>
              Descend(G, t, seed) == (map[t := seed.GetOr(G[t].value)], Pass)
  {
  }

  /** Gradients are overwritten, not summed: for y = Add(x, x) with x = [3],
      `y.backward()` leaves x's gradient at [6], the gradient of one path,
      where the sum over both paths would be [12]. */
  lemma DiamondOverwrites()
    ensures var x, y := Node([Leaf(3.0)]), Node([Leaf(6.0)]);
            var G := map[0 := Vertex(x, None, []), 1 := Vertex(y, Some((AddOp, Initial.(tensorCount := Some(2)))), [0, 0])];
            Closed(G) && Descend(G, 1, None) == (map[0 := y, 1 := y], Pass) &&
            Descend(G, 1, None).0[0] != Kernels.AddArrays(y, y)
  {
    var x, y := Node([Leaf(3.0)]), Node([Leaf(6.0)]);
    var G := map[0 := Vertex(x, None, []), 1 := Vertex(y, Some((AddOp, Initial.(tensorCount := Some(2)))), [0, 0])];
    assert Shape(y) == [1];
    var grads := BackwardOf(AddOp, Initial.(tensorCount := Some(2)), y).value;
    assert grads == [y, y];
    assert Closed(G);
    assert Descend(G, 0, Some(y)) == (map[0 := y], Pass);
    assert DescendChildren(G, 1, grads, 0) == (map[], Pass);
    assert G[1].children == [0, 0] && grads[0] == y && grads[1] == y;
    assert map[] + map[0 := y] == map[0 := y] == map[0 := y] + map[0 := y];
    assert DescendChildren(G, 1, grads, 1) == (map[0 := y], Pass);
    assert DescendChildren(G, 1, grads, 2) == (map[0 := y], Pass);
    assert Kernels.AddArrays(y, y) == Node([Leaf(12.0)]);
  }
}
