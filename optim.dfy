/** The optimiser: `Optimiser.step` and `zero_grad` over the parameter maps of
    a model, with the gradient rule and learning-rate decay of `SGD`, its only
    working subclass. */
module Optim {

  import opened Results
  import opened NArrays
  import Kernels
  import opened Autograd
  import opened Layers

  // ---------------------------------------------------------------------------
  // One parameter

  /** What `step` reads and writes of one parameter: its value and the
      gradient held by its handler. */
  datatype Slot = Slot(value: NArr, gradient: Option<NArr>)

  /** `SGD.processGradient` on values: the NaN-sanitised gradient times an
      array of the gradient's shape filled with `kwargs.lr`. Without an lr
      option the fill argument is undefined and `filledArray` uses its
      default, 0. */
  function Processed(g: NArr, lrOption: Option<real>): Result<NArr>
  {
    Kernels.Product2(Kernels.UnNanify(g), Filled(Shape(g), lrOption.GetOr(0.0)))
  }

  /** The processed gradient exists exactly for a rectangular gradient; it has
      the gradient's shape and is the gradient scaled by the lr option. */
  lemma ProcessedScales(g: NArr, lrOption: Option<real>)
    ensures Processed(g, lrOption).Ok? <==> Rect(g)
    ensures Processed(g, lrOption).Ok? ==>
              SameShape(g, Processed(g, lrOption).value) &&
              |Flatten(Processed(g, lrOption).value)| == |Flatten(g)| &&
              forall k :: 0 <= k < |Flatten(g)| ==>
                Flatten(Processed(g, lrOption).value)[k] == Flatten(g)[k] * lrOption.GetOr(0.0)
  {
    var v := lrOption.GetOr(0.0);
    assert Processed(g, lrOption) == Kernels.Product2(g, Filled(Shape(g), v));
    ScaledByFilled(g, v);
  }

  lemma ScaledByFilled(g: NArr, v: real)
    ensures Kernels.Product2(g, Filled(Shape(g), v)).Ok? <==> Rect(g)
    ensures Kernels.Product2(g, Filled(Shape(g), v)).Ok? ==>
              var p := Kernels.Product2(g, Filled(Shape(g), v)).value;
              SameShape(g, p) && |Flatten(p)| == |Flatten(g)| &&
              forall k :: 0 <= k < |Flatten(g)| ==> Flatten(p)[k] == Flatten(g)[k] * v
  {
    var f := Filled(Shape(g), v);
    FilledOfShape(g, v);
    if Rect(g) {
      SameShapeCongruent(g, f);
      assert Kernels.Product2(g, f) == Ok(ZipWith(g, f, Kernels.Times));
      TimesUniform(g, f, v);
      MapLeavesFlatten(g, ScaleBy(v));
    }
  }

  /** Multiplication by v, as a leaf map. */
  function ScaleBy(v: real): real -> real
  {
    x => x * v
  }

  /** Multiplying leaf by leaf with an array whose every leaf is v scales by v. */
  lemma {:induction false} TimesUniform(a: NArr, b: NArr, v: real)
    requires Congruent(a, b) && Uniform(b, v)
    ensures ZipWith(a, b, Kernels.Times) == MapLeaves(a, ScaleBy(v))
    decreases a
  {
    match a
    case Leaf(_) =>
    case Node(s) =>
      forall i | 0 <= i < |s|
        ensures ZipWith(s[i], b.items[i], Kernels.Times) == MapLeaves(s[i], ScaleBy(v))
      {
        TimesUniform(s[i], b.items[i], v);
      }
  }

  /** Filling the shape of any array gives a rectangular array of that shape. */
  lemma {:induction false} FilledOfShape(g: NArr, v: real)
    ensures Shape(Filled(Shape(g), v)) == Shape(g) && Rect(Filled(Shape(g), v))
    decreases g
  {
    if g.Node? && |g.items| > 0 {
      FilledOfShape(g.items[0], v);
    }
  }

  /** One visit of `step`: read the gradient (the getter throws when there is
      none), store the processed gradient, then `applyGradient`. */
  function StepSlot(lrOption: Option<real>, s: Slot): (Slot, Outcome)
  {
    match s.gradient
    case None => (s, Fail(NotConnected))
    case Some(g) =>
      match Processed(g, lrOption)
      case Err(e) => (s, Fail(e))
      case Ok(p) =>
        match Kernels.Diff(s.value, p)
        case Err(e) => (Slot(s.value, Some(p)), Fail(e))
        case Ok(d) => (Slot(d, Some(p)), Pass)
  }

  /** A visit completes exactly when the gradient is set, rectangular and of
      the value's shape; the value then moves by lr times the gradient, entry
      by entry, and the handler keeps the scaled gradient. */
  lemma StepSlotSpec(lrOption: Option<real>, s: Slot)
    ensures StepSlot(lrOption, s).1.Pass? <==>
              s.gradient.Some? && Rect(s.gradient.value) && SameShape(s.value, s.gradient.value)
    ensures StepSlot(lrOption, s).1.Pass? ==>
              var r := StepSlot(lrOption, s).0;
              SameShape(r.value, s.value) && |Flatten(r.value)| == |Flatten(s.value)| &&
              (forall k :: 0 <= k < |Flatten(s.value)| ==>
                 Flatten(r.value)[k] == Flatten(s.value)[k] - lrOption.GetOr(0.0) * Flatten(s.gradient.value)[k]) &&
              r.gradient == Some(Processed(s.gradient.value, lrOption).value)
    ensures s.gradient.None? ==> StepSlot(lrOption, s) == (s, Fail(NotConnected))
  {
    if s.gradient.Some? {
      ProcessedScales(s.gradient.value, lrOption);
    }
  }

  // ---------------------------------------------------------------------------
  // All parameters

  /** The visit of each parameter on its own: a visit reads and writes only
      its own parameter, so what it does depends on that slot alone. */
  function Visits(lrOption: Option<real>, slots: seq<Slot>): (vs: seq<(Slot, Outcome)>)
    ensures |vs| == |slots| && forall i {:trigger vs[i]} :: 0 <= i < |slots| ==> vs[i] == StepSlot(lrOption, slots[i])
  {
    seq(|slots|, i requires 0 <= i < |slots| => StepSlot(lrOption, slots[i]))
  }

  /** The visits vs applied in order from parameter i on: the first visit
      that throws ends the step, leaving the later parameters as they were. */
  function Run(vs: seq<(Slot, Outcome)>, slots: seq<Slot>, i: nat): (r: (seq<Slot>, Outcome))
    requires |vs| == |slots| && i <= |slots|
    ensures |r.0| == |slots|
    decreases |slots| - i
  {
    if i == |slots| then (slots, Pass)
    else if vs[i].1.Fail? then (slots[i := vs[i].0], vs[i].1)
    else Run(vs, slots[i := vs[i].0], i + 1)
  }

  /** All the visits of one `step`, in order. */
  function StepAll(lrOption: Option<real>, slots: seq<Slot>): (r: (seq<Slot>, Outcome))
    ensures |r.0| == |slots|
  {
    Run(Visits(lrOption, slots), slots, 0)
  }

  /** The position of the first visit from `from` on that throws, or the
      length when none does. */
  function Stop(vs: seq<(Slot, Outcome)>, from: nat): (r: nat)
    requires from <= |vs|
    ensures from <= r <= |vs|
    ensures forall j :: from <= j < r ==> vs[j].1.Pass?
    ensures r < |vs| ==> vs[r].1.Fail?
    decreases |vs| - from
  {
    if from == |vs| then from
    else if vs[from].1.Fail? then from
    else Stop(vs, from + 1)
  }

  /** From i on, every parameter up to the first failing visit takes the
      result of its visit, the others keep their slots, and the run
      completes exactly when no visit throws. */
  lemma {:induction false} RunSpec(vs: seq<(Slot, Outcome)>, slots: seq<Slot>, i: nat)
    requires |vs| == |slots| && i <= |slots|
    ensures var f := Stop(vs, i);
            (forall j :: 0 <= j < |slots| ==>
               Run(vs, slots, i).0[j] == if i <= j <= f then vs[j].0 else slots[j]) &&
            Run(vs, slots, i).1 == if f == |slots| then Pass else vs[f].1
    decreases |slots| - i
  {
    if i < |slots| && vs[i].1.Pass? {
      RunSpec(vs, slots[i := vs[i].0], i + 1);
    }
  }

  /** One `step`: every parameter before the first failing one is updated,
      that one as far as it got, the rest are untouched; the step completes
      exactly when every visit does. */
  lemma StepAllSpec(lrOption: Option<real>, slots: seq<Slot>)
    ensures var f := Stop(Visits(lrOption, slots), 0);
            (forall j :: 0 <= j < |slots| ==>
               StepAll(lrOption, slots).0[j] == if j <= f then StepSlot(lrOption, slots[j]).0 else slots[j]) &&
            StepAll(lrOption, slots).1 == if f == |slots| then Pass else StepSlot(lrOption, slots[f]).1
    ensures StepAll(lrOption, slots).1.Pass? <==> forall j :: 0 <= j < |slots| ==> StepSlot(lrOption, slots[j]).1.Pass?
  {
    RunSpec(Visits(lrOption, slots), slots, 0);
  }

  // ---------------------------------------------------------------------------
  // A layout that may list a parameter more than once

  /** Every position of the layout names one of n parameters. */
  predicate InRange(ix: seq<nat>, n: nat)
  {
    forall k :: 0 <= k < |ix| ==> ix[k] < n
  }

  /** The visits of `step` in layout order from position i on, position k
      visiting parameter ix[k] as it stands by then: a parameter listed twice
      is visited twice, the second time with what the first visit left. The
      first visit that throws ends the step. */
  function RunAt(lrOption: Option<real>, ix: seq<nat>, slots: seq<Slot>, i: nat): (r: (seq<Slot>, Outcome))
    requires InRange(ix, |slots|) && i <= |ix|
    ensures |r.0| == |slots|
    decreases |ix| - i
  {
    if i == |ix| then (slots, Pass)
    else
      var v := StepSlot(lrOption, slots[ix[i]]);
      if v.1.Fail? then (slots[ix[i] := v.0], v.1)
      else RunAt(lrOption, ix, slots[ix[i] := v.0], i + 1)
  }

  /** One visit further along the layout. */
  lemma RunAtStep(lrOption: Option<real>, ix: seq<nat>, slots: seq<Slot>, i: nat)
    requires InRange(ix, |slots|) && i < |ix|
    ensures var v := StepSlot(lrOption, slots[ix[i]]);
            RunAt(lrOption, ix, slots, i) ==
              if v.1.Fail? then (slots[ix[i] := v.0], v.1) else RunAt(lrOption, ix, slots[ix[i] := v.0], i + 1)
  {
  }

  /** One `step` over the layout ix. */
  function StepAt(lrOption: Option<real>, ix: seq<nat>, slots: seq<Slot>): (r: (seq<Slot>, Outcome))
    requires InRange(ix, |slots|)
    ensures |r.0| == |slots|
  {
    RunAt(lrOption, ix, slots, 0)
  }

  /** A parameter the layout does not list from position i on keeps its slot. */
  lemma {:induction false} RunAtUnlisted(lrOption: Option<real>, ix: seq<nat>, slots: seq<Slot>, i: nat, q: nat)
    requires InRange(ix, |slots|) && i <= |ix| && q < |slots| && q !in ix[i..]
    ensures RunAt(lrOption, ix, slots, i).0[q] == slots[q]
    decreases |ix| - i
  {
    if i < |ix| {
      assert ix[i] in ix[i..];
      var v := StepSlot(lrOption, slots[ix[i]]);
      if v.1.Pass? {
        assert ix[i + 1..] == ix[i..][1..];
        RunAtUnlisted(lrOption, ix, slots[ix[i] := v.0], i + 1, q);
      }
    }
  }

  /** 0, 1, ..., n - 1: n parameters, each listed once, in order. */
  function Iota(n: nat): (r: seq<nat>)
    ensures |r| == n && forall k :: 0 <= k < n ==> r[k] == k
  {
    seq(n, k => k)
  }

  lemma {:induction false} RunAtInOrder(lrOption: Option<real>, s0: seq<Slot>, slots: seq<Slot>, i: nat)
    requires |slots| == |s0| && i <= |s0|
    requires forall k :: i <= k < |s0| ==> slots[k] == s0[k]
    ensures RunAt(lrOption, Iota(|s0|), slots, i) == Run(Visits(lrOption, s0), slots, i)
    decreases |s0| - i
  {
    if i < |s0| {
      var v := StepSlot(lrOption, slots[i]);
      assert Visits(lrOption, s0)[i] == v;
      if v.1.Pass? {
        RunAtInOrder(lrOption, s0, slots[i := v.0], i + 1);
      }
    }
  }

  /** Listed once each and in order, the parameters are stepped as StepAll
      says. */
  lemma StepAtInOrder(lrOption: Option<real>, slots: seq<Slot>)
    ensures StepAt(lrOption, Iota(|slots|), slots) == StepAll(lrOption, slots)
  {
    RunAtInOrder(lrOption, slots, slots, 0);
  }

  /** A parameter listed twice whose first visit completes is visited again
      with the gradient that visit stored, which is already scaled by lr: the
      second visit completes too, and the value moves by lr·g + lr·(g·lr). */
  lemma ListedTwice(lrOption: Option<real>, s: Slot)
    requires StepSlot(lrOption, s).1.Pass?
    ensures var r := StepAt(lrOption, [0, 0], [s]);
            var l := lrOption.GetOr(0.0);
            r.1.Pass? && SameShape(r.0[0].value, s.value) &&
            |Flatten(r.0[0].value)| == |Flatten(s.value)| &&
            forall k :: 0 <= k < |Flatten(s.value)| ==>
              Flatten(r.0[0].value)[k] ==
                Flatten(s.value)[k] - l * Flatten(s.gradient.value)[k] - l * (Flatten(s.gradient.value)[k] * l)
  {
    var s1 := StepSlot(lrOption, s).0;
    StepSlotSpec(lrOption, s);
    ProcessedScales(s.gradient.value, lrOption);
    StepSlotSpec(lrOption, s1);
    TwoVisits(lrOption, s);
  }

  /** The layout [0, 0] over one slot is two visits of it. */
  lemma TwoVisits(lrOption: Option<real>, s: Slot)
    requires StepSlot(lrOption, s).1.Pass?
    ensures StepAt(lrOption, [0, 0], [s]) ==
              ([StepSlot(lrOption, StepSlot(lrOption, s).0).0], StepSlot(lrOption, StepSlot(lrOption, s).0).1)
  {
    var s1 := StepSlot(lrOption, s).0;
    var s2 := StepSlot(lrOption, s1);
    assert [s][0 := s1] == [s1] && [s1][0 := s2.0] == [s2.0];
    assert RunAt(lrOption, [0, 0], [s2.0], 2) == ([s2.0], Pass);
    assert RunAt(lrOption, [0, 0], [s1], 1) == ([s2.0], s2.1);
  }

  // ---------------------------------------------------------------------------
  // The parameters in the heap

  /** The tensors of the entries, in insertion order. */
  function EntryTensors(es: Entries): (r: seq<Tensor>)
    ensures |r| == |es| && forall k :: 0 <= k < |es| ==> r[k] == es[k].1
  {
    seq(|es|, k requires 0 <= k < |es| => es[k].1)
  }

  /** The entries of each map, as they stand in the heap. */
  function EntriesOf(ps: seq<ParamMap>): (r: seq<Entries>)
    reads ps`entries
    ensures |r| == |ps| && forall i :: 0 <= i < |ps| ==> r[i] == ps[i].entries
  {
    if ps == [] then [] else EntriesOf(ps[..|ps| - 1]) + [ps[|ps| - 1].entries]
  }

  /** The tensors of a list of maps, map by map and entry by entry. */
  function Flat(maps: seq<Entries>): seq<Tensor>
  {
    if maps == [] then [] else EntryTensors(maps[0]) + Flat(maps[1..])
  }

  /** ts lists the tensors of maps, map by map and entry by entry: the order
      in which `step` and `zero_grad` visit them. */
  ghost predicate Laid(ts: seq<Tensor>, maps: seq<Entries>)
    decreases |maps|
  {
    if maps == [] then ts == []
    else |maps[0]| <= |ts| && ts[..|maps[0]|] == EntryTensors(maps[0]) && Laid(ts[|maps[0]|..], maps[1..])
  }

  lemma {:induction false} FlatLaid(maps: seq<Entries>)
    ensures Laid(Flat(maps), maps)
    decreases |maps|
  {
    if maps != [] {
      FlatLaid(maps[1..]);
      var n := |maps[0]|;
      assert Flat(maps)[..n] == EntryTensors(maps[0]);
      assert Flat(maps)[n..] == Flat(maps[1..]);
    }
  }

  /** One map further along the listing. */
  lemma LaidStep(ts: seq<Tensor>, maps: seq<Entries>, p: nat, m: nat)
    requires p <= |ts| && m < |maps| && Laid(ts[p..], maps[m..])
    ensures LaidAt(ts, p, maps[m])
    ensures Laid(ts[p + |maps[m]|..], maps[m + 1..])
  {
    assert maps[m..][1..] == maps[m + 1..];
    assert ts[p..][|maps[m]|..] == ts[p + |maps[m]|..];
    var es := maps[m];
    forall k | 0 <= k < |es|
      ensures es[k].1 == ts[p + k]
    {
      assert ts[p..][..|es|][k] == ts[p + k];
    }
  }

  /** The entries es sit in the listing ts from position p0 on. */
  ghost predicate LaidAt(ts: seq<Tensor>, p0: nat, es: Entries)
  {
    p0 + |es| <= |ts| && forall k :: 0 <= k < |es| ==> es[k].1 == ts[p0 + k]
  }

  /** The tensor has a handler of its own that no operation has used. */
  ghost predicate Cleared(t: Tensor)
    reads t, t.handler
  {
    t.handler.tensor == t && t.handler.Untouched()
  }

  /** The slots of the tensors ts, whose handlers are hs, in the current heap. */
  function SlotsOf(ts: seq<Tensor>, hs: seq<GradientHandler>): (r: seq<Slot>)
    requires |ts| == |hs|
    reads ts`value, hs`gradient
    ensures |r| == |ts| && forall i :: 0 <= i < |ts| ==> r[i] == Slot(ts[i].value, hs[i].gradient)
  {
    if ts == [] then []
    else
      var n := |ts| - 1;
      SlotsOf(ts[..n], hs[..n]) + [Slot(ts[n].value, hs[n].gradient)]
  }

  /** The slots a Holds invariant keeps are the slots of the heap. */
  lemma HeldSlots(ts: seq<Tensor>, hs: seq<GradientHandler>, cur: seq<Slot>)
    requires Holds(ts, hs, cur)
    ensures SlotsOf(ts, hs) == cur
  {
  }

  /** No tensor is listed twice. */
  ghost predicate Distinct(ts: seq<Tensor>)
  {
    forall i, j :: 0 <= i < j < |ts| ==> ts[i] != ts[j]
  }

  /** hs are the handlers of ts, and each handler belongs to its tensor. */
  ghost predicate Linked(ts: seq<Tensor>, hs: seq<GradientHandler>)
    reads ts`handler, hs`tensor
  {
    |ts| == |hs| && forall i :: 0 <= i < |ts| ==> ts[i].handler == hs[i] && hs[i].tensor == ts[i]
  }

  /** cur are the slots of ts and hs in the current heap. */
  ghost predicate Holds(ts: seq<Tensor>, hs: seq<GradientHandler>, cur: seq<Slot>)
    reads ts`value, hs`gradient
  {
    |ts| == |hs| == |cur| && forall i :: 0 <= i < |ts| ==> Slot(ts[i].value, hs[i].gradient) == cur[i]
  }

  /** Position k of the layout ts holds the tensor us[ix[k]]. */
  ghost predicate Indexes(ts: seq<Tensor>, us: seq<Tensor>, ix: seq<nat>)
  {
    |ix| == |ts| && InRange(ix, |us|) && forall k :: 0 <= k < |ts| ==> ts[k] == us[ix[k]]
  }

  /** Every layout is some list of distinct tensors read through an index. */
  lemma {:induction false} Dedup(ts: seq<Tensor>) returns (us: seq<Tensor>, ix: seq<nat>)
    ensures Distinct(us) && Indexes(ts, us, ix)
    decreases |ts|
  {
    if ts == [] {
      return [], [];
    }
    var n := |ts| - 1;
    var us', ix' := Dedup(ts[..n]);
    if ts[n] in us' {
      var j :| 0 <= j < |us'| && us'[j] == ts[n];
      us, ix := us', ix' + [j];
    } else {
      us, ix := us' + [ts[n]], ix' + [|us'|];
    }
  }

  // ---------------------------------------------------------------------------
  // The learning rate

  function Max(a: real, b: real): real
  {
    if a >= b then a else b
  }

  /** `lr := Math.max(minLr, lr - lr * decay)`; None stands for NaN, which
      `Math.max` returns when either argument is NaN. */
  function Decayed(lr: Option<real>, minLr: Option<real>, decay: real): Option<real>
  {
    if lr.Some? && minLr.Some? then Some(Max(minLr.value, lr.value - lr.value * decay)) else None
  }

  /** The decayed rate is never below minLr, and never above the rate it
      came from when that rate is at least minLr and not negative and
      0 <= decay. Without an lr option minLr is NaN and so is every later rate. */
  lemma DecayedBounds(lr: Option<real>, minLr: Option<real>, decay: real)
    ensures Decayed(lr, minLr, decay).Some? <==> lr.Some? && minLr.Some?
    ensures Decayed(lr, minLr, decay).Some? ==> Decayed(lr, minLr, decay).value >= minLr.value
    ensures lr.Some? && minLr.Some? && 0.0 <= decay && lr.value >= 0.0 && lr.value >= minLr.value ==>
              Decayed(lr, minLr, decay).value <= lr.value
  {
    if lr.Some? && minLr.Some? && 0.0 <= decay && lr.value >= 0.0 {
      assert lr.value * decay >= 0.0;
    }
  }

  /** One decay: `lr - lr * decay`. */
  function Shrunk(x: real, decay: real): real
  {
    x - x * decay
  }

  /** The rate after n completed steps from lr, all rates being numbers. */
  function DecayedN(lr: real, minLr: real, decay: real, n: nat): real
  {
    if n == 0 then lr else Max(minLr, Shrunk(DecayedN(lr, minLr, decay, n - 1), decay))
  }

  /** DecayedN is n successive Decayed updates. */
  lemma DecayedStep(lr: real, minLr: real, decay: real, n: nat)
    ensures Decayed(Some(DecayedN(lr, minLr, decay, n)), Some(minLr), decay) == Some(DecayedN(lr, minLr, decay, n + 1))
  {
    assert DecayedN(lr, minLr, decay, n + 1) == Max(minLr, Shrunk(DecayedN(lr, minLr, decay, n), decay));
  }

  function Pow(x: real, n: nat): real
  {
    if n == 0 then 1.0 else x * Pow(x, n - 1)
  }

  lemma {:induction false} PowUnit(x: real, n: nat)
    requires 0.0 <= x <= 1.0
    ensures 0.0 <= Pow(x, n) <= 1.0
  {
    if n > 0 {
      PowUnit(x, n - 1);
      Scale(Pow(x, n - 1), x);
    }
  }

  lemma Scale(a: real, f: real)
    requires a >= 0.0 && 0.0 <= f <= 1.0
    ensures 0.0 <= a * f <= a
  {
  }

  lemma ShrunkIsScale(x: real, decay: real)
    ensures Shrunk(x, decay) == x * (1.0 - decay)
  {
  }

  /** Geometric decay floored at minLr: max(minLr, lr·(1 − decay)^n). */
  function Geometric(lr: real, minLr: real, decay: real, n: nat): real
  {
    Max(minLr, lr * Pow(1.0 - decay, n))
  }

  /** From lr >= minLr >= 0 with 0 <= decay <= 1, the rate after n completed
      steps is max(minLr, lr·(1 − decay)^n). */
  lemma {:induction false} DecayedClosedForm(lr: real, minLr: real, decay: real, n: nat)
    requires 0.0 <= minLr <= lr && 0.0 <= decay <= 1.0
    ensures DecayedN(lr, minLr, decay, n) == Geometric(lr, minLr, decay, n)
  {
    if n > 0 {
      DecayedClosedForm(lr, minLr, decay, n - 1);
      GeometricStep(lr, minLr, decay, n);
    }
  }

  /** The floored geometric sequence obeys the update rule of `step`. */
  lemma GeometricStep(lr: real, minLr: real, decay: real, n: nat)
    requires 0.0 <= minLr <= lr && 0.0 <= decay <= 1.0 && n > 0
    ensures Geometric(lr, minLr, decay, n) == Max(minLr, Shrunk(Geometric(lr, minLr, decay, n - 1), decay))
  {
    var f := 1.0 - decay;
    var q := Pow(f, n - 1);
    var x := lr * q;
    PowUnit(f, n - 1);
    Scale(lr, q);
    assert lr * Pow(f, n) == x * f by {
      assert Pow(f, n) == f * q;
    }
    assert Geometric(lr, minLr, decay, n) == Max(minLr, x * f);
    assert Geometric(lr, minLr, decay, n - 1) == Max(minLr, x);
    if x < minLr {
      ShrunkIsScale(minLr, decay);
      Scale(minLr, f);
      Scale(x, f);
      assert Max(minLr, Shrunk(minLr, decay)) == minLr == Max(minLr, x * f);
    } else {
      ShrunkIsScale(x, decay);
    }
  }

  // ---------------------------------------------------------------------------
  // SGD

  class SGD {
    /** `_parameters`: the maps passed at construction, shared with the model. */
    const parameters: seq<ParamMap>
    /** `extraArgs.lr`: the lr option, the only scale `processGradient` uses. */
    const lrOption: Option<real>
    /** `stepNum`: the number of completed steps. */
    var stepNum: nat
    /** `lr`, decayed after every completed step; None stands for NaN. */
    var lr: Option<real>
    /** `minLr`: the lr option times 1e-2, NaN (None) without one. */
    const minLr: Option<real>
    const decay: real

    /** `new SGD(parameters, {lr, decay})`: lr defaults to 1e-4 and decay to
        1e-2; a minLr option is not read. */
    constructor (ps: seq<ParamMap>, lrOpt: Option<real>, decayOpt: Option<real>)
      ensures parameters == ps && lrOption == lrOpt && stepNum == 0
      ensures lr == Some(lrOpt.GetOr(0.0001))
      ensures minLr == if lrOpt.Some? then Some(lrOpt.value * 0.01) else None
      ensures decay == decayOpt.GetOr(0.01)
    {
      parameters := ps;
      lrOption := lrOpt;
      stepNum := 0;
      lr := Some(lrOpt.GetOr(0.0001));
      minLr := if lrOpt.Some? then Some(lrOpt.value * 0.01) else None;
      decay := decayOpt.GetOr(0.01);
    }

    /** The `parameters` getter. */
    method GetParameters() returns (ps: seq<ParamMap>)
      ensures ps == parameters
    {
      ps := parameters;
    }

    /** `processGradient(gradient, step, kwargs)`: a new tensor holding the
        processed gradient. */
    method ProcessGradient(g: NArr) returns (r: Result<Tensor>)
      ensures ValueOf(r) == Processed(g, lrOption)
      ensures r.Ok? ==> fresh(r.value)
    {
      var p := Processed(g, lrOption);
      if p.Err? {
        return Err(p.error);
      }
      var t := new Tensor(p.value);
      r := Ok(t);
    }

    /** One iteration of the inner loop of `step` on tensor t. */
    method StepTensor(t: Tensor) returns (o: Outcome)
      requires t.handler.tensor == t
      modifies t`value, t.handler`gradient
      ensures Slot(t.value, t.handler.gradient) == StepSlot(lrOption, old(Slot(t.value, t.handler.gradient))).0
      ensures o == StepSlot(lrOption, old(Slot(t.value, t.handler.gradient))).1
    {
      var h := t.handler;
      var g := h.GetGradient();
      if g.Err? {
        return Fail(g.error);
      }
      var pg := ProcessGradient(g.value);
      if pg.Err? {
        return Fail(pg.error);
      }
      h.SetGradient(pg.value);
      o := h.ApplyGradient();
    }

    /** StepTensor on the tensor at position p of the layout ts, as one
        step of RunAt on the slots cur of the distinct tensors us. */
    method Visit(t: Tensor, ghost ts: seq<Tensor>, ghost us: seq<Tensor>, ghost hs: seq<GradientHandler>,
                 ghost ix: seq<nat>, ghost p: nat, ghost cur: seq<Slot>)
        returns (o: Outcome, ghost cur': seq<Slot>)
      requires Distinct(us) && Linked(us, hs) && Holds(us, hs, cur) && Indexes(ts, us, ix)
      requires p < |ts| && ts[p] == t
      modifies t`value, t.handler`gradient
      ensures Holds(us, hs, cur')
      ensures RunAt(lrOption, ix, cur, p) == if o.Pass? then RunAt(lrOption, ix, cur', p + 1) else (cur', o)
    {
      ghost var q := ix[p];
      o := StepTensor(t);
      cur' := cur[q := StepSlot(lrOption, cur[q]).0];
      forall i | 0 <= i < |us| && i != q
        ensures Slot(us[i].value, hs[i].gradient) == cur'[i]
      {
        assert us[i] != t && hs[i] != hs[q];
      }
      RunAtStep(lrOption, ix, cur, p);
    }

    /** The inner loop of `step` over the entries es of one map, which sit
        in the layout ts from position p0 on; ts reads the distinct tensors
        us (handlers hs) through ix, and cur are their slots on entry. */
    method StepEntries(es: Entries, ghost ts: seq<Tensor>, ghost us: seq<Tensor>, ghost hs: seq<GradientHandler>,
                       ghost ix: seq<nat>, ghost p0: nat, ghost cur: seq<Slot>)
        returns (o: Outcome, ghost p: nat, ghost cur': seq<Slot>)
      requires Distinct(us) && Linked(us, hs) && Holds(us, hs, cur) && Indexes(ts, us, ix)
      requires LaidAt(ts, p0, es)
      modifies us`value, hs`gradient
      ensures Holds(us, hs, cur')
      ensures p0 <= p <= p0 + |es| && (o.Pass? ==> p == p0 + |es|)
      ensures RunAt(lrOption, ix, cur, p0) == if o.Pass? then RunAt(lrOption, ix, cur', p) else (cur', o)
    {
      o, p, cur' := Pass, p0, cur;
      var k := 0;
      while k < |es| && o.Pass?
        invariant 0 <= k <= |es| && p == p0 + k
        invariant Holds(us, hs, cur')
        invariant RunAt(lrOption, ix, cur, p0) == if o.Pass? then RunAt(lrOption, ix, cur', p) else (cur', o)
      {
        var t := es[k].1;
        o, cur' := Visit(t, ts, us, hs, ix, p, cur');
        k, p := k + 1, p + 1;
      }
    }

    /** The outer loop of `step` over the maps, laid out as ts, which reads
        the distinct tensors us (handlers hs) through ix; s0 are the slots of
        us on entry. */
    method StepMaps(maps: seq<Entries>, ghost ts: seq<Tensor>, ghost us: seq<Tensor>, ghost hs: seq<GradientHandler>,
                    ghost ix: seq<nat>, ghost s0: seq<Slot>)
        returns (o: Outcome, ghost cur: seq<Slot>)
      requires Laid(ts, maps) && Distinct(us) && Linked(us, hs) && Indexes(ts, us, ix) && Holds(us, hs, s0)
      modifies us`value, hs`gradient
      ensures Holds(us, hs, cur) && (cur, o) == StepAt(lrOption, ix, s0)
    {
      ghost var p: nat := 0;
      cur := s0;
      o := Pass;
      var m := 0;
      while m < |maps| && o.Pass?
        invariant 0 <= m <= |maps| && p <= |ts|
        invariant o.Pass? ==> Laid(ts[p..], maps[m..])
        invariant Holds(us, hs, cur)
        invariant StepAt(lrOption, ix, s0) == if o.Pass? then RunAt(lrOption, ix, cur, p) else (cur, o)
      {
        o, p, cur := StepMap(maps, m, ts, us, hs, ix, p, cur);
        m := m + 1;
      }
      if o.Pass? {
        assert maps[m..] == [];
        assert ts[p..] == [];
      }
    }

    /** One map of `step`: its tensors in order, from position p of the layout. */
    method StepMap(maps: seq<Entries>, m: nat, ghost ts: seq<Tensor>, ghost us: seq<Tensor>,
                   ghost hs: seq<GradientHandler>, ghost ix: seq<nat>, ghost p: nat, ghost cur: seq<Slot>)
        returns (o: Outcome, ghost p': nat, ghost cur': seq<Slot>)
      requires m < |maps| && p <= |ts| && Laid(ts[p..], maps[m..])
      requires Distinct(us) && Linked(us, hs) && Indexes(ts, us, ix) && Holds(us, hs, cur)
      modifies us`value, hs`gradient
      ensures p <= p' <= |ts| && Holds(us, hs, cur')
      ensures o.Pass? ==> Laid(ts[p'..], maps[m + 1..])
      ensures RunAt(lrOption, ix, cur, p) == if o.Pass? then RunAt(lrOption, ix, cur', p') else (cur', o)
    {
      LaidStep(ts, maps, p, m);
      o, p', cur' := StepEntries(maps[m], ts, us, hs, ix, p, cur);
    }

    /** `Optimiser.step`: every tensor of every map in order, then one more
        completed step; a throw ends it early without counting it. The ghost
        ts lists the tensors of the maps, a tensor held twice appearing
        twice; it reads the distinct tensors us, with handlers hs, through
        ix (`Dedup` gives such us and ix for every ts). */
    method BaseStep(ghost ts: seq<Tensor>, ghost us: seq<Tensor>, ghost hs: seq<GradientHandler>, ghost ix: seq<nat>)
        returns (o: Outcome)
      requires Laid(ts, EntriesOf(parameters)) && Distinct(us) && Linked(us, hs) && Indexes(ts, us, ix)
      modifies us`value, hs`gradient, this`stepNum
      ensures SlotsOf(us, hs) == StepAt(lrOption, ix, old(SlotsOf(us, hs))).0
      ensures o == StepAt(lrOption, ix, old(SlotsOf(us, hs))).1
      ensures stepNum == old(stepNum) + if o.Pass? then 1 else 0
    {
      ghost var cur;
      o, cur := StepMaps(EntriesOf(parameters), ts, us, hs, ix, SlotsOf(us, hs));
      if o.Pass? {
        stepNum := stepNum + 1;
      }
      HeldSlots(us, hs, cur);
    }

    /** `SGD.step`: the base step, then the decay of `lr`. */
    method Step(ghost ts: seq<Tensor>, ghost us: seq<Tensor>, ghost hs: seq<GradientHandler>, ghost ix: seq<nat>)
        returns (o: Outcome)
      requires Laid(ts, EntriesOf(parameters)) && Distinct(us) && Linked(us, hs) && Indexes(ts, us, ix)
      modifies us`value, hs`gradient, this`stepNum, this`lr
      ensures SlotsOf(us, hs) == StepAt(lrOption, ix, old(SlotsOf(us, hs))).0
      ensures o == StepAt(lrOption, ix, old(SlotsOf(us, hs))).1
      ensures stepNum == old(stepNum) + if o.Pass? then 1 else 0
      ensures lr == if o.Pass? then Decayed(old(lr), minLr, decay) else old(lr)
    {
      o := BaseStep(ts, us, hs, ix);
      ghost var after := SlotsOf(us, hs);
      if o.Pass? {
        lr := Decayed(lr, minLr, decay);
      }
      assert SlotsOf(us, hs) == after;
    }

    /** The inner loop of `zero_grad` over the entries es of one map, which
        sit in ts from position p0 on. */
    method ZeroEntries(es: Entries, ghost ts: seq<Tensor>, ghost p0: nat)
      requires LaidAt(ts, p0, es)
      modifies ts`handler
      ensures forall j :: p0 <= j < p0 + |es| ==> fresh(ts[j].handler) && Cleared(ts[j])
      ensures forall j :: 0 <= j < |ts| ==> ts[j].handler == old(ts[j].handler) || (fresh(ts[j].handler) && Cleared(ts[j]))
    {
      for k := 0 to |es|
        invariant forall j :: p0 <= j < p0 + k ==> fresh(ts[j].handler) && Cleared(ts[j])
        invariant forall j :: 0 <= j < |ts| ==> ts[j].handler == old(ts[j].handler) || (fresh(ts[j].handler) && Cleared(ts[j]))
      {
        var t := es[k].1;
        t.handler := new GradientHandler(t);
      }
    }

    /** `zero_grad`: every tensor of every map gets a new handler of its own;
        values are untouched. */
    method ZeroGrad(ghost ts: seq<Tensor>)
      requires Laid(ts, EntriesOf(parameters))
      modifies ts`handler
      ensures forall i :: 0 <= i < |ts| ==> fresh(ts[i].handler) && Cleared(ts[i])
    {
      var maps := EntriesOf(parameters);
      ghost var p: nat := 0;
      var m := 0;
      while m < |maps|
        invariant 0 <= m <= |maps| && p <= |ts| && Laid(ts[p..], maps[m..])
        invariant forall j :: 0 <= j < p ==> fresh(ts[j].handler)
        invariant forall j :: 0 <= j < p ==> Cleared(ts[j])
      {
        LaidStep(ts, maps, p, m);
        ZeroEntries(maps[m], ts, p);
        p := p + |maps[m]|;
        m := m + 1;
      }
      assert ts[p..] == [];
    }
  }
}
