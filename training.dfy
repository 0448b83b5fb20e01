/** `Trainer`: one training loop is a fixed sequence of calls into the
    network, the loss, the optimiser and the metric; `train` schedules one
    loop per sample. The calls themselves belong to other modules, so the
    trainer is modelled by the record of calls it makes. */
module Training {

  import opened Results
  import opened NArrays
  import opened Metrics

  /** An element of `y` as `train` reads it: `y[i]`, or undefined past the end. */
  datatype Label = Missing | Given(a: NArr)

  /** The calls a trainer makes, in the order it makes them. */
  datatype Event =
    | NetForward(input: NArr)                         // this.net.forward([new Tensor(x)])
    | LossCall(expected: NArr)                        // this.loss([out, expected])
    | MeanCall                                        // new Mean()([loss])
    | BackwardCall                                    // loss.backward()
    | StepCall                                        // this.optimiser.step()
    | ZeroGradCall                                    // this.optimiser.zero_grad()
    | LoopDone(loopNo: int, metric: real)             // this.onLoopDone(..., loopNo, metric)
    | Scheduled(input: NArr, target: Label, index: nat) // setTimeout(() => this.loop(inp, exp, i), 0)
    | TrainingDone                                    // this.onTrainingDone(this.net)

  /** The calls of `loop` up to and including `zero_grad`. */
  function Stages(x: NArr, y: NArr): (r: seq<Event>)
  {
    [NetForward(x), LossCall(y), MeanCall, BackwardCall, StepCall, ZeroGradCall]
  }

  /** The six calls of `loop` before the infinity check. Each belongs to
      another module and may throw: the network's forward, the loss, the
      mean, the backward pass, the optimiser's step and zero_grad. */
  datatype Stage = NetForwardStage | LossStage | MeanStage | BackwardStage | StepStage | ZeroGradStage

  /** The position of a stage's call in `loop`. */
  function Order(s: Stage): (r: nat)
    ensures r < 6
  {
    match s
    case NetForwardStage => 0
    case LossStage => 1
    case MeanStage => 2
    case BackwardStage => 3
    case StepStage => 4
    case ZeroGradStage => 5
  }

  /** Whether the call of stage s throws, given the stage that throws first
      (none when every call returns). */
  predicate Throws(thrown: Option<(Stage, Error)>, s: Stage)
  {
    thrown.Some? && thrown.value.0 == s
  }

  /** The outcome of `loop`: a throwing call ends it with that call's error;
      then the infinity check, then the metric, which must exist. */
  function LoopOutcome(thrown: Option<(Stage, Error)>, lossInfinite: bool, hasMetric: bool): Outcome
  {
    if thrown.Some? then Fail(thrown.value.1)
    else if lossInfinite then Fail(InfinitySeen)
    else if !hasMetric then Fail(Crash)
    else Pass
  }

  /** The record of one `loop`: the calls up to and including the first that
      throws, or all six followed by `onLoopDone` when the loss is finite and
      the metric reports; `report` is the value `calculateMetric` returns. */
  function LoopTrace(x: NArr, y: NArr, loopNo: int, thrown: Option<(Stage, Error)>, lossInfinite: bool,
                     report: Option<real>): seq<Event>
  {
    if thrown.Some? then Stages(x, y)[..Order(thrown.value.0) + 1]
    else Stages(x, y) + if lossInfinite || report.None? then [] else [LoopDone(loopNo, report.value)]
  }

  /** The calls of `loop` are made in source order, as a prefix of the six
      stages: a throwing call is the last one made, so the optimiser steps
      and clears the gradients only when the forward pass, the loss, the
      mean and the backward pass all returned. The loop reports to
      `onLoopDone` exactly when it completes, and then as its last call. */
  lemma LoopOrder(x: NArr, y: NArr, loopNo: int, thrown: Option<(Stage, Error)>, lossInfinite: bool,
                  report: Option<real>)
    ensures var t := LoopTrace(x, y, loopNo, thrown, lossInfinite, report);
            var n := if |t| < 6 then |t| else 6;
            t[..n] == Stages(x, y)[..n] &&
            (thrown.Some? ==> |t| == Order(thrown.value.0) + 1) &&
            (thrown.None? ==> |t| >= 6) &&
            (StepCall in t <==> thrown.None? || Order(thrown.value.0) >= 4) &&
            (LoopOutcome(thrown, lossInfinite, report.Some?).Pass? <==> |t| == 7 && t[6] == LoopDone(loopNo, report.value)) &&
            forall i :: 0 <= i < n ==> !t[i].LoopDone?
  {
    var t := LoopTrace(x, y, loopNo, thrown, lossInfinite, report);
    var st := Stages(x, y);
    if thrown.Some? {
      var k := Order(thrown.value.0);
      assert t == st[..k + 1];
      assert StepCall in t <==> k >= 4 by {
        if k >= 4 {
          assert t[4] == StepCall;
        } else {
          assert forall i :: 0 <= i < |t| ==> t[i] == st[i] && st[i] != StepCall;
        }
      }
    } else {
      assert t[4] == StepCall;
    }
  }

  /** The trace of a loop whose call at stage s throws ends with that call. */
  lemma ThrownTrace(x: NArr, y: NArr, loopNo: int, thrown: Option<(Stage, Error)>, lossInfinite: bool,
                    report: Option<real>, s: Stage)
    requires Throws(thrown, s)
    ensures LoopTrace(x, y, loopNo, thrown, lossInfinite, report) == Stages(x, y)[..Order(s) + 1]
    ensures LoopOutcome(thrown, lossInfinite, report.Some?) == Fail(thrown.value.1)
  {
  }

  // ---------------------------------------------------------------------------
  // One-hot labels

  /** The property key `oneHot[exp]` writes, when it is a number: the label
      itself, or the one number an array of one element prints as. Other
      arrays print with commas or as the empty string, and undefined as
      "undefined". */
  function Key(l: Label): Option<real>
  {
    match l
    case Missing => None
    case Given(a) => KeyOf(a)
  }

  function KeyOf(a: NArr): Option<real>
  {
    match a
    case Leaf(k) => Some(k)
    case Node(s) => if |s| == 1 then KeyOf(s[0]) else None
  }

  /** A key that names an array element: an integer from 0 below 2^32 - 1. */
  predicate ArrayIndex(k: real)
  {
    k == k.Floor as real && 0.0 <= k < 4294967295.0
  }

  function Row(hot: int): seq<NArr>
  {
    seq(10, j requires 0 <= j < 10 => Leaf(if j == hot then 0.8 else 0.0))
  }

  /** `oneHot = new Array(10).fill(0); oneHot[exp] = 0.8; exp = [oneHot]`.
      A key outside the array's index range only adds a property and leaves
      ten zeros; an index of 10 or more would leave holes in a longer array,
      which the model does not represent (None). */
  function OneHot(l: Label): Option<NArr>
  {
    match Key(l)
    case Some(k) =>
      if ArrayIndex(k) then
        if k < 10.0 then Some(Node([Node(Row(k.Floor))])) else None
      else Some(Node([Node(Row(-1))]))
    case None => Some(Node([Node(Row(-1))]))
  }

  /** One-hot labels are one row of ten; a label that is no array index gives
      ten zeros, and only an index of 10 or more is outside the model. */
  lemma OneHotSpec(l: Label)
    ensures OneHot(l).Some? ==> Shape(OneHot(l).value) == [1, 10]
    ensures Key(l).None? || !ArrayIndex(Key(l).value) ==>
              OneHot(l) == Some(Node([Node(seq(10, _ => Leaf(0.0)))]))
    ensures OneHot(l).None? <==> Key(l).Some? && ArrayIndex(Key(l).value) && Key(l).value >= 10.0
  {
    assert Row(-1) == seq(10, _ => Leaf(0.0));
  }

  /** A class label c below 10 becomes [v] with ten entries, 0.8 at c and 0 elsewhere. */
  lemma OneHotClass(c: nat)
    requires c < 10
    ensures OneHot(Given(Leaf(c as real))) ==
              Some(Node([Node(seq(10, j requires 0 <= j < 10 => Leaf(if j == c then 0.8 else 0.0)))]))
  {
    assert (c as real).Floor == c;
  }

  /** The label `train` hands to loop i. */
  function Encoded(ys: seq<NArr>, i: nat, oneHotEncode: bool): Option<Label>
  {
    var l := if i < |ys| then Given(ys[i]) else Missing;
    if !oneHotEncode then Some(l)
    else match OneHot(l)
      case Some(v) => Some(Given(v))
      case None => None
  }

  /** The first sample at or after i whose label the model cannot encode. */
  function FirstHole(n: nat, ys: seq<NArr>, oneHotEncode: bool, i: nat): (r: nat)
    requires i <= n
    ensures i <= r <= n && (r < n ==> Encoded(ys, r, oneHotEncode).None?)
    ensures forall j :: i <= j < r ==> Encoded(ys, j, oneHotEncode).Some?
    decreases n - i
  {
    if i == n || Encoded(ys, i, oneHotEncode).None? then i
    else FirstHole(n, ys, oneHotEncode, i + 1)
  }

  /** What `train(x, y, oneHotEncode)` schedules: loop i on x[i] and its label,
      for every i in order, then `onTrainingDone`. */
  function Plan(xs: seq<NArr>, ys: seq<NArr>, oneHotEncode: bool): (r: (seq<Event>, Outcome))
  {
    var h := FirstHole(|xs|, ys, oneHotEncode, 0);
    var loops := seq(h, i requires 0 <= i < h => Scheduled(xs[i], Encoded(ys, i, oneHotEncode).value, i));
    if h == |xs| then (loops + [TrainingDone], Pass) else (loops, Fail(NonNumeric))
  }

  /** Every sample is scheduled exactly once, in index order, with its input
      and its (encoded) label, and training is declared done after all of
      them; without one-hot encoding labels pass unchanged. */
  lemma PlanSpec(xs: seq<NArr>, ys: seq<NArr>, oneHotEncode: bool)
    ensures var (events, o) := Plan(xs, ys, oneHotEncode);
            (o.Pass? <==> forall i :: 0 <= i < |xs| ==> Encoded(ys, i, oneHotEncode).Some?) &&
            (o.Pass? ==> (|events| == |xs| + 1 && events[|xs|] == TrainingDone &&
               forall i :: 0 <= i < |xs| ==> events[i] == Scheduled(xs[i], Encoded(ys, i, oneHotEncode).value, i)))
    ensures !oneHotEncode ==> (Plan(xs, ys, false).1.Pass? &&
              forall i :: 0 <= i < |xs| && i < |ys| ==> Plan(xs, ys, false).0[i] == Scheduled(xs[i], Given(ys[i]), i))
  {
    var h := FirstHole(|xs|, ys, oneHotEncode, 0);
    if h < |xs| {
      assert Encoded(ys, h, oneHotEncode).None?;
    }
  }

  // ---------------------------------------------------------------------------
  // The trainer

  class Trainer {
    const metric: Accuracy?
    /** The calls made so far. */
    var log: seq<Event>

    /** `new Trainer(net, optimiser, loss, metric)`; the network, optimiser and
        loss are the other modules' objects and are not held here. */
    constructor (metric: Accuracy?)
      ensures this.metric == metric && log == []
    {
      this.metric := metric;
      log := [];
    }

    /** `loop(x, y, loopNo)`, given the network's output `out`, the first of
        the six calls that throws (none when all return) and whether the
        mean loss compares equal to Infinity. */
    method Loop(x: NArr, y: NArr, loopNo: int, out: NArr, thrown: Option<(Stage, Error)>, lossInfinite: bool)
        returns (o: Outcome)
      modifies this`log, metric
      ensures o == LoopOutcome(thrown, lossInfinite, metric != null)
      ensures log == old(log) + LoopTrace(x, y, loopNo, thrown, lossInfinite,
                                          if metric == null then None else Some(old(metric.corrects) as real / 100.0))
      ensures metric != null && thrown.None? && !lossInfinite ==>
                metric.corrects == Next(old(metric.corrects), metric.afterIterations, loopNo, Hit(y, out))
      ensures metric != null && (thrown.Some? || lossInfinite) ==> metric.corrects == old(metric.corrects)
    {
      ghost var st := Stages(x, y);
      ghost var log0 := log;
      ghost var report := if metric == null then None else Some(metric.corrects as real / 100.0);
      o := Perform(NetForward(x), NetForwardStage, thrown);
      assert log == log0 + st[..1];
      if o.Fail? {
        ThrownTrace(x, y, loopNo, thrown, lossInfinite, report, NetForwardStage);
        return;
      }
      o := Perform(LossCall(y), LossStage, thrown);
      assert log == log0 + st[..2];
      if o.Fail? {
        ThrownTrace(x, y, loopNo, thrown, lossInfinite, report, LossStage);
        return;
      }
      o := Perform(MeanCall, MeanStage, thrown);
      assert log == log0 + st[..3];
      if o.Fail? {
        ThrownTrace(x, y, loopNo, thrown, lossInfinite, report, MeanStage);
        return;
      }
      o := Perform(BackwardCall, BackwardStage, thrown);
      assert log == log0 + st[..4];
      if o.Fail? {
        ThrownTrace(x, y, loopNo, thrown, lossInfinite, report, BackwardStage);
        return;
      }
      o := Perform(StepCall, StepStage, thrown);
      assert log == log0 + st[..5];
      if o.Fail? {
        ThrownTrace(x, y, loopNo, thrown, lossInfinite, report, StepStage);
        return;
      }
      o := Perform(ZeroGradCall, ZeroGradStage, thrown);
      assert log == log0 + st[..6];
      if o.Fail? {
        ThrownTrace(x, y, loopNo, thrown, lossInfinite, report, ZeroGradStage);
        return;
      }
      assert thrown.None? && st[..6] == st;
      if lossInfinite {
        return Fail(InfinitySeen);
      }
      var m := CalculateMetric(y, out, loopNo);
      if m.None? {
        return Fail(Crash);
      }
      log := log + [LoopDone(loopNo, m.value)];
      o := Pass;
    }

    /** One call of `loop`: it is made, and it throws when it is the stage
        that throws. */
    method Perform(e: Event, s: Stage, thrown: Option<(Stage, Error)>) returns (o: Outcome)
      modifies this`log
      ensures log == old(log) + [e]
      ensures o == if Throws(thrown, s) then Fail(thrown.value.1) else Pass
    {
      log := log + [e];
      o := if Throws(thrown, s) then Fail(thrown.value.1) else Pass;
    }

    /** `calculateMetric(expected, out, loopNo)`: the metric's `forward`; a
        null metric fails. */
    method CalculateMetric(expected: NArr, out: NArr, loopNo: int) returns (r: Option<real>)
      modifies metric
      ensures metric == null <==> r.None?
      ensures metric != null ==> (r == Some(old(metric.corrects) as real / 100.0) &&
                metric.corrects == Next(old(metric.corrects), metric.afterIterations, loopNo, Hit(expected, out)))
    {
      if metric == null {
        return None;
      }
      var a := metric.Forward(expected, out, loopNo);
      r := Some(a);
    }

    /** `train(x, y, oneHotEncode)`: schedule loop i for every sample, then
        report training done. */
    method Train(xs: seq<NArr>, ys: seq<NArr>, oneHotEncode: bool) returns (o: Outcome)
      modifies this`log
      ensures log == old(log) + Plan(xs, ys, oneHotEncode).0 && o == Plan(xs, ys, oneHotEncode).1
    {
      ghost var h := FirstHole(|xs|, ys, oneHotEncode, 0);
      ghost var log0 := log;
      var i := 0;
      while i < |xs|
        invariant 0 <= i <= h
        invariant log == log0 + seq(i, j requires 0 <= j < i => Scheduled(xs[j], Encoded(ys, j, oneHotEncode).value, j))
      {
        var exp := if i < |ys| then Given(ys[i]) else Missing;
        if oneHotEncode {
          var v := OneHot(exp);
          if v.None? {
            assert Encoded(ys, i, oneHotEncode).None? && i == h;
            return Fail(NonNumeric);
          }
          exp := Given(v.value);
        }
        log := log + [Scheduled(xs[i], exp, i)];
        i := i + 1;
      }
      log := log + [TrainingDone];
      o := Pass;
    }
  }
}
