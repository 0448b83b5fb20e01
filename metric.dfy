/** `Metric` and its one implementation `Accuracy`: a counter of correct
    predictions that is cleared at the start of every window of
    `afterIterations` loops and reported as a fraction of 100. */
module Metrics {

  import opened NArrays

  // ---------------------------------------------------------------------------
  // argmax

  /** `Math.max(...s)` for a non-empty list. */
  function MaxOf(s: seq<real>): (m: real)
    requires s != []
    ensures m in s && forall j :: 0 <= j < |s| ==> s[j] <= m
  {
    if |s| == 1 then s[0]
    else
      var m := MaxOf(s[1..]);
      assert forall j :: 1 <= j < |s| ==> s[j] == s[1..][j - 1];
      if s[0] >= m then s[0] else m
  }

  /** `findIndex(v => v == x)`: the first position holding x, or -1. */
  function FindIndex(s: seq<real>, x: real): (r: int)
    ensures -1 <= r < |s|
    ensures r == -1 <==> x !in s
    ensures r >= 0 ==> s[r] == x && forall j :: 0 <= j < r ==> s[j] != x
  {
    if s == [] then -1
    else if s[0] == x then 0
    else
      var r := FindIndex(s[1..], x);
      assert forall j :: 1 <= j < |s| ==> s[j] == s[1..][j - 1];
      if r == -1 then -1 else r + 1
  }

  /** `TensorUtils.argmax(arr)`: the index of the first maximum; -1 for an
      empty list, where `Math.max()` is -Infinity and no entry equals it. */
  function ArgMax(s: seq<real>): int
  {
    if s == [] then -1 else FindIndex(s, MaxOf(s))
  }

  /** ArgMax is -1 exactly on the empty list; otherwise it points at an entry
      no smaller than any other and strictly larger than every entry before it. */
  lemma ArgMaxSpec(s: seq<real>)
    ensures ArgMax(s) == -1 <==> s == []
    ensures s != [] ==>
              var r := ArgMax(s);
              0 <= r < |s| && (forall j :: 0 <= j < |s| ==> s[j] <= s[r]) &&
              (forall j :: 0 <= j < r ==> s[j] < s[r])
  {
    if s != [] {
      var m := MaxOf(s);
      var r := FindIndex(s, m);
      assert r >= 0;
      forall j | 0 <= j < r ensures s[j] < s[r] {
        assert s[j] != m && s[j] <= m;
      }
    }
  }

  /** Predictions agree when the flattened arrays (`flat(20)`) have their first
      maximum at the same index. */
  predicate Hit(actual: NArr, pred: NArr)
  {
    ArgMax(Flatten(actual)) == ArgMax(Flatten(pred))
  }

  // ---------------------------------------------------------------------------
  // The counter

  /** `loop % afterIterations == 0`. A zero period gives NaN in JavaScript,
      which equals nothing, so the counter is never cleared. A zero remainder
      means divisibility under JavaScript's truncating `%` and Dafny's
      Euclidean `%` alike. */
  predicate ResetsAt(afterIterations: int, loop: int)
  {
    afterIterations != 0 && loop % afterIterations == 0
  }

  /** The counter after one `forward` at loop `loop`: cleared first when the
      loop starts a window, then one more when the prediction was a hit. */
  function Next(corrects: nat, afterIterations: int, loop: int, hit: bool): nat
  {
    (if ResetsAt(afterIterations, loop) then 0 else corrects) + (if hit then 1 else 0)
  }

  class Accuracy {
    var corrects: nat
    const afterIterations: int

    /** `new Accuracy()`: a window of 100 loops. */
    constructor Default()
      ensures corrects == 0 && afterIterations == 100
    {
      corrects := 0;
      afterIterations := 100;
    }

    /** `new Accuracy(afterIterations)`. */
    constructor (afterIterations: int)
      ensures corrects == 0 && this.afterIterations == afterIterations
    {
      corrects := 0;
      this.afterIterations := afterIterations;
    }

    /** `reset(loop)`: clear the counter when `loop` starts a window. */
    method Reset(loop: int)
      modifies this`corrects
      ensures ResetsAt(afterIterations, loop) ==> corrects == 0
      ensures !ResetsAt(afterIterations, loop) ==> corrects == old(corrects)
    {
      if afterIterations != 0 && loop % afterIterations == 0 {
        corrects := 0;
      }
    }

    /** `forward(actual, pred, loop)`: report the count from before this call
        over the literal 100, then reset and count this prediction. */
    method Forward(actual: NArr, pred: NArr, loop: int) returns (accuracy: real)
      modifies this`corrects
      ensures accuracy == old(corrects) as real / 100.0
      ensures corrects == Next(old(corrects), afterIterations, loop, Hit(actual, pred))
    {
      accuracy := corrects as real / 100.0;
      Reset(loop);
      if ArgMax(Flatten(actual)) == ArgMax(Flatten(pred)) {
        corrects := corrects + 1;
      }
    }
  }

  // ---------------------------------------------------------------------------
  // Windows

  /** The counter after `forward` calls at loops start, start + 1, ... whose
      predictions were `hits`. */
  function After(corrects: nat, afterIterations: int, start: int, hits: seq<bool>): nat
    decreases |hits|
  {
    if hits == [] then corrects
    else After(Next(corrects, afterIterations, start, hits[0]), afterIterations, start + 1, hits[1..])
  }

  function Count(hits: seq<bool>): nat
  {
    if hits == [] then 0 else (if hits[0] then 1 else 0) + Count(hits[1..])
  }

  /** No loop from `start` to `start + n - 1` starts a window. */
  predicate Quiet(a: int, start: int, n: nat)
  {
    forall loop :: start <= loop < start + n ==> !ResetsAt(a, loop)
  }

  /** Inside a window the counter only grows, by one per hit. */
  lemma {:induction false} NoBoundary(corrects: nat, a: int, start: int, hits: seq<bool>)
    requires Quiet(a, start, |hits|)
    ensures After(corrects, a, start, hits) == corrects + Count(hits)
    decreases |hits|
  {
    if hits != [] {
      NoBoundary(Next(corrects, a, start, hits[0]), a, start + 1, hits[1..]);
    }
  }

  /** Only multiples of a positive period start a window. */
  lemma InsideWindow(a: int, b: int, j: int)
    requires a > 0 && b % a == 0 && 0 < j < a
    ensures !ResetsAt(a, b + j)
  {
    var q, q' := b / a, (b + j) / a;
    var r' := (b + j) % a;
    assert b == q * a;
    assert b + j == q' * a + r';
    var d := q - q';
    assert d * a == r' - j;
    FarFromZero(d, a);
  }

  /** A non-zero multiple of a positive number is at least that far from 0. */
  lemma FarFromZero(d: int, a: int)
    requires a > 0
    ensures d >= 1 ==> d * a >= a
    ensures d <= -1 ==> d * a <= -a
  {
    if d >= 1 {
      assert d * a == (d - 1) * a + a;
    } else if d <= -1 {
      assert d * a == (d + 1) * a - a;
    }
  }

  /** A whole window: from a loop that starts it, whatever was counted
      before, the counter holds exactly the hits of the window. So the value
      `forward` reports at the next boundary is the window's hits over 100,
      the accuracy in percent when the period is 100. */
  lemma WindowCounts(corrects: nat, a: int, b: int, hits: seq<bool>)
    requires a > 0 && b % a == 0 && 0 < |hits| <= a
    ensures After(corrects, a, b, hits) == Count(hits)
  {
    assert ResetsAt(a, b);
    forall loop | b + 1 <= loop < b + 1 + (|hits| - 1) ensures !ResetsAt(a, loop) {
      InsideWindow(a, b, loop - b);
    }
    NoBoundary(Next(corrects, a, b, hits[0]), a, b + 1, hits[1..]);
  }

  /** At a window boundary the counter ends at 0 or 1, whatever came before. */
  lemma BoundaryClears(corrects: nat, a: int, loop: int, hit: bool)
    requires ResetsAt(a, loop)
    ensures Next(corrects, a, loop, hit) == if hit then 1 else 0
  {
  }

  /** A zero period never clears: the counter counts every hit from the start. */
  lemma ZeroPeriodNeverClears(corrects: nat, start: int, hits: seq<bool>)
    ensures After(corrects, 0, start, hits) == corrects + Count(hits)
  {
    NoBoundary(corrects, 0, start, hits);
  }
}
