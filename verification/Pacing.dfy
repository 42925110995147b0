/** Pacing of the matrix writers: N staggered writers share one aggregate commit rate. Times
    are reals; a sleep lasts at least as long as it was asked to.
 */
module Pacing {
  import opened Basics

  function RMin(a: real, b: real): real { if a <= b then a else b }

  /** The aggregate rate is divided among the writers that produce it. */
  function PerWriterRate(rate: real, writers: int): (r: real)
    ensures writers > 0 ==> r * writers as real == rate
    ensures writers <= 0 ==> r == 0.0
  {
    if writers <= 0 then 0.0 else rate / writers as real
  }

  /** The clock readings of one pass through the pacing gate and its transaction, in order:
      first window check, gap computation, sleep computation, second window check, the
      reading that moves the next slot, and the instant the commit landed. */
  datatype Pass = Pass(checkedAt: real, gapAt: real, sleepAt: real, woke: real, began: real, landed: real)

  ghost predicate InOrder(p: Pass) {
    p.checkedAt <= p.gapAt <= p.sleepAt <= p.woke <= p.began <= p.landed
  }

  /** Waking is no earlier than the requested sleep allows. */
  ghost predicate SleptEnough(p: Pass, nextSlot: real, end: real) {
    nextSlot > p.gapAt ==> p.woke >= p.sleepAt + RMin(nextSlot - p.gapAt, RMax(0.0, end - p.sleepAt))
  }

  /** A writer's pacing state: the next instant at which it may begin. */
  class Pacer {
    const period: real
    const end: real
    var nextSlot: real

    constructor (start: real, offset: real, period: real, end: real)
      ensures nextSlot == start + offset && this.period == period && this.end == end
    {
      this.period, this.end, nextSlot := period, end, start + offset;
    }

    /** The gate in front of every transaction: it lets a transaction begin only inside the
        window and never before its slot, and moves the slot on by at least one period. */
    method Gate(p: Pass) returns (begins: bool)
      requires InOrder(p) && SleptEnough(p, nextSlot, end)
      modifies this
      ensures begins <==> p.woke < end
      ensures begins ==> old(nextSlot) <= p.woke && p.began <= nextSlot && old(nextSlot) + period <= nextSlot
      ensures begins ==> nextSlot == RMax(old(nextSlot) + period, p.began)
      ensures !begins ==> nextSlot == old(nextSlot)
    {
      if p.checkedAt >= end {
        return false;
      }
      if p.woke >= end {
        return false;
      }
      nextSlot := RMax(nextSlot + period, p.began);
      return true;
    }
  }

  /** The slot in force when pass k of a writer reaches the gate. */
  ghost function NextSlot(first: real, period: real, passes: seq<Pass>, k: nat): real
    requires k <= |passes|
  {
    if k == 0 then first else RMax(NextSlot(first, period, passes, k - 1) + period, passes[k - 1].began)
  }

  ghost predicate PassOk(first: real, period: real, end: real, passes: seq<Pass>, k: nat)
    requires k < |passes|
  {
    && InOrder(passes[k])
    && passes[k].woke < end
    && SleptEnough(passes[k], NextSlot(first, period, passes, k), end)
    && (k + 1 < |passes| ==> passes[k].landed <= passes[k + 1].checkedAt)
  }

  /** All passes of one writer that began a transaction, in order. */
  ghost predicate PacedRun(first: real, period: real, end: real, passes: seq<Pass>) {
    forall k :: 0 <= k < |passes| ==> PassOk(first, period, end, passes, k)
  }

  lemma {:induction false} NotBeforeSlot(p: Pass, nextSlot: real, end: real)
    requires InOrder(p) && SleptEnough(p, nextSlot, end) && p.woke < end
    ensures p.woke >= nextSlot
  {
  }

  lemma {:induction false} OneMorePeriod(k: nat, period: real)
    requires k > 0
    ensures k as real * period == (k - 1) as real * period + period
  {
    assert k as real == (k - 1) as real + 1.0;
  }

  /** Pass k begins no earlier than k periods after the writer's first slot. */
  lemma {:induction false} SlotsAdvance(first: real, period: real, end: real, passes: seq<Pass>, k: nat)
    requires PacedRun(first, period, end, passes) && k <= |passes|
    ensures NextSlot(first, period, passes, k) >= first + k as real * period
    decreases k
  {
    if k > 0 {
      SlotsAdvance(first, period, end, passes, k - 1);
      OneMorePeriod(k, period);
    }
  }

  lemma {:induction false} PassNotEarly(first: real, period: real, end: real, passes: seq<Pass>, k: nat)
    requires PacedRun(first, period, end, passes) && k < |passes|
    ensures passes[k].began >= first + k as real * period
  {
    assert PassOk(first, period, end, passes, k);
    SlotsAdvance(first, period, end, passes, k);
    NotBeforeSlot(passes[k], NextSlot(first, period, passes, k), end);
  }

  /** The staggered writers of one case, slot s (counted from zero) offset by s / rate. */
  datatype Case = Case(start: real, end: real, rate: real, runs: seq<seq<Pass>>)

  ghost predicate Paced(c: Case) {
    && c.rate > 0.0
    && forall s :: 0 <= s < |c.runs| ==> RunOf(c, s)
  }

  ghost predicate RunOf(c: Case, s: nat)
    requires c.rate > 0.0 && s < |c.runs|
  {
    PacedRun(c.start + s as real / c.rate, |c.runs| as real / c.rate, c.end, c.runs[s])
  }

  /** Position of pass k of slot s in the ideal aggregate schedule. */
  function Turn(writers: nat, s: nat, k: nat): nat { s + k * writers }

  /** Pass k of slot s starts no earlier than its turn in the aggregate schedule. */
  lemma {:induction false} PassStartsOnTurn(c: Case, s: nat, k: nat)
    requires Paced(c) && s < |c.runs| && k < |c.runs[s]|
    ensures c.runs[s][k].began >= c.start + Turn(|c.runs|, s, k) as real / c.rate
  {
    var n := |c.runs| as real;
    assert RunOf(c, s);
    PassNotEarly(c.start + s as real / c.rate, n / c.rate, c.end, c.runs[s], k);
    TurnInSeconds(s, k, |c.runs|, c.rate);
  }

  lemma {:induction false} TurnInSeconds(s: nat, k: nat, writers: nat, rate: real)
    requires rate > 0.0
    ensures Turn(writers, s, k) as real / rate == s as real / rate + k as real * (writers as real / rate)
  {
    var a, b, n := s as real, k as real, writers as real;
    assert Turn(writers, s, k) as real == a + b * n by {
      MulAsReal(k, writers);
    }
    assert b * (n / rate) == b * n / rate;
    assert (a + b * n) / rate == a / rate + b * n / rate;
  }

  lemma {:induction false} MulAsReal(a: nat, b: nat)
    ensures (a * b) as real == a as real * b as real
    decreases a
  {
    if a > 0 {
      MulAsReal(a - 1, b);
      assert a * b == (a - 1) * b + b;
      assert a as real == (a - 1) as real + 1.0;
      assert a as real * b as real == (a - 1) as real * b as real + b as real;
    }
  }

  lemma {:induction false} LaterRoundLater(writers: nat, k: nat, k': nat)
    requires k < k'
    ensures k' * writers >= k * writers + writers
    decreases k'
  {
    if k + 1 < k' {
      LaterRoundLater(writers, k, k' - 1);
    }
  }

  lemma {:induction false} TurnsDiffer(writers: nat, s: nat, k: nat, s': nat, k': nat)
    requires s < writers && s' < writers && Turn(writers, s, k) == Turn(writers, s', k')
    ensures s == s' && k == k'
  {
    if k < k' {
      LaterRoundLater(writers, k, k');
    } else if k' < k {
      LaterRoundLater(writers, k', k);
    }
  }

  /** The passes, over all writers, that began before `t`. */
  ghost function BegunBefore(c: Case, t: real): set<(nat, nat)> {
    set s: nat, k: nat | s < |c.runs| && k < |c.runs[s]| && c.runs[s][k].began < t :: (s, k)
  }

  function Ceil(x: real): int { -((-x).Floor) }

  ghost function Turns(passes: set<(nat, nat)>, writers: nat): set<nat> {
    set p | p in passes :: Turn(writers, p.0, p.1)
  }

  lemma {:induction false} TurnsCount(passes: set<(nat, nat)>, writers: nat)
    requires forall p :: p in passes ==> p.0 < writers
    ensures |Turns(passes, writers)| == |passes|
    decreases |passes|
  {
    if passes == {} {
      assert Turns(passes, writers) == {};
    } else {
      var p :| p in passes;
      var rest := passes - {p};
      TurnsCount(rest, writers);
      var turn := Turn(writers, p.0, p.1);
      assert turn !in Turns(rest, writers) by {
        forall q | q in rest
          ensures Turn(writers, q.0, q.1) != turn
        {
          if Turn(writers, q.0, q.1) == turn {
            TurnsDiffer(writers, p.0, p.1, q.0, q.1);
          }
        }
      }
      assert Turns(passes, writers) == Turns(rest, writers) + {turn};
    }
  }

  lemma {:induction false} BoundedNats(s: set<nat>, n: nat)
    requires forall x :: x in s ==> x < n
    ensures |s| <= n
    decreases n
  {
    if n == 0 {
      assert s == {};
    } else {
      BoundedNats(s - {n - 1}, n - 1);
    }
  }

  lemma {:induction false} BegunAreBounded(c: Case, t: real, n: nat)
    requires forall p :: p in BegunBefore(c, t) ==> Turn(|c.runs|, p.0, p.1) < n
    ensures |BegunBefore(c, t)| <= n
  {
    var begun := BegunBefore(c, t);
    TurnsCount(begun, |c.runs|);
    BoundedNats(Turns(begun, |c.runs|), n);
  }

  lemma {:induction false} CeilOfNonNegative(x: real)
    requires x >= 0.0
    ensures Ceil(x) >= 0
  {
  }

  lemma {:induction false} TurnBounded(c: Case, seconds: real, s: nat, k: nat)
    requires Paced(c) && (s, k) in BegunBefore(c, c.start + seconds)
    ensures Turn(|c.runs|, s, k) < Ceil(c.rate * seconds)
  {
    PassStartsOnTurn(c, s, k);
    BeforeMeansFewer(Turn(|c.runs|, s, k), c.rate, seconds);
  }

  /** All writers together begin at most ceil(rate * T) transactions in the first T seconds. */
  lemma {:induction false} AggregateRateIsBounded(c: Case, seconds: real)
    requires Paced(c) && seconds >= 0.0
    ensures |BegunBefore(c, c.start + seconds)| <= Ceil(c.rate * seconds)
  {
    CeilOfNonNegative(c.rate * seconds);
    forall p | p in BegunBefore(c, c.start + seconds)
      ensures Turn(|c.runs|, p.0, p.1) < Ceil(c.rate * seconds)
    {
      TurnBounded(c, seconds, p.0, p.1);
    }
    BegunAreBounded(c, c.start + seconds, Ceil(c.rate * seconds));
  }

  lemma {:induction false} BeforeMeansFewer(turn: nat, rate: real, seconds: real)
    requires rate > 0.0 && turn as real / rate < seconds
    ensures turn < Ceil(rate * seconds)
  {
    assert turn as real == turn as real / rate * rate;
    assert turn as real < rate * seconds;
  }

  // ----- The delivered-rate and in-window criteria

  /** The commits counted into the measurement: landed after the warmup, inside the window. */
  ghost function Counted(c: Case, warmup: real): set<(nat, nat)> {
    set s: nat, k: nat | s < |c.runs| && k < |c.runs[s]| && c.start + warmup <= c.runs[s][k].landed < c.end :: (s, k)
  }

  /** The upper side of `the_labelled_rate_was_delivered`: at most one slot per writer too many. */
  ghost predicate NotOverDelivered(c: Case, warmup: real) {
    |Counted(c, warmup)| as real - c.rate * (c.end - (c.start + warmup)) <= RMax(1.0, |c.runs| as real)
  }

  /** With no warmup the labelled rate is never exceeded beyond the allowed slack. */
  lemma {:induction false} LabelledRateNotExceeded(c: Case)
    requires Paced(c) && c.start <= c.end
    ensures NotOverDelivered(c, 0.0)
  {
    var span := c.end - c.start;
    AggregateRateIsBounded(c, span);
    forall p | p in Counted(c, 0.0)
      ensures p in BegunBefore(c, c.start + span)
    {
      assert RunOf(c, p.0);
      assert PassOk(c.start + p.0 as real / c.rate, |c.runs| as real / c.rate, c.end, c.runs[p.0], p.1);
    }
    SubsetSize(Counted(c, 0.0), BegunBefore(c, c.start + span));
  }

  /** With a warmup it is not exceeded either while the turns that fit into the warmup, and one
      more, are no more than the writers. */
  lemma {:induction false} ShortWarmupNotExceeded(c: Case, warmup: real)
    requires Paced(c) && warmup >= 0.0 && c.start + warmup <= c.end
    requires c.rate * warmup + 1.0 <= |c.runs| as real
    ensures NotOverDelivered(c, warmup)
  {
    var span := c.end - c.start;
    AggregateRateIsBounded(c, span);
    forall p | p in Counted(c, warmup)
      ensures p in BegunBefore(c, c.start + span)
    {
      assert RunOf(c, p.0);
      assert PassOk(c.start + p.0 as real / c.rate, |c.runs| as real / c.rate, c.end, c.runs[p.0], p.1);
    }
    SubsetSize(Counted(c, warmup), BegunBefore(c, c.start + span));
    CeilBelow(c.rate * span);
    var rest := c.end - (c.start + warmup);
    assert c.rate * span == c.rate * rest + c.rate * warmup by {
      assert span == rest + warmup;
    }
  }

  lemma {:induction false} CeilBelow(x: real)
    ensures Ceil(x) as real < x + 1.0
  {
  }

  lemma {:induction false} NextPassIsInside(first: real, period: real, end: real, passes: seq<Pass>, k: nat)
    requires PacedRun(first, period, end, passes) && k + 1 < |passes|
    ensures passes[k].landed < end
  {
    assert PassOk(first, period, end, passes, k) && PassOk(first, period, end, passes, k + 1);
  }

  /** Without warmup a commit outside the window is the writer's last pass, so each writer
      lands at most one there. */
  lemma {:induction false} OnlyLastPassLandsOutside(c: Case, s: nat, k: nat)
    requires Paced(c) && s < |c.runs| && k < |c.runs[s]|
    requires (s, k) !in Counted(c, 0.0)
    ensures k == |c.runs[s]| - 1
  {
    assert RunOf(c, s);
    PassStartsOnTurn(c, s, k);
    assert Turn(|c.runs|, s, k) as real / c.rate >= 0.0;
    var first, period := c.start + s as real / c.rate, |c.runs| as real / c.rate;
    assert PassOk(first, period, c.end, c.runs[s], k);
    assert c.runs[s][k].landed >= c.end;
    if k + 1 < |c.runs[s]| {
      NextPassIsInside(first, period, c.end, c.runs[s], k);
    }
  }

  ghost function Outside(c: Case, warmup: real): set<(nat, nat)> {
    set s: nat, k: nat | s < |c.runs| && k < |c.runs[s]| && (s, k) !in Counted(c, warmup) :: (s, k)
  }

  /** Without warmup `no_commit_began_outside_the_window` cannot fail. */
  lemma {:induction false} OutsideCommitsBounded(c: Case)
    requires Paced(c)
    ensures |Outside(c, 0.0)| <= |c.runs|
  {
    var outs := set p | p in Outside(c, 0.0) :: p.0;
    BoundedNats(outs, |c.runs|);
    forall p, q | p in Outside(c, 0.0) && q in Outside(c, 0.0) && p.0 == q.0
      ensures p == q
    {
      OnlyLastPassLandsOutside(c, p.0, p.1);
      OnlyLastPassLandsOutside(c, q.0, q.1);
    }
    FirstsCount(Outside(c, 0.0));
  }

  lemma {:induction false} FirstsCount(s: set<(nat, nat)>)
    requires forall p, q :: p in s && q in s && p.0 == q.0 ==> p == q
    ensures |s| == |set p | p in s :: p.0|
    decreases |s|
  {
    if s == {} {
      assert (set p | p in s :: p.0) == {};
    } else {
      var p :| p in s;
      var rest := s - {p};
      FirstsCount(rest);
      assert (set q | q in s :: q.0) == (set q | q in rest :: q.0) + {p.0};
    }
  }

  // ----- Why the warmup must be zero

  /** One writer at one commit per `unit` whose first commit takes three quarters of a unit. */
  function SlowFirstCommit(unit: real): Case
    requires unit > 0.0
  {
    Case(0.0, 2.25 * unit, 1.0 / unit,
         [[Pass(0.0, 0.0, 0.0, 0.0, 0.0, 0.75 * unit),
           Pass(0.75 * unit, 0.75 * unit, 0.75 * unit, unit, unit, unit),
           Pass(unit, unit, unit, 2.0 * unit, 2.0 * unit, 2.0 * unit)]])
  }

  lemma {:induction false} Reciprocal(unit: real)
    requires unit > 0.0
    ensures 1.0 / unit > 0.0 && 1.0 / (1.0 / unit) == unit
  {
    var rate := 1.0 / unit;
    assert rate * unit == 1.0;
  }

  lemma {:induction false} SlowFirstCommitIsPaced(unit: real)
    requires unit > 0.0
    ensures Paced(SlowFirstCommit(unit))
  {
    Reciprocal(unit);
    var c := SlowFirstCommit(unit);
    var passes := c.runs[0];
    var first, period := c.start + 0 as real / c.rate, |c.runs| as real / c.rate;
    assert first == 0.0 && period == unit;
    assert NextSlot(first, period, passes, 0) == 0.0;
    assert NextSlot(first, period, passes, 1) == unit;
    assert NextSlot(first, period, passes, 2) == 2.0 * unit;
    assert PassOk(first, period, c.end, passes, 0);
    assert PassOk(first, period, c.end, passes, 1);
    assert PassOk(first, period, c.end, passes, 2);
    assert RunOf(c, 0);
  }

  /** With a warmup of half a unit that well-paced run is judged to over-deliver. */
  lemma {:induction false} WarmupCanOverDeliver(unit: real)
    requires unit > 0.0
    ensures Accepted(SlowFirstCommit(unit), 0.5 * unit)
    ensures !NotOverDelivered(SlowFirstCommit(unit), 0.5 * unit)
  {
    var c := SlowFirstCommit(unit);
    assert Counted(c, 0.5 * unit) == {(0, 0), (0, 1), (0, 2)};
    assert |{(0, 0), (0, 1), (0, 2)}| == 3;
    var span := c.end - (c.start + 0.5 * unit);
    assert span == 1.75 * unit;
    assert c.rate * span == 1.75 by {
      assert c.rate * unit == 1.0;
      assert c.rate * (1.75 * unit) == 1.75 * (c.rate * unit);
    }
  }

  /** With a warmup of one and a half units, which ends well inside the window, its first two
      commits count as landed outside. */
  lemma {:induction false} WarmupCommitsCountAsOutside(unit: real)
    requires unit > 0.0
    ensures Accepted(SlowFirstCommit(unit), 1.5 * unit)
    ensures |Outside(SlowFirstCommit(unit), 1.5 * unit)| > |SlowFirstCommit(unit).runs|
  {
    var c := SlowFirstCommit(unit);
    assert (0, 0) in Outside(c, 1.5 * unit) && (0, 1) in Outside(c, 1.5 * unit);
    assert |{(0, 0), (0, 1)}| == 2;
    SubsetSize<(nat, nat)>({(0, 0), (0, 1)}, Outside(c, 1.5 * unit));
  }

  /** The command line takes only a warmup that ends before the window does. */
  predicate Accepted(c: Case, warmup: real) { c.start + warmup < c.end }

  ghost predicate NeverOverDelivers(warmup: real) {
    forall c :: Paced(c) && Accepted(c, warmup) ==> NotOverDelivered(c, warmup)
  }

  ghost predicate NeverTooManyOutside(warmup: real) {
    forall c :: Paced(c) && Accepted(c, warmup) ==> |Outside(c, warmup)| <= |c.runs|
  }

  /** The two criteria are safe for every paced run the command line accepts exactly when there
      is no warmup. */
  lemma {:induction false} CriteriaSafeIff(warmup: real)
    requires warmup >= 0.0
    ensures NeverOverDelivers(warmup) <==> warmup == 0.0
    ensures NeverTooManyOutside(warmup) <==> warmup == 0.0
  {
    if warmup == 0.0 {
      forall c | Paced(c) && Accepted(c, warmup)
        ensures NotOverDelivered(c, warmup)
      {
        LabelledRateNotExceeded(c);
      }
      forall c | Paced(c) && Accepted(c, warmup)
        ensures |Outside(c, warmup)| <= |c.runs|
      {
        OutsideCommitsBounded(c);
      }
    } else {
      var long, brief := 2.0 * warmup, warmup / 1.5;
      SlowFirstCommitIsPaced(long);
      WarmupCanOverDeliver(long);
      assert 0.5 * long == warmup;
      assert !NotOverDelivered(SlowFirstCommit(long), warmup);
      SlowFirstCommitIsPaced(brief);
      WarmupCommitsCountAsOutside(brief);
      assert 1.5 * brief == warmup;
      assert |Outside(SlowFirstCommit(brief), warmup)| > |SlowFirstCommit(brief).runs|;
    }
  }
}
