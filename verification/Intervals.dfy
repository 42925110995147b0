/** Interval unions of the section phase probe: clipping, merging and counting the covered
    integer nanoseconds. A span covers the instants `started <= t < ended`.
 */
module Intervals {
  import opened Basics
  import opened Sorting

  datatype Span = Span(started: int, ended: int)

  predicate SpanLe(a: Span, b: Span) {
    a.started < b.started || (a.started == b.started && a.ended <= b.ended)
  }

  function Max(a: int, b: int): int { if a >= b then a else b }
  function Min(a: int, b: int): int { if a <= b then a else b }

  ghost predicate Covered(spans: seq<Span>, t: int) {
    exists i :: 0 <= i < |spans| && spans[i].started <= t < spans[i].ended
  }

  /** The instants of [lower, upper) that some span covers. */
  ghost function Instants(spans: seq<Span>, lower: int, upper: int): set<int> {
    set t | lower <= t < upper && Covered(spans, t)
  }

  /** Nonempty intervals in order, with at least one uncovered instant between neighbours. */
  ghost predicate Separated(spans: seq<Span>) {
    && (forall i :: 0 <= i < |spans| ==> spans[i].started < spans[i].ended)
    && (forall i, j :: 0 <= i < j < |spans| ==> spans[i].ended < spans[j].started)
  }

  ghost predicate Within(spans: seq<Span>, lower: int, upper: int) {
    forall i :: 0 <= i < |spans| ==> lower <= spans[i].started && spans[i].ended <= upper
  }

  function Total(spans: seq<Span>): int {
    if spans == [] then 0 else spans[0].ended - spans[0].started + Total(spans[1..])
  }

  function Clipped(spans: seq<Span>, lower: int, upper: int): seq<Span> {
    if spans == [] then []
    else
      var rest := Clipped(spans[1..], lower, upper);
      if spans[0].ended > lower && spans[0].started < upper then
        [Span(Max(lower, spans[0].started), Min(upper, spans[0].ended))] + rest
      else rest
  }

  /** The cursor interval, if it covers anything. */
  function Flushed(cursor: Span): seq<Span> { if cursor.ended > cursor.started then [cursor] else [] }

  /** The sweep over sorted intervals from a cursor interval that is still open. */
  function Sweep(spans: seq<Span>, cursor: Span): seq<Span>
    decreases |spans|
  {
    if spans == [] then Flushed(cursor)
    else if spans[0].ended <= spans[0].started then Sweep(spans[1..], cursor)
    else if spans[0].started > cursor.ended then
      Flushed(cursor) + Sweep(spans[1..], spans[0])
    else
      Sweep(spans[1..], Span(cursor.started, Max(cursor.ended, spans[0].ended)))
  }

  function MergedIntervals(spans: seq<Span>, lower: int, upper: int): seq<Span> {
    Sweep(Sort(Clipped(spans, lower, upper), SpanLe), Span(lower, lower))
  }

  function UnionNs(spans: seq<Span>, lower: int, upper: int): int {
    Total(MergedIntervals(spans, lower, upper))
  }

  function UnionInsideWindowsNs(spans: seq<Span>, windows: seq<Span>): int {
    if windows == [] then 0
    else UnionNs(spans, windows[0].started, windows[0].ended) + UnionInsideWindowsNs(spans, windows[1..])
  }

  lemma {:induction false} SweepNext(spans: seq<Span>, i: nat, merged: seq<Span>, cursor: Span)
    requires i < |spans|
    ensures var next := spans[i];
            merged + Sweep(spans[i..], cursor)
            == if next.ended <= next.started then merged + Sweep(spans[i + 1..], cursor)
               else if next.started > cursor.ended then (merged + Flushed(cursor)) + Sweep(spans[i + 1..], next)
               else merged + Sweep(spans[i + 1..], Span(cursor.started, Max(cursor.ended, next.ended)))
  {
    assert spans[i..][1..] == spans[i + 1..];
    assert merged + (Flushed(cursor) + Sweep(spans[i + 1..], spans[i])) == (merged + Flushed(cursor)) + Sweep(spans[i + 1..], spans[i]);
  }

  /** The merge loop itself: one moving cursor over the sorted, clipped intervals. */
  method Merge(spans: seq<Span>, lower: int, upper: int) returns (merged: seq<Span>)
    ensures merged == MergedIntervals(spans, lower, upper)
    ensures Separated(merged) && Within(merged, lower, upper)
    ensures forall t :: Covered(merged, t) <==> lower <= t < upper && Covered(spans, t)
  {
    var intervals := Sort(Clipped(spans, lower, upper), SpanLe);
    merged := [];
    var cursor := Span(lower, lower);
    for i := 0 to |intervals|
      invariant merged + Sweep(intervals[i..], cursor) == MergedIntervals(spans, lower, upper)
    {
      var next := intervals[i];
      SweepNext(intervals, i, merged, cursor);
      if next.ended > next.started {
        if next.started > cursor.ended {
          merged := merged + Flushed(cursor);
          cursor := next;
        } else {
          cursor := Span(cursor.started, Max(cursor.ended, next.ended));
        }
      }
    }
    merged := merged + Flushed(cursor);
    MergedExact(spans, lower, upper);
  }

  lemma {:induction false} SpanLeIsTotal()
    ensures TotalPreorder(SpanLe)
  {
  }

  lemma {:induction false} ClippedExact(spans: seq<Span>, lower: int, upper: int)
    ensures forall s :: s in Clipped(spans, lower, upper) ==> lower <= s.started && s.ended <= upper
    ensures forall t :: Covered(Clipped(spans, lower, upper), t) <==> lower <= t < upper && Covered(spans, t)
  {
    if spans != [] {
      var rest := Clipped(spans[1..], lower, upper);
      var all := Clipped(spans, lower, upper);
      ClippedExact(spans[1..], lower, upper);
      CoveredCons(spans[0], spans[1..]);
      assert spans == [spans[0]] + spans[1..];
      if all != rest {
        CoveredCons(all[0], rest);
      }
    }
  }

  lemma {:induction false} CoveredCons(s: Span, spans: seq<Span>)
    ensures forall t :: Covered([s] + spans, t) <==> s.started <= t < s.ended || Covered(spans, t)
  {
    forall t
      ensures Covered([s] + spans, t) <==> s.started <= t < s.ended || Covered(spans, t)
    {
      var all := [s] + spans;
      if s.started <= t < s.ended {
        assert all[0] == s;
      }
      if Covered(spans, t) {
        var i :| 0 <= i < |spans| && spans[i].started <= t < spans[i].ended;
        assert all[i + 1] == spans[i];
      }
    }
  }

  lemma {:induction false} CoveredByMembers(a: seq<Span>, b: seq<Span>)
    requires forall s :: s in a <==> s in b
    ensures forall t :: Covered(a, t) <==> Covered(b, t)
  {
    forall t
      ensures Covered(a, t) <==> Covered(b, t)
    {
      if Covered(a, t) {
        var i :| 0 <= i < |a| && a[i].started <= t < a[i].ended;
        assert a[i] in b;
      }
      if Covered(b, t) {
        var i :| 0 <= i < |b| && b[i].started <= t < b[i].ended;
        assert b[i] in a;
      }
    }
  }

  lemma {:induction false} SortedTail(spans: seq<Span>)
    requires spans != [] && SortedBy(spans, SpanLe)
    ensures SortedBy(spans[1..], SpanLe)
    ensures forall s :: s in spans[1..] ==> spans[0].started <= s.started
  {
  }

  /** The sweep's precondition: sorted intervals, all from the cursor's start up to `upper`. */
  ghost predicate Sweepable(spans: seq<Span>, cursor: Span, upper: int) {
    && SortedBy(spans, SpanLe)
    && cursor.started <= cursor.ended
    && (cursor.started < cursor.ended ==> cursor.ended <= upper)
    && forall s :: s in spans ==> cursor.started <= s.started && s.ended <= upper
  }

  lemma {:induction false} SweepableTail(spans: seq<Span>, cursor: Span, upper: int)
    requires Sweepable(spans, cursor, upper) && spans != []
    ensures Sweepable(spans[1..], cursor, upper)
    ensures spans[0].started < spans[0].ended ==> Sweepable(spans[1..], spans[0], upper)
    ensures spans[0].started < spans[0].ended
            ==> Sweepable(spans[1..], Span(cursor.started, Max(cursor.ended, spans[0].ended)), upper)
  {
    SortedTail(spans);
    assert spans[0] in spans;
  }

  lemma {:induction false} SeparatedCons(s: Span, spans: seq<Span>, lower: int, upper: int)
    requires Separated(spans) && Within(spans, lower, upper)
    requires s.started < s.ended < lower && s.ended <= upper
    ensures Separated([s] + spans) && Within([s] + spans, s.started, upper)
  {
    var all := [s] + spans;
    forall i, j | 0 <= i < j < |all|
      ensures all[i].ended < all[j].started
    {
      assert all[j] == spans[j - 1];
      if i > 0 {
        assert all[i] == spans[i - 1];
      }
    }
  }

  /** The sweep keeps intervals apart and inside the bounds. */
  lemma {:induction false} SweepSeparates(spans: seq<Span>, cursor: Span, upper: int)
    requires Sweepable(spans, cursor, upper)
    ensures Separated(Sweep(spans, cursor)) && Within(Sweep(spans, cursor), cursor.started, upper)
    decreases |spans|
  {
    if spans != [] {
      var s, rest := spans[0], spans[1..];
      SweepableTail(spans, cursor, upper);
      if s.ended <= s.started {
        SweepSeparates(rest, cursor, upper);
      } else if s.started > cursor.ended {
        SweepSeparates(rest, s, upper);
        if cursor.ended > cursor.started {
          SeparatedCons(cursor, Sweep(rest, s), s.started, upper);
        }
      } else {
        SweepSeparates(rest, Span(cursor.started, Max(cursor.ended, s.ended)), upper);
      }
    }
  }

  /** The sweep covers the cursor and every remaining interval, and nothing else. */
  lemma {:induction false} SweepCovers(spans: seq<Span>, cursor: Span, upper: int, t: int)
    requires Sweepable(spans, cursor, upper)
    ensures Covered(Sweep(spans, cursor), t) <==> cursor.started <= t < cursor.ended || Covered(spans, t)
    decreases |spans|
  {
    if spans == [] {
      CoveredCons(cursor, []);
      assert Sweep(spans, cursor) == if cursor.ended > cursor.started then [cursor] + [] else [];
    } else {
      var s, rest := spans[0], spans[1..];
      SweepableTail(spans, cursor, upper);
      CoveredCons(s, rest);
      assert spans == [s] + rest;
      assert s in spans;
      if s.ended <= s.started {
        SweepCovers(rest, cursor, upper, t);
      } else if s.started > cursor.ended {
        SweepCovers(rest, s, upper, t);
        CoveredCons(cursor, Sweep(rest, s));
        assert [] + Sweep(rest, s) == Sweep(rest, s);
      } else {
        SweepCovers(rest, Span(cursor.started, Max(cursor.ended, s.ended)), upper, t);
      }
    }
  }

  /** `_merged_intervals`: in order, strictly separated, inside the bounds, exact coverage. */
  lemma {:induction false} MergedExact(spans: seq<Span>, lower: int, upper: int)
    ensures var m := MergedIntervals(spans, lower, upper);
            Separated(m) && Within(m, lower, upper)
            && forall t :: Covered(m, t) <==> lower <= t < upper && Covered(spans, t)
  {
    var clipped := Clipped(spans, lower, upper);
    var sorted := Sort(clipped, SpanLe);
    SpanLeIsTotal();
    SortOrders(clipped, SpanLe);
    SortMembers(clipped, SpanLe);
    ClippedExact(spans, lower, upper);
    CoveredByMembers(clipped, sorted);
    SweepSeparates(sorted, Span(lower, lower), upper);
    forall t
      ensures Covered(MergedIntervals(spans, lower, upper), t) <==> lower <= t < upper && Covered(spans, t)
    {
      SweepCovers(sorted, Span(lower, lower), upper, t);
    }
  }

  /** The integers of [lo, hi). */
  ghost function Range(lo: int, hi: int): (r: set<int>)
    ensures forall t :: t in r <==> lo <= t < hi
    ensures |r| == if lo <= hi then hi - lo else 0
    decreases hi - lo
  {
    if lo >= hi then {} else Range(lo, hi - 1) + {hi - 1}
  }

  lemma {:induction false} InstantsCons(s: Span, rest: seq<Span>, lower: int, upper: int)
    requires lower <= s.started < s.ended <= upper
    requires forall t :: Covered(rest, t) ==> s.ended < t
    ensures |Instants([s] + rest, lower, upper)| == s.ended - s.started + |Instants(rest, lower, upper)|
  {
    var first := Range(s.started, s.ended);
    var later := Instants(rest, lower, upper);
    CoveredCons(s, rest);
    assert Instants([s] + rest, lower, upper) == first + later;
    assert first !! later;
  }

  lemma {:induction false} AfterFirst(spans: seq<Span>)
    requires Separated(spans) && spans != []
    ensures forall t :: Covered(spans[1..], t) ==> spans[0].ended < t
    ensures Separated(spans[1..])
  {
  }

  /** Separated intervals have as many instants as their lengths add up to. */
  lemma {:induction false} TotalCounts(spans: seq<Span>, lower: int, upper: int)
    requires Separated(spans) && Within(spans, lower, upper)
    ensures Total(spans) == |Instants(spans, lower, upper)|
    decreases |spans|
  {
    if spans == [] {
      assert Instants(spans, lower, upper) == {};
    } else {
      AfterFirst(spans);
      TotalCounts(spans[1..], lower, upper);
      InstantsCons(spans[0], spans[1..], lower, upper);
      assert spans == [spans[0]] + spans[1..];
    }
  }

  /** `_union_ns` is the number of covered integer instants inside the bounds. */
  lemma {:induction false} UnionCounts(spans: seq<Span>, lower: int, upper: int)
    ensures UnionNs(spans, lower, upper) == |Instants(spans, lower, upper)|
  {
    var m := MergedIntervals(spans, lower, upper);
    MergedExact(spans, lower, upper);
    TotalCounts(m, lower, upper);
    assert Instants(m, lower, upper) == Instants(spans, lower, upper);
  }

  /** Covered and residual always add up to the duration: the clamp at zero never acts. */
  lemma {:induction false} ResidualExact(spans: seq<Span>, lower: int, upper: int)
    requires lower <= upper
    ensures 0 <= UnionNs(spans, lower, upper) <= upper - lower
    ensures UnionNs(spans, lower, upper) + Max(0, (upper - lower) - UnionNs(spans, lower, upper)) == upper - lower
  {
    UnionCounts(spans, lower, upper);
    SubsetSize(Instants(spans, lower, upper), Range(lower, upper));
  }

  /** The instants lying both in some window and under some span. */
  ghost function WindowedInstants(spans: seq<Span>, windows: seq<Span>, lower: int, upper: int): set<int> {
    set t | lower <= t < upper && Covered(windows, t) && Covered(spans, t)
  }

  /** The windowed union counts the intersection, each instant once. */
  lemma {:induction false} WindowedUnionCounts(spans: seq<Span>, windows: seq<Span>, lower: int, upper: int)
    requires Separated(windows) && Within(windows, lower, upper)
    ensures UnionInsideWindowsNs(spans, windows) == |WindowedInstants(spans, windows, lower, upper)|
    decreases |windows|
  {
    if windows == [] {
      assert WindowedInstants(spans, windows, lower, upper) == {};
    } else {
      var w, rest := windows[0], windows[1..];
      WindowedUnionCounts(spans, rest, lower, upper);
      UnionCounts(spans, w.started, w.ended);
      FirstWindow(spans, windows, lower, upper);
    }
  }

  lemma {:induction false} FirstWindow(spans: seq<Span>, windows: seq<Span>, lower: int, upper: int)
    requires Separated(windows) && Within(windows, lower, upper) && windows != []
    ensures var first := Instants(spans, windows[0].started, windows[0].ended);
            var later := WindowedInstants(spans, windows[1..], lower, upper);
            first !! later && WindowedInstants(spans, windows, lower, upper) == first + later
  {
    var w, rest := windows[0], windows[1..];
    CoveredCons(w, rest);
    assert windows == [w] + rest;
    forall t | Covered(rest, t)
      ensures t >= w.ended
    {
    }
  }

  /** Over merged windows, the body coverage never exceeds the body duration. */
  lemma {:induction false} WindowedResidualExact(spans: seq<Span>, contexts: seq<Span>, lower: int, upper: int)
    ensures var windows := MergedIntervals(contexts, lower, upper);
            0 <= UnionInsideWindowsNs(spans, windows) <= Total(windows)
  {
    var windows := MergedIntervals(contexts, lower, upper);
    MergedExact(contexts, lower, upper);
    TotalCounts(windows, lower, upper);
    WindowedUnionCounts(spans, windows, lower, upper);
    SubsetSize(WindowedInstants(spans, windows, lower, upper), Instants(windows, lower, upper));
  }

  ghost predicate AlikeAt(a: seq<Span>, b: seq<Span>, t: int) { Covered(a, t) <==> Covered(b, t) }

  ghost predicate SameCoverage(a: seq<Span>, b: seq<Span>) { forall t :: AlikeAt(a, b, t) }

  lemma {:induction false} SameBeyondFirst(a: seq<Span>, b: seq<Span>)
    requires Separated(a) && Separated(b) && a != [] && b != [] && a[0] == b[0] && SameCoverage(a, b)
    ensures SameCoverage(a[1..], b[1..])
  {
    forall t
      ensures AlikeAt(a[1..], b[1..], t)
    {
      BeyondFirst(a, t);
      BeyondFirst(b, t);
      assert AlikeAt(a, b, t);
    }
  }

  /** Separation makes the merged form canonical: equal coverage means equal intervals. */
  lemma {:induction false} SeparatedIsCanonical(a: seq<Span>, b: seq<Span>)
    requires Separated(a) && Separated(b) && SameCoverage(a, b)
    ensures a == b
    decreases |a|
  {
    if a == [] || b == [] {
      BothEmpty(a, b);
    } else {
      FirstSpanAgrees(a, b);
      FirstSpanAgrees(b, a);
      SameBeyondFirst(a, b);
      SeparatedIsCanonical(a[1..], b[1..]);
      assert a == [a[0]] + a[1..] && b == [b[0]] + b[1..];
    }
  }

  lemma {:induction false} BothEmpty(a: seq<Span>, b: seq<Span>)
    requires Separated(a) && Separated(b) && SameCoverage(a, b) && (a == [] || b == [])
    ensures a == b
  {
    var t := if a != [] then a[0].started else if b != [] then b[0].started else 0;
    assert AlikeAt(a, b, t);
  }

  /** What lies beyond the first interval is what the others cover. */
  lemma {:induction false} BeyondFirst(spans: seq<Span>, t: int)
    requires Separated(spans) && spans != []
    ensures Covered(spans[1..], t) <==> Covered(spans, t) && t >= spans[0].ended
  {
    assert spans == [spans[0]] + spans[1..];
    CoveredCons(spans[0], spans[1..]);
  }

  lemma {:induction false} FirstSpanAgrees(a: seq<Span>, b: seq<Span>)
    requires Separated(a) && Separated(b) && a != [] && b != []
    requires SameCoverage(a, b) || SameCoverage(b, a)
    ensures a[0].started <= b[0].started && (a[0].started == b[0].started ==> a[0].ended >= b[0].ended)
  {
    assert SameCoverage(a, b) ==> AlikeAt(a, b, b[0].started) && AlikeAt(a, b, a[0].ended);
    assert SameCoverage(b, a) ==> AlikeAt(b, a, b[0].started) && AlikeAt(b, a, a[0].ended);
    assert Covered(b, b[0].started);
    assert Covered(a, b[0].started);
    assert !Covered(a, a[0].ended);
  }
}
