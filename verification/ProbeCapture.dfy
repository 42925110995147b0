/** The probe's snapshot and the independently written validator that judges it.
 */
module ProbeCapture {
  import opened Basics
  import opened Sorting
  import opened Intervals
  import opened PhaseProbe

  const LIMIT := 0.15

  function NameRank(p: Phase): int {
    match p
    case CommitRoot => 0
    case CheckpointRoot => 1
    case Context => 2
    case Flush => 3
    case Barrier => 4
    case Other(n) => 5 + n
  }

  /** The snapshot's order: start, then the longer event first, then the name. */
  predicate EventLe(a: Event, b: Event) {
    || a.started < b.started
    || (a.started == b.started && a.ended > b.ended)
    || (a.started == b.started && a.ended == b.ended && NameRank(a.phase) <= NameRank(b.phase))
  }

  datatype Bucket = Bucket(calls: nat, inclusiveMs: real)

  function AddTo(totals: map<Phase, Bucket>, e: Event): map<Phase, Bucket> {
    var b := if e.phase in totals then totals[e.phase] else Bucket(0, 0.0);
    totals[e.phase := Bucket(b.calls + 1, b.inclusiveMs + e.inclusiveMs)]
  }

  function TotalsOf(events: seq<Event>): map<Phase, Bucket> {
    if events == [] then map[] else AddTo(TotalsOf(events[..|events| - 1]), events[|events| - 1])
  }

  /** A measured stretch and how much of it is accounted for. */
  datatype Body = Body(rootMs: real, coveredMs: real, residualMs: real, ratio: real, limit: real, conclusive: bool)

  datatype Section = Section(scope: Scope, section: nat, body: Body, commit: Option<Body>)

  datatype Capture = Capture(events: seq<Event>, totals: map<Phase, Bucket>, sections: seq<Section>)

  function Ratio(residual: int, duration: int): real {
    if duration == 0 then 0.0 else residual as real / duration as real
  }

  function Measure(duration: int, covered: int): Body {
    var residual := Max(0, duration - covered);
    var ratio := Ratio(residual, duration);
    Body(Ms(duration), Ms(covered), Ms(residual), ratio, LIMIT, duration != 0 && ratio <= LIMIT)
  }

  predicate ChildOf(e: Event, root: Event) { !e.root && e.scope == root.scope && e.section == root.section }

  function Children(events: seq<Event>, root: Event): seq<Event> {
    if events == [] then []
    else
      var rest := Children(events[..|events| - 1], root);
      if ChildOf(events[|events| - 1], root) then rest + [events[|events| - 1]] else rest
  }

  /** The spans of the phases that count as covered work; contexts only delimit. */
  function Work(children: seq<Event>): seq<Span> {
    if children == [] then []
    else
      var rest := Work(children[..|children| - 1]);
      var e := children[|children| - 1];
      if e.phase.Context? then rest else rest + [Span(e.started, e.ended)]
  }

  predicate CommitContext(e: Event) { e.phase.Context? && e.detail == Some("commit") }

  function CommitContexts(children: seq<Event>): seq<Event> {
    if children == [] then []
    else
      var rest := CommitContexts(children[..|children| - 1]);
      var e := children[|children| - 1];
      if CommitContext(e) then rest + [e] else rest
  }

  function SpansOf(events: seq<Event>): seq<Span> {
    if events == [] then []
    else SpansOf(events[..|events| - 1]) + [Span(events[|events| - 1].started, events[|events| - 1].ended)]
  }

  function CoveredNs(events: seq<Event>, root: Event): int {
    UnionNs(Work(Children(events, root)), root.started, root.ended)
  }

  function Windows(events: seq<Event>, root: Event): seq<Span> {
    MergedIntervals(SpansOf(CommitContexts(Children(events, root))), root.started, root.ended)
  }

  function WindowedNs(events: seq<Event>, root: Event): int {
    UnionInsideWindowsNs(Work(Children(events, root)), Windows(events, root))
  }

  function SectionOf(events: seq<Event>, root: Event): Section {
    Section(root.scope, root.section,
            Measure(root.ended - root.started, CoveredNs(events, root)),
            if CommitContexts(Children(events, root)) == [] then None
            else Some(Measure(Total(Windows(events, root)), WindowedNs(events, root))))
  }

  function SectionsOf(all: seq<Event>, events: seq<Event>): seq<Section> {
    if events == [] then []
    else
      var rest := SectionsOf(all, events[..|events| - 1]);
      var e := events[|events| - 1];
      if e.root then rest + [SectionOf(all, e)] else rest
  }

  function SnapshotOf(recorded: seq<Event>): Capture {
    var events := Sort(recorded, EventLe);
    Capture(events, TotalsOf(events), SectionsOf(events, events))
  }

  method CollectSections(events: seq<Event>) returns (sections: seq<Section>)
    ensures sections == SectionsOf(events, events)
  {
    sections := [];
    for i := 0 to |events|
      invariant sections == SectionsOf(events, events[..i])
    {
      assert events[..i + 1][..i] == events[..i];
      if events[i].root {
        sections := sections + [SectionOf(events, events[i])];
      }
    }
    assert events[..|events|] == events;
  }

  /** `snapshot`: sorts, adds up the inclusive totals and reconciles every root. */
  method Snapshot(recorded: seq<Event>) returns (capture: Capture)
    ensures capture == SnapshotOf(recorded)
  {
    var events := Sort(recorded, EventLe);
    var totals: map<Phase, Bucket> := map[];
    for i := 0 to |events|
      invariant totals == TotalsOf(events[..i])
    {
      assert events[..i + 1][..i] == events[..i];
      totals := AddTo(totals, events[i]);
    }
    var sections := CollectSections(events);
    assert events[..|events|] == events;
    capture := Capture(events, totals, sections);
  }

  // ----- The validator

  function RAbs(x: real): real { if x < 0.0 then -x else x }

  predicate CloseTo(value: real, expected: real) {
    RAbs(value - expected) <= RMax(0.000001, RAbs(expected) * 0.000000000001)
  }

  predicate EventValid(e: Event, t0: int, t1: int) {
    && e.section > 0 && Hooked(e.phase)
    && t0 <= e.started <= e.ended <= t1
    && RAbs(e.inclusiveMs - Ms(e.ended - e.started)) <= 0.000001
  }

  function RootsOf(events: seq<Event>): map<Active, Event> {
    if events == [] then map[]
    else
      var rest := RootsOf(events[..|events| - 1]);
      var e := events[|events| - 1];
      if e.root then rest[Active(e.scope, e.section) := e] else rest
  }

  /** A root has its scope's phase and no earlier root has its key. */
  predicate RootValid(events: seq<Event>, i: nat)
    requires i < |events|
  {
    events[i].root ==>
      && events[i].phase == RootPhase(events[i].scope)
      && Active(events[i].scope, events[i].section) !in RootsOf(events[..i])
  }

  predicate InOrder(events: seq<Event>) {
    forall i :: 0 <= i < |events| - 1 ==> EventLe(events[i], events[i + 1])
  }

  predicate HasCommitRoot(roots: map<Active, Event>) {
    exists k :: k in roots && k.scope == CommitScope
  }

  predicate ChildValid(e: Event, roots: map<Active, Event>) {
    e.root || (var key := Active(e.scope, e.section);
               key in roots && roots[key].started <= e.started <= e.ended <= roots[key].ended)
  }

  predicate TotalsValid(actual: map<Phase, Bucket>, expected: map<Phase, Bucket>) {
    && actual.Keys == expected.Keys
    && forall p :: p in expected ==> actual[p].calls == expected[p].calls && CloseTo(actual[p].inclusiveMs, expected[p].inclusiveMs)
  }

  predicate BodyValid(b: Body, duration: int, covered: int) {
    var residual := Max(0, duration - covered);
    var expected := Ratio(residual, duration);
    && 0.0 <= b.ratio <= 1.0 && b.limit == LIMIT
    && CloseTo(b.rootMs, Ms(duration)) && CloseTo(b.coveredMs, Ms(covered)) && CloseTo(b.residualMs, Ms(residual))
    && CloseTo(b.ratio, expected)
    && b.conclusive == (duration != 0 && expected <= LIMIT)
  }

  predicate StartLe(a: Event, b: Event) { a.started <= b.started }

  predicate Disjoint(contexts: seq<Event>) {
    forall i :: 0 <= i < |contexts| - 1 ==> contexts[i].ended <= contexts[i + 1].started
  }

  /** A checkpoint that returned flushed inside its first context and ran all its barriers
      between the two. */
  predicate CheckpointShape(first: Event, second: Event, children: seq<Event>, rootEnded: int) {
    && (exists e :: e in children && e.phase.Flush? && first.started <= e.started && e.ended <= first.ended)
    && (exists e :: e in children && e.phase.Barrier?)
    && (forall e :: e in children && e.phase.Barrier? ==> first.ended <= e.started <= e.ended <= second.started)
    && second.ended <= rootEnded
  }

  predicate ContextsValid(root: Event, children: seq<Event>) {
    var ordered := Sort(CommitContexts(children), StartLe);
    && Disjoint(ordered)
    && (root.returned ==>
          && |ordered| == (if root.scope == CommitScope then 1 else 2)
          && (root.scope == CheckpointScope ==> CheckpointShape(ordered[0], ordered[1], children, root.ended)))
  }

  predicate SectionValid(s: Section, roots: map<Active, Event>, events: seq<Event>) {
    var key := Active(s.scope, s.section);
    && s.section > 0 && key in roots
    && Reconciles(s, roots[key], events)
  }

  /** The recomputation of one section against its root. */
  predicate Reconciles(s: Section, root: Event, events: seq<Event>) {
    ReconcilesTo(s, root, Children(events, root), root.ended - root.started, CoveredNs(events, root),
                 Total(Windows(events, root)), WindowedNs(events, root))
  }

  predicate ReconcilesTo(s: Section, root: Event, children: seq<Event>,
                         duration: int, covered: int, bodyDuration: int, bodyCovered: int)
  {
    && s.body.conclusive == (s.body.ratio <= LIMIT)
    && BodyValid(s.body, duration, covered)
    && ContextsValid(root, children)
    && if CommitContexts(children) == [] then !root.returned && s.commit.None?
       else s.commit.Some? && BodyValid(s.commit.value, bodyDuration, bodyCovered)
  }

  function KeyAt(sections: seq<Section>, i: nat): Active
    requires i < |sections|
  {
    Active(sections[i].scope, sections[i].section)
  }

  /** What the validator asks of events, totals and section keys. */
  predicate FrameworkValid(c: Capture, t0: int, t1: int) {
    && t0 <= t1
    && (forall i :: 0 <= i < |c.events| ==> EventValid(c.events[i], t0, t1) && RootValid(c.events, i))
    && InOrder(c.events)
    && (forall i :: 0 <= i < |c.events| ==> ChildValid(c.events[i], RootsOf(c.events)))
    && TotalsValid(c.totals, TotalsOf(c.events))
    && |c.sections| == |RootsOf(c.events)|
    && (forall i, j :: 0 <= i < j < |c.sections| ==> KeyAt(c.sections, i) != KeyAt(c.sections, j))
    && (set i | 0 <= i < |c.sections| :: KeyAt(c.sections, i)) == RootsOf(c.events).Keys
  }

  predicate SectionsValid(sections: seq<Section>, events: seq<Event>) {
    forall i :: 0 <= i < |sections| ==> SectionValid(sections[i], RootsOf(events), events)
  }

  /** `_phase_probe_capture_valid` of a capture taken in [t0, t1]. */
  predicate CaptureValid(c: Capture, t0: int, t1: int) {
    FrameworkValid(c, t0, t1) && HasCommitRoot(RootsOf(c.events)) && SectionsValid(c.sections, c.events)
  }

  function KeysBefore(sections: seq<Section>, n: nat): set<Active>
    requires n <= |sections|
  {
    set i | 0 <= i < n :: KeyAt(sections, i)
  }

  /** The first pass over the events: judges each one and collects roots and totals. */
  method CheckEvents(events: seq<Event>, t0: int, t1: int)
    returns (ok: bool, roots: map<Active, Event>, totals: map<Phase, Bucket>)
    ensures ok <==> forall i :: 0 <= i < |events| ==> EventValid(events[i], t0, t1) && RootValid(events, i)
    ensures ok ==> roots == RootsOf(events) && totals == TotalsOf(events)
  {
    roots, totals := map[], map[];
    for i := 0 to |events|
      invariant roots == RootsOf(events[..i]) && totals == TotalsOf(events[..i])
      invariant forall j :: 0 <= j < i ==> EventValid(events[j], t0, t1) && RootValid(events, j)
    {
      var e := events[i];
      assert events[..i + 1][..i] == events[..i];
      if !EventValid(e, t0, t1) {
        return false, roots, totals;
      }
      totals := AddTo(totals, e);
      if e.root {
        var key := Active(e.scope, e.section);
        if e.phase != RootPhase(e.scope) || key in roots {
          assert !RootValid(events, i);
          return false, roots, totals;
        }
        roots := roots[key := e];
      }
    }
    assert events[..|events|] == events;
    ok := true;
  }

  /** Section keys are collected in a set; a repeated key refuses. */
  method CheckKeys(sections: seq<Section>) returns (ok: bool, keys: set<Active>)
    ensures ok <==> forall i, j :: 0 <= i < j < |sections| ==> KeyAt(sections, i) != KeyAt(sections, j)
    ensures ok ==> keys == set i | 0 <= i < |sections| :: KeyAt(sections, i)
  {
    keys := {};
    for n := 0 to |sections|
      invariant keys == KeysBefore(sections, n)
      invariant forall i, j :: 0 <= i < j < n ==> KeyAt(sections, i) != KeyAt(sections, j)
    {
      var key := KeyAt(sections, n);
      if key in keys {
        ghost var i :| 0 <= i < n && KeyAt(sections, i) == key;
        return false, keys;
      }
      keys := keys + {key};
    }
    ok := true;
  }

  method CheckSections(sections: seq<Section>, events: seq<Event>) returns (ok: bool)
    ensures ok <==> SectionsValid(sections, events)
  {
    for n := 0 to |sections|
      invariant forall i :: 0 <= i < n ==> SectionValid(sections[i], RootsOf(events), events)
    {
      if !SectionValid(sections[n], RootsOf(events), events) {
        return false;
      }
    }
    ok := true;
  }

  /** The validator as it runs, early refusals included. */
  method Validate(c: Capture, t0: int, t1: int) returns (ok: bool)
    ensures ok <==> CaptureValid(c, t0, t1)
  {
    if t1 < t0 {
      return false;
    }
    var sound, roots, totals := CheckEvents(c.events, t0, t1);
    if !sound || !InOrder(c.events) || !HasCommitRoot(roots) {
      return false;
    }
    for i := 0 to |c.events|
      invariant forall j :: 0 <= j < i ==> ChildValid(c.events[j], roots)
    {
      if !ChildValid(c.events[i], roots) {
        return false;
      }
    }
    if !TotalsValid(c.totals, totals) || |c.sections| != |roots| {
      return false;
    }
    var distinct, keys := CheckKeys(c.sections);
    if !distinct || keys != roots.Keys {
      return false;
    }
    ok := CheckSections(c.sections, c.events);
  }

  // ----- What a snapshot may be refused for

  /** The commit contexts of one section, in start order, follow each other without overlap. */
  ghost predicate OneAfterAnother(contexts: seq<Event>) {
    forall i, j :: 0 <= i < j < |contexts| ==> contexts[i].ended <= contexts[j].started
  }

  /** The shape the product's code gives a section: a commit that returned ran in exactly one
      commit context; a checkpoint that returned ran in two, flushing inside the first and
      keeping every durability barrier between the two. */
  ghost predicate Shaped(events: seq<Event>, root: Event) {
    ShapedAs(root, Children(events, root))
  }

  ghost predicate ShapedAs(root: Event, children: seq<Event>) {
    var contexts := CommitContexts(children);
    && OneAfterAnother(contexts)
    && (root.returned && root.scope == CommitScope ==> |contexts| == 1)
    && (root.returned && root.scope == CheckpointScope ==>
          && |contexts| == 2
          && (exists e :: e in children && e.phase.Flush? && contexts[0].started <= e.started && e.ended <= contexts[0].ended)
          && (exists e :: e in children && e.phase.Barrier?)
          && (forall e :: e in children && e.phase.Barrier? ==> contexts[0].ended <= e.started <= e.ended <= contexts[1].started))
  }

  /** Every recorded root took time and its section, as the snapshot lists it, has the shape. */
  ghost predicate AllSound(recorded: seq<Event>, events: seq<Event>) {
    forall r :: r in recorded && r.root ==> r.started < r.ended && Shaped(events, r)
  }

  ghost predicate CommitRecorded(events: seq<Event>) {
    exists e :: e in events && e.root && e.scope == CommitScope
  }

  lemma {:induction false} EventLeIsTotal()
    ensures TotalPreorder(EventLe)
  {
  }

  /** Sorting changes neither what was recorded nor how often. */
  lemma {:induction false} SortKeepsRecorded(recorded: seq<Event>, t0: int, t1: int)
    requires Recorded(recorded, t0, t1)
    ensures Recorded(Sort(recorded, EventLe), t0, t1) && SortedBy(Sort(recorded, EventLe), EventLe)
    ensures forall e :: e in Sort(recorded, EventLe) <==> e in recorded
  {
    var events := Sort(recorded, EventLe);
    EventLeIsTotal();
    SortOrders(recorded, EventLe);
    SortMembers(recorded, EventLe);
    forall e | e in events && !e.root
      ensures RecordedAround(events, Active(e.scope, e.section), e.started, e.ended)
    {
      assert RecordedAround(recorded, Active(e.scope, e.section), e.started, e.ended);
      var r :| r in recorded && r.root && Active(r.scope, r.section) == Active(e.scope, e.section)
               && r.started <= e.started && e.ended <= r.ended;
      assert r in events;
    }
  }

  lemma {:induction false} RootsAreEvents(events: seq<Event>)
    ensures forall k :: k in RootsOf(events) ==>
              var r := RootsOf(events)[k]; r in events && r.root && Active(r.scope, r.section) == k
    ensures forall e :: e in events && e.root ==> Active(e.scope, e.section) in RootsOf(events)
    decreases |events|
  {
    if events != [] {
      RootsAreEvents(events[..|events| - 1]);
      assert events == events[..|events| - 1] + [events[|events| - 1]];
    }
  }

  lemma {:induction false} RootFound(events: seq<Event>, e: Event)
    requires RootsOnce(events) && e in events && e.root
    ensures Active(e.scope, e.section) in RootsOf(events) && RootsOf(events)[Active(e.scope, e.section)] == e
  {
    RootsAreEvents(events);
  }

  /** No root is preceded by another of its section. */
  lemma {:induction false} RootsAreValid(events: seq<Event>, i: nat)
    requires RootsOnce(events) && i < |events| && (events[i].root ==> events[i].phase == RootPhase(events[i].scope))
    ensures RootValid(events, i)
  {
    var e := events[i];
    var key := Active(e.scope, e.section);
    RootsAreEvents(events[..i]);
    if e.root {
      assert multiset(events)[e] == 1;
      assert events == events[..i] + [e] + events[i + 1..];
      assert e !in events[..i] by {
        assert multiset(events) == multiset(events[..i]) + multiset{e} + multiset(events[i + 1..]);
      }
      assert forall x :: x in events[..i] ==> x in events;
    }
  }

  lemma {:induction false} ChildrenAreValid(events: seq<Event>, t0: int, t1: int, e: Event)
    requires Recorded(events, t0, t1) && e in events
    ensures ChildValid(e, RootsOf(events))
  {
    if !e.root {
      var r :| r in events && r.root && Active(r.scope, r.section) == Active(e.scope, e.section)
               && r.started <= e.started && e.ended <= r.ended;
      RootFound(events, r);
    }
  }

  lemma {:induction false} SectionsMatchRoots(all: seq<Event>, events: seq<Event>)
    requires forall i :: 0 <= i < |events| ==> RootValid(events, i)
    ensures |SectionsOf(all, events)| == |RootsOf(events)|
    ensures forall i :: 0 <= i < |SectionsOf(all, events)| ==> KeyAt(SectionsOf(all, events), i) in RootsOf(events)
    ensures forall k :: k in RootsOf(events) ==>
              exists i :: 0 <= i < |SectionsOf(all, events)| && KeyAt(SectionsOf(all, events), i) == k
    ensures forall i, j :: 0 <= i < j < |SectionsOf(all, events)| ==>
              KeyAt(SectionsOf(all, events), i) != KeyAt(SectionsOf(all, events), j)
    decreases |events|
  {
    if events != [] {
      var n := |events| - 1;
      var front, e := events[..n], events[n];
      forall i | 0 <= i < n
        ensures RootValid(front, i)
      {
        assert RootValid(events, i);
        assert front[..i] == events[..i];
      }
      SectionsMatchRoots(all, front);
      assert RootValid(events, n);
      if e.root {
        SectionsGrow(SectionsOf(all, front), SectionOf(all, e), RootsOf(front).Keys);
        assert RootsOf(events).Keys == RootsOf(front).Keys + {Active(e.scope, e.section)};
      }
    }
  }

  lemma {:induction false} SectionsGrow(sections: seq<Section>, s: Section, keys: set<Active>)
    requires Active(s.scope, s.section) !in keys
    requires forall i :: 0 <= i < |sections| ==> KeyAt(sections, i) in keys
    requires forall k :: k in keys ==> exists i :: 0 <= i < |sections| && KeyAt(sections, i) == k
    requires forall i, j :: 0 <= i < j < |sections| ==> KeyAt(sections, i) != KeyAt(sections, j)
    ensures var grown, key := sections + [s], Active(s.scope, s.section);
            && (forall i :: 0 <= i < |grown| ==> KeyAt(grown, i) in keys + {key})
            && (forall k :: k in keys + {key} ==> exists i :: 0 <= i < |grown| && KeyAt(grown, i) == k)
            && (forall i, j :: 0 <= i < j < |grown| ==> KeyAt(grown, i) != KeyAt(grown, j))
  {
    var grown, key := sections + [s], Active(s.scope, s.section);
    var n := |sections|;
    assert KeyAt(grown, n) == key;
    forall i | 0 <= i < n
      ensures KeyAt(grown, i) == KeyAt(sections, i)
    {
    }
    forall k | k in keys + {key}
      ensures exists i :: 0 <= i < |grown| && KeyAt(grown, i) == k
    {
      if k == key {
        assert KeyAt(grown, n) == k;
      } else {
        var i :| 0 <= i < n && KeyAt(sections, i) == k;
        assert KeyAt(grown, i) == k;
      }
    }
  }

  lemma {:induction false} SectionIsOfARoot(all: seq<Event>, events: seq<Event>, i: nat)
    requires i < |SectionsOf(all, events)|
    ensures exists r :: r in events && r.root && SectionsOf(all, events)[i] == SectionOf(all, r)
    decreases |events|
  {
    var n := |events| - 1;
    var rest := SectionsOf(all, events[..n]);
    if i < |rest| {
      SectionIsOfARoot(all, events[..n], i);
      var r :| r in events[..n] && r.root && rest[i] == SectionOf(all, r);
      assert r in events;
    } else {
      assert events[n] in events;
    }
  }

  lemma {:induction false} RootHasASection(all: seq<Event>, events: seq<Event>, r: Event)
    requires r in events && r.root
    ensures SectionOf(all, r) in SectionsOf(all, events)
    decreases |events|
  {
    var n := |events| - 1;
    if events[n] != r {
      assert events == events[..n] + [events[n]];
      RootHasASection(all, events[..n], r);
    }
  }

  lemma {:induction false} RatioInRange(residual: int, duration: int)
    requires 0 <= residual <= duration
    ensures 0.0 <= Ratio(residual, duration) <= 1.0
  {
    if duration > 0 {
      var q := residual as real / duration as real;
      assert q * duration as real == residual as real;
    }
  }

  /** A measured body passes its own reconciliation. */
  lemma {:induction false} MeasureIsValid(duration: int, covered: int)
    requires 0 <= covered <= duration
    ensures BodyValid(Measure(duration, covered), duration, covered)
    ensures Measure(duration, covered).conclusive == (Measure(duration, covered).ratio <= LIMIT) <==> duration > 0
  {
    RatioInRange(Max(0, duration - covered), duration);
  }

  lemma {:induction false} ChildrenMembers(events: seq<Event>, root: Event)
    ensures forall e :: e in Children(events, root) <==> e in events && ChildOf(e, root)
    decreases |events|
  {
    if events != [] {
      ChildrenMembers(events[..|events| - 1], root);
      assert events == events[..|events| - 1] + [events[|events| - 1]];
    }
  }

  lemma {:induction false} ChildrenInOrder(events: seq<Event>, root: Event)
    requires SortedBy(events, EventLe)
    ensures SortedBy(Children(events, root), EventLe)
    decreases |events|
  {
    if events != [] {
      var n := |events| - 1;
      ChildrenInOrder(events[..n], root);
      ChildrenMembers(events[..n], root);
      AppendInOrder(Children(events[..n], root), events[n], events);
    }
  }

  lemma {:induction false} AppendInOrder(kept: seq<Event>, last: Event, events: seq<Event>)
    requires SortedBy(events, EventLe) && events != [] && last == events[|events| - 1]
    requires SortedBy(kept, EventLe) && forall e :: e in kept ==> e in events[..|events| - 1]
    ensures SortedBy(kept + [last], EventLe)
  {
    var all := kept + [last];
    forall i, j | 0 <= i < j < |all|
      ensures EventLe(all[i], all[j])
    {
      if j == |kept| {
        assert all[i] in kept;
        var p :| 0 <= p < |events| - 1 && events[p] == all[i];
      }
    }
  }

  lemma {:induction false} ContextsInOrder(children: seq<Event>)
    requires SortedBy(children, EventLe)
    ensures SortedBy(CommitContexts(children), EventLe)
    ensures forall e :: e in CommitContexts(children) ==> e in children
    decreases |children|
  {
    if children != [] {
      var n := |children| - 1;
      ContextsInOrder(children[..n]);
      AppendInOrder(CommitContexts(children[..n]), children[n], children);
    }
  }

  /** The contexts are already in start order, so the validator's sort leaves them alone. */
  lemma {:induction false} ContextSortIsIdentity(children: seq<Event>)
    requires SortedBy(children, EventLe)
    ensures Sort(CommitContexts(children), StartLe) == CommitContexts(children)
  {
    ContextsInOrder(children);
    var contexts := CommitContexts(children);
    assert SortedBy(contexts, StartLe);
    SortOfSorted(contexts, StartLe);
  }

  lemma {:induction false} NeighboursApartMeansAllApart(contexts: seq<Event>)
    requires forall e :: e in contexts ==> e.started <= e.ended
    ensures Disjoint(contexts) <==> OneAfterAnother(contexts)
  {
    if Disjoint(contexts) {
      forall i, j | 0 <= i < j < |contexts|
        ensures contexts[i].ended <= contexts[j].started
      {
        ApartFrom(contexts, i, j);
      }
    }
  }

  lemma {:induction false} ApartFrom(contexts: seq<Event>, i: nat, j: nat)
    requires forall e :: e in contexts ==> e.started <= e.ended
    requires Disjoint(contexts) && i < j < |contexts|
    ensures contexts[i].ended <= contexts[j].started
    decreases j
  {
    if i + 1 < j {
      ApartFrom(contexts, i, j - 1);
      assert contexts[j - 1] in contexts;
      assert contexts[j - 1].ended <= contexts[j - 1 + 1].started;
    } else {
      assert contexts[i].ended <= contexts[i + 1].started;
    }
  }

  lemma {:induction false} ContextRulesAgree(root: Event, children: seq<Event>)
    requires SortedBy(children, EventLe)
    requires forall e :: e in children ==> e.started <= e.ended <= root.ended
    ensures ContextsValid(root, children) <==> ShapedAs(root, children)
  {
    var contexts := CommitContexts(children);
    ContextsInOrder(children);
    ContextSortIsIdentity(children);
    NeighboursApartMeansAllApart(contexts);
    assert |contexts| == 2 ==> contexts[1] in contexts;
  }

  lemma {:induction false} ChildrenInsideRoot(events: seq<Event>, root: Event, t0: int, t1: int)
    requires Recorded(events, t0, t1) && root in events && root.root
    ensures root.started <= root.ended
    ensures forall e :: e in Children(events, root) ==> e.started <= e.ended <= root.ended
  {
    ChildrenMembers(events, root);
    forall e | e in Children(events, root)
      ensures e.started <= e.ended <= root.ended
    {
      var r :| r in events && r.root && Active(r.scope, r.section) == Active(e.scope, e.section)
               && r.started <= e.started && e.ended <= r.ended;
      assert r == root;
    }
  }

  lemma {:induction false} NumbersReconcile(s: Section, root: Event, children: seq<Event>,
                                            duration: int, covered: int, bodyDuration: int, bodyCovered: int)
    requires 0 <= covered <= duration && 0 <= bodyCovered <= bodyDuration
    requires s.body == Measure(duration, covered)
    requires s.commit == if CommitContexts(children) == [] then None else Some(Measure(bodyDuration, bodyCovered))
    ensures ReconcilesTo(s, root, children, duration, covered, bodyDuration, bodyCovered)
            <==> duration > 0 && ContextsValid(root, children)
  {
    MeasureIsValid(duration, covered);
    MeasureIsValid(bodyDuration, bodyCovered);
    NoContextsNotReturned(root, children);
  }

  lemma {:induction false} NoContextsNotReturned(root: Event, children: seq<Event>)
    ensures ContextsValid(root, children) && CommitContexts(children) == [] ==> !root.returned
  {
  }

  /** The measured numbers reconcile; what remains is a positive root and the context rules. */
  lemma {:induction false} ReconcilesIff(events: seq<Event>, root: Event)
    requires root.started <= root.ended
    ensures Reconciles(SectionOf(events, root), root, events)
            <==> root.started < root.ended && ContextsValid(root, Children(events, root))
  {
    var children := Children(events, root);
    ResidualExact(Work(children), root.started, root.ended);
    WindowedResidualExact(Work(children), SpansOf(CommitContexts(children)), root.started, root.ended);
    NumbersReconcile(SectionOf(events, root), root, children, root.ended - root.started, CoveredNs(events, root),
                     Total(Windows(events, root)), WindowedNs(events, root));
  }

  /** A section's report is accepted exactly when its root took time and the section has the
      expected shape. */
  lemma {:induction false} SectionAcceptedIff(events: seq<Event>, root: Event, t0: int, t1: int)
    requires Recorded(events, t0, t1) && SortedBy(events, EventLe) && root in events && root.root
    ensures SectionValid(SectionOf(events, root), RootsOf(events), events)
            <==> root.started < root.ended && Shaped(events, root)
  {
    RootFound(events, root);
    ChildrenInsideRoot(events, root, t0, t1);
    ChildrenInOrder(events, root);
    ContextRulesAgree(root, Children(events, root));
    ReconcilesIff(events, root);
  }

  lemma {:induction false} SectionsAcceptedIff(events: seq<Event>, t0: int, t1: int)
    requires Recorded(events, t0, t1) && SortedBy(events, EventLe)
    ensures SectionsValid(SectionsOf(events, events), events) <==> AllSound(events, events)
  {
    var sections, roots := SectionsOf(events, events), RootsOf(events);
    if SectionsValid(sections, events) {
      forall r | r in events && r.root
        ensures r.started < r.ended && Shaped(events, r)
      {
        RootHasASection(events, events, r);
        SectionAcceptedIff(events, r, t0, t1);
      }
    }
    if AllSound(events, events) {
      forall i | 0 <= i < |sections|
        ensures SectionValid(sections[i], roots, events)
      {
        SectionIsOfARoot(events, events, i);
        var r :| r in events && r.root && sections[i] == SectionOf(events, r);
        SectionAcceptedIff(events, r, t0, t1);
      }
    }
  }

  /** Everything the validator asks beyond the sections themselves always holds. */
  lemma {:induction false} FrameworkHolds(events: seq<Event>, t0: int, t1: int)
    requires Recorded(events, t0, t1) && SortedBy(events, EventLe)
    requires t0 <= t1
    ensures FrameworkValid(Capture(events, TotalsOf(events), SectionsOf(events, events)), t0, t1)
  {
    forall i | 0 <= i < |events|
      ensures EventValid(events[i], t0, t1) && RootValid(events, i) && ChildValid(events[i], RootsOf(events))
    {
      assert events[i] in events;
      RootsAreValid(events, i);
      ChildrenAreValid(events, t0, t1, events[i]);
    }
    SectionsMatchRoots(events, events);
    var sections := SectionsOf(events, events);
    var keys := set i | 0 <= i < |sections| :: KeyAt(sections, i);
    forall k
      ensures k in keys <==> k in RootsOf(events)
    {
    }
  }

  lemma {:induction false} CommitRootIff(events: seq<Event>)
    ensures HasCommitRoot(RootsOf(events)) <==> CommitRecorded(events)
  {
    RootsAreEvents(events);
    if CommitRecorded(events) {
      var e :| e in events && e.root && e.scope == CommitScope;
      assert Active(e.scope, e.section) in RootsOf(events);
    }
  }

  /** The validator accepts the snapshot of a completed run exactly when the run recorded a
      commit, every root took time, and every section has the expected shape. Attribution,
      nesting, order, totals and both residuals can never be the reason for a refusal. */
  lemma {:induction false} SnapshotAcceptedIff(recorded: seq<Event>, t0: int, t1: int)
    requires Recorded(recorded, t0, t1) && t0 <= t1
    ensures CaptureValid(SnapshotOf(recorded), t0, t1)
            <==> && CommitRecorded(recorded)
                 && AllSound(recorded, Sort(recorded, EventLe))
  {
    var events := Sort(recorded, EventLe);
    SortKeepsRecorded(recorded, t0, t1);
    FrameworkHolds(events, t0, t1);
    CommitRootIff(events);
    assert CommitRecorded(events) <==> CommitRecorded(recorded);
    assert AllSound(events, events) <==> AllSound(recorded, events);
    SectionsAcceptedIff(events, t0, t1);
  }

  /** From a reset probe through any well-nested run to the validator's verdict. */
  lemma {:induction false} InstrumentedRunAcceptedIff(s: State, actions: seq<Action>, t: State, t0: int, t1: int)
    requires s.active == [] && s.frames == [] && s.events == [] && s.nextSection > 0
    requires Clocked(actions, t0) && Leads(s, actions, t) && t.frames == [] && Now(actions, t0) <= t1 && t0 <= t1
    ensures CaptureValid(SnapshotOf(t.events), t0, t1)
            <==> && CommitRecorded(t.events)
                 && AllSound(t.events, Sort(t.events, EventLe))
  {
    RunRecords(s, actions, t, t0, t1);
    SnapshotAcceptedIff(t.events, t0, t1);
  }

  /** A commit root that begins and ends in the same nanosecond is properly recorded, and yet
      its snapshot is refused. */
  lemma {:induction false} InstantRootIsRefused()
    ensures var root := Event(CommitScope, 1, RootPhase(CommitScope), true, 0, 0, Ms(0), false, None);
            && Recorded([root], 0, 0) && CommitRecorded([root])
            && !CaptureValid(SnapshotOf([root]), 0, 0)
  {
    var root := Event(CommitScope, 1, RootPhase(CommitScope), true, 0, 0, Ms(0), false, None);
    assert root in [root];
    assert multiset([root])[root] == 1;
    assert EventSound(root);
    assert !AllSound([root], Sort([root], EventLe));
    SnapshotAcceptedIff([root], 0, 0);
  }
}
