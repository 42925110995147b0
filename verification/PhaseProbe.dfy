/** The section phase probe while product code runs through its wrappers: a stack of active
    sections attributes every timed event to the section it happened in.
 */
module PhaseProbe {
  import opened Basics

  datatype Scope = CommitScope | CheckpointScope

  /** The hooked methods. Besides the two roots, the coordinator context and the two phases
      the validator asks for by name, hooks are told apart by their position among the names. */
  datatype Phase = CommitRoot | CheckpointRoot | Context | Flush | Barrier | Other(hook: nat)

  const OTHER_HOOKS := 23

  predicate Hooked(p: Phase) { p.Other? ==> p.hook < OTHER_HOOKS }

  function RootPhase(scope: Scope): Phase { if scope == CommitScope then CommitRoot else CheckpointRoot }

  datatype Event = Event(
    scope: Scope, section: nat, phase: Phase, root: bool,
    started: int, ended: int, inclusiveMs: real, returned: bool, detail: Option<string>)

  /** A wrapper that is currently running, with what it remembered when it was entered.
      Wrappers entered outside any section measure nothing. */
  datatype Frame =
    | RootFrame(scope: Scope, section: nat, started: int)
    | PhaseFrame(scope: Scope, section: nat, phase: Phase, started: int)
    | ContextFrame(scope: Scope, section: nat, detail: string, started: int)
    | Silent

  datatype Active = Active(scope: Scope, section: nat)

  datatype State = State(active: seq<Active>, frames: seq<Frame>, events: seq<Event>, nextSection: nat)

  /** What the instrumented program does next, with the clock reading it causes. */
  datatype Action =
    | EnterRoot(scope: Scope, at: int)
    | EnterPhase(phase: Phase, at: int)
    | EnterContext(detail: string, at: int)
    | Leave(at: int, returned: bool)

  function Ms(ns: int): real { ns as real / 1_000_000.0 }

  function EventOf(f: Frame, at: int, returned: bool): Event
    requires !f.Silent?
  {
    match f
    case RootFrame(scope, section, started) =>
      Event(scope, section, RootPhase(scope), true, started, at, Ms(at - started), returned, None)
    case PhaseFrame(scope, section, phase, started) =>
      Event(scope, section, phase, false, started, at, Ms(at - started), returned, None)
    case ContextFrame(scope, section, detail, started) =>
      Event(scope, section, Context, false, started, at, Ms(at - started), returned, Some(detail))
  }

  /** A wrapper is entered, or the innermost running wrapper is left. */
  predicate Possible(s: State, a: Action) {
    match a
    case EnterPhase(phase, _) => !phase.Context? && !phase.CommitRoot? && !phase.CheckpointRoot? && Hooked(phase)
    case Leave(_, _) => s.frames != [] && (s.frames[|s.frames| - 1].RootFrame? ==> s.active != [])
    case _ => true
  }

  function Step(s: State, a: Action): State
    requires Possible(s, a)
  {
    match a
    case EnterRoot(scope, at) =>
      State(s.active + [Active(scope, s.nextSection)], s.frames + [RootFrame(scope, s.nextSection, at)],
            s.events, s.nextSection + 1)
    case EnterPhase(phase, at) =>
      s.(frames := s.frames + [if s.active == [] then Silent
                               else var top := s.active[|s.active| - 1]; PhaseFrame(top.scope, top.section, phase, at)])
    case EnterContext(detail, at) =>
      s.(frames := s.frames + [if s.active == [] then Silent
                               else var top := s.active[|s.active| - 1]; ContextFrame(top.scope, top.section, detail, at)])
    case Leave(at, returned) =>
      var f := s.frames[|s.frames| - 1];
      State(if f.RootFrame? then s.active[..|s.active| - 1] else s.active,
            s.frames[..|s.frames| - 1],
            if f.Silent? then s.events else s.events + [EventOf(f, at, returned)],
            s.nextSection)
  }

  /** The probe object: its stack, its event list and its section counter. The frames are the
      wrappers' own local variables on the call stack. */
  class Probe {
    var active: seq<Active>
    var frames: seq<Frame>
    var events: seq<Event>
    var nextSection: nat

    constructor ()
      ensures Value() == State([], [], [], 1)
    {
      active, frames, events, nextSection := [], [], [], 1;
    }

    function Value(): State
      reads this
    {
      State(active, frames, events, nextSection)
    }

    method Enter(a: Action)
      requires Possible(Value(), a) && !a.Leave?
      modifies this
      ensures Value() == Step(old(Value()), a)
    {
      match a {
        case EnterRoot(scope, at) =>
          var section := nextSection;
          nextSection := nextSection + 1;
          active := active + [Active(scope, section)];
          frames := frames + [RootFrame(scope, section, at)];
        case EnterPhase(phase, at) =>
          if active == [] {
            frames := frames + [Silent];
          } else {
            var top := active[|active| - 1];
            frames := frames + [PhaseFrame(top.scope, top.section, phase, at)];
          }
        case EnterContext(detail, at) =>
          if active == [] {
            frames := frames + [Silent];
          } else {
            var top := active[|active| - 1];
            frames := frames + [ContextFrame(top.scope, top.section, detail, at)];
          }
      }
    }

    method Exit(at: int, returned: bool)
      requires Possible(Value(), Leave(at, returned))
      modifies this
      ensures Value() == Step(old(Value()), Leave(at, returned))
    {
      var f := frames[|frames| - 1];
      frames := frames[..|frames| - 1];
      if f.RootFrame? {
        active := active[..|active| - 1];
      }
      if !f.Silent? {
        events := events + [EventOf(f, at, returned)];
      }
    }

    /** `reset`: refuses inside an active section, and otherwise forgets the events. */
    method Reset() returns (ok: bool)
      modifies this
      ensures ok <==> old(active) == []
      ensures Value() == if ok then old(Value()).(events := []) else old(Value())
    {
      ok := active == [];
      if ok {
        events := [];
      }
    }
  }

  // ----- Runs

  /** Actions in clock order, none before `t0`. */
  ghost predicate Clocked(actions: seq<Action>, t0: int) {
    && (actions != [] ==> t0 <= actions[0].at)
    && (forall i :: 0 <= i < |actions| - 1 ==> actions[i].at <= actions[i + 1].at)
  }

  /** The probe's state after a run of actions, each of which was possible when it happened. */
  ghost predicate Leads(s: State, actions: seq<Action>, t: State)
    decreases |actions|
  {
    if actions == [] then t == s
    else
      var n := |actions| - 1;
      exists mid :: Leads(s, actions[..n], mid) && Possible(mid, actions[n]) && t == Step(mid, actions[n])
  }

  // ----- What the stack discipline guarantees

  /** The open root a frame belongs to: the nearest root frame at or below it. */
  function OpenRoots(frames: seq<Frame>): seq<Active> {
    if frames == [] then []
    else
      var rest := OpenRoots(frames[..|frames| - 1]);
      var f := frames[|frames| - 1];
      if f.RootFrame? then rest + [Active(f.scope, f.section)] else rest
  }

  function KeyOf(f: Frame): Active
    requires !f.Silent?
  {
    Active(f.scope, f.section)
  }

  /** A frame was attributed to the innermost section open when it was entered, at a time
      after that section began. */
  ghost predicate FrameOk(frames: seq<Frame>, i: nat)
    requires i < |frames|
  {
    var below := OpenRoots(frames[..i]);
    match frames[i]
    case RootFrame(_, _, _) => true
    case Silent => below == []
    case PhaseFrame(scope, section, phase, _) =>
      below != [] && below[|below| - 1] == Active(scope, section) && Hooked(phase) && !phase.Context?
    case ContextFrame(scope, section, _, _) => below != [] && below[|below| - 1] == Active(scope, section)
  }

  /** An open root frame with this key began no later than `at`. */
  ghost predicate OpenSince(frames: seq<Frame>, key: Active, at: int) {
    exists i :: 0 <= i < |frames| && frames[i].RootFrame? && KeyOf(frames[i]) == key && frames[i].started <= at
  }

  /** A recorded root with this key covers [from, to]. */
  ghost predicate RecordedAround(events: seq<Event>, key: Active, from: int, to: int) {
    exists r :: r in events && r.root && Active(r.scope, r.section) == key && r.started <= from && to <= r.ended
  }

  ghost predicate TimesOk(s: State, t0: int, now: int) {
    && t0 <= now
    && (forall f :: f in s.frames && !f.Silent? ==> t0 <= f.started <= now)
    && (forall e :: e in s.events ==> t0 <= e.started <= e.ended <= now)
  }

  ghost predicate EnteredBefore(frames: seq<Frame>, i: nat, j: nat)
    requires i < j < |frames|
  {
    !frames[i].Silent? && !frames[j].Silent? ==> frames[i].started <= frames[j].started
  }

  ghost predicate StackOk(s: State) {
    && s.active == OpenRoots(s.frames)
    && (forall i :: 0 <= i < |s.frames| ==> FrameOk(s.frames, i))
    && (forall i, j :: 0 <= i < j < |s.frames| ==> EnteredBefore(s.frames, i, j))
  }

  /** Section numbers are positive and never reused, neither open nor recorded. */
  ghost predicate SectionsOk(s: State) {
    && (forall f :: f in s.frames && f.RootFrame? ==> 0 < f.section < s.nextSection)
    && (forall i, j :: 0 <= i < j < |s.frames| && s.frames[i].RootFrame? && s.frames[j].RootFrame? ==>
          s.frames[i].section != s.frames[j].section)
    && (forall e :: e in s.events && e.root ==> 0 < e.section < s.nextSection)
    && (forall e, f :: e in s.events && e.root && f in s.frames && f.RootFrame? ==> e.section != f.section)
    && RootsOnce(s.events)
  }

  /** No two recorded roots share a section, and none is recorded twice. */
  ghost predicate RootsOnce(events: seq<Event>) {
    && (forall e, e' :: e in events && e' in events && e.root && e'.root && e.section == e'.section ==> e == e')
    && (forall e :: e in events && e.root ==> multiset(events)[e] == 1)
  }

  /** What every recorded event carries. */
  ghost predicate EventSound(e: Event) {
    && Hooked(e.phase)
    && e.inclusiveMs == Ms(e.ended - e.started)
    && (e.root ==> e.phase == RootPhase(e.scope))
    && (!e.root ==> e.section > 0)
  }

  /** An event inside a section lies in the section's recorded root, or its root is open. */
  ghost predicate Anchored(s: State, e: Event) {
    var key := Active(e.scope, e.section);
    RecordedAround(s.events, key, e.started, e.ended) || OpenSince(s.frames, key, e.started)
  }

  ghost predicate EventsOk(s: State) {
    forall e :: e in s.events ==> EventSound(e) && (!e.root ==> Anchored(s, e))
  }

  ghost predicate Invariant(s: State, t0: int, now: int) {
    TimesOk(s, t0, now) && StackOk(s) && SectionsOk(s) && EventsOk(s)
  }

  /** The innermost open section is that of some root frame. */
  lemma {:induction false} InnermostRoot(frames: seq<Frame>) returns (k: nat)
    requires OpenRoots(frames) != []
    ensures k < |frames| && frames[k].RootFrame?
    ensures KeyOf(frames[k]) == OpenRoots(frames)[|OpenRoots(frames)| - 1]
    decreases |frames|
  {
    if frames[|frames| - 1].RootFrame? {
      k := |frames| - 1;
    } else {
      k := InnermostRoot(frames[..|frames| - 1]);
    }
  }

  /** Entering a wrapper: one more frame on the stack, no new event. */
  lemma {:induction false} PushKeeps(s: State, f: Frame, t: State, t0: int, now: int, at: int)
    requires Invariant(s, t0, now) && now <= at
    requires t.frames == s.frames + [f] && t.events == s.events && s.nextSection <= t.nextSection
    requires t.active == if f.RootFrame? then s.active + [KeyOf(f)] else s.active
    requires !f.Silent? ==> f.started == at
    requires f.RootFrame? ==> f.section == s.nextSection && 0 < f.section < t.nextSection
    requires match f
             case RootFrame(_, _, _) => true
             case Silent => s.active == []
             case PhaseFrame(scope, section, phase, _) =>
               s.active != [] && s.active[|s.active| - 1] == Active(scope, section) && Hooked(phase) && !phase.Context?
             case ContextFrame(scope, section, _, _) =>
               s.active != [] && s.active[|s.active| - 1] == Active(scope, section)
    ensures Invariant(t, t0, at)
  {
    PushStack(s, f, t, t0, now, at);
    forall e | e in t.events
      ensures EventSound(e) && (!e.root ==> Anchored(t, e))
    {
      if !e.root {
        OpenSinceGrows(s.frames, f, Active(e.scope, e.section), e.started);
        assert Anchored(s, e);
      }
    }
  }

  lemma {:induction false} OpenSinceGrows(frames: seq<Frame>, f: Frame, key: Active, at: int)
    ensures OpenSince(frames, key, at) ==> OpenSince(frames + [f], key, at)
  {
    if OpenSince(frames, key, at) {
      var i :| 0 <= i < |frames| && frames[i].RootFrame? && KeyOf(frames[i]) == key && frames[i].started <= at;
      assert (frames + [f])[i] == frames[i];
    }
  }

  lemma {:induction false} PushStack(s: State, f: Frame, t: State, t0: int, now: int, at: int)
    requires StackOk(s) && TimesOk(s, t0, now) && now <= at
    requires t.frames == s.frames + [f]
    requires t.active == if f.RootFrame? then s.active + [KeyOf(f)] else s.active
    requires !f.Silent? ==> f.started == at
    requires match f
             case RootFrame(_, _, _) => true
             case Silent => s.active == []
             case PhaseFrame(scope, section, phase, _) =>
               s.active != [] && s.active[|s.active| - 1] == Active(scope, section) && Hooked(phase) && !phase.Context?
             case ContextFrame(scope, section, _, _) =>
               s.active != [] && s.active[|s.active| - 1] == Active(scope, section)
    ensures StackOk(t)
  {
    var n := |s.frames|;
    assert t.frames[..n] == s.frames;
    forall i | 0 <= i < |t.frames|
      ensures FrameOk(t.frames, i)
    {
      if i < n {
        assert t.frames[..i] == s.frames[..i];
        assert FrameOk(s.frames, i);
      }
    }
    forall i, j | 0 <= i < j < |t.frames|
      ensures EnteredBefore(t.frames, i, j)
    {
      if j < n {
        assert EnteredBefore(s.frames, i, j);
      } else {
        assert s.frames[i] in s.frames;
      }
    }
  }

  lemma {:induction false} PopStack(s: State, t: State)
    requires StackOk(s) && s.frames != [] && t.frames == s.frames[..|s.frames| - 1]
    requires t.active == if s.frames[|s.frames| - 1].RootFrame? then s.active[..|s.active| - 1] else s.active
    ensures StackOk(t)
  {
    forall i | 0 <= i < |t.frames|
      ensures FrameOk(t.frames, i)
    {
      assert t.frames[..i] == s.frames[..i];
      assert FrameOk(s.frames, i);
    }
    forall i, j | 0 <= i < j < |t.frames|
      ensures EnteredBefore(t.frames, i, j)
    {
      assert EnteredBefore(s.frames, i, j);
    }
  }

  lemma {:induction false} RootsOnceGrows(events: seq<Event>, e: Event)
    requires RootsOnce(events)
    requires e.root ==> forall x :: x in events && x.root ==> x.section != e.section
    ensures RootsOnce(events + [e])
  {
    var all := events + [e];
    assert multiset(all) == multiset(events) + multiset{e};
    forall x | x in all && x.root
      ensures multiset(all)[x] == 1
    {
      if x == e {
        assert e !in events;
      } else {
        assert x in events;
      }
    }
  }

  /** Leaving a measuring wrapper: its event stays inside the section it was attributed to. */
  lemma {:induction false} PopKeeps(s: State, t: State, t0: int, now: int, at: int, returned: bool)
    requires Invariant(s, t0, now) && now <= at && s.frames != [] && !s.frames[|s.frames| - 1].Silent?
    requires Possible(s, Leave(at, returned)) && t == Step(s, Leave(at, returned))
    ensures Invariant(t, t0, at)
  {
    var f := s.frames[|s.frames| - 1];
    var event := EventOf(f, at, returned);
    assert f in s.frames;
    PopStack(s, t);
    RootsOnceGrows(s.events, event);
    PopSections(s, t, event);
    PopTimes(s, t, t0, now, at, event);
    NewEventSound(s, at, returned);
    PopEvents(s, t, t0, now, at, event);
  }

  lemma {:induction false} NewEventSound(s: State, at: int, returned: bool)
    requires StackOk(s) && SectionsOk(s) && s.frames != [] && !s.frames[|s.frames| - 1].Silent?
    ensures EventSound(EventOf(s.frames[|s.frames| - 1], at, returned))
  {
    var n := |s.frames| - 1;
    assert FrameOk(s.frames, n);
    if !s.frames[n].RootFrame? {
      var k := InnermostRoot(s.frames[..n]);
      assert s.frames[k] in s.frames;
    }
  }

  lemma {:induction false} PopTimes(s: State, t: State, t0: int, now: int, at: int, event: Event)
    requires TimesOk(s, t0, now) && now <= at && s.frames != []
    requires t.frames == s.frames[..|s.frames| - 1] && t.events == s.events + [event]
    requires t0 <= event.started <= event.ended <= at
    ensures TimesOk(t, t0, at)
  {
  }

  lemma {:induction false} PopEvents(s: State, t: State, t0: int, now: int, at: int, event: Event)
    requires EventsOk(s) && StackOk(s) && TimesOk(s, t0, now) && now <= at
    requires s.frames != [] && t.frames == s.frames[..|s.frames| - 1] && t.events == s.events + [event]
    requires EventSound(event) && event.ended == at
    requires var f := s.frames[|s.frames| - 1];
             && !f.Silent? && KeyOf(f) == Active(event.scope, event.section) && event.started == f.started
             && (event.root <==> f.RootFrame?)
    ensures EventsOk(t)
  {
    forall e | e in t.events
      ensures EventSound(e) && (!e.root ==> Anchored(t, e))
    {
      if e in s.events {
        if !e.root {
          AnchorMoves(s, t, e, event);
        }
      } else if !e.root {
        NewEventAnchored(s, t, e);
      }
    }
  }

  lemma {:induction false} PopSections(s: State, t: State, event: Event)
    requires SectionsOk(s) && s.frames != [] && t.frames == s.frames[..|s.frames| - 1] && t.nextSection == s.nextSection
    requires t.events == s.events + [event] && RootsOnce(t.events)
    requires var f := s.frames[|s.frames| - 1];
             event.root ==> f.RootFrame? && event.section == f.section
    ensures SectionsOk(t)
  {
    var f := s.frames[|s.frames| - 1];
    assert f in s.frames;
    forall e, g | e in t.events && e.root && g in t.frames && g.RootFrame?
      ensures e.section != g.section
    {
      var i :| 0 <= i < |t.frames| && t.frames[i] == g;
      assert s.frames[i] == g;
    }
  }

  /** An event of an open section stays anchored when the innermost wrapper is left: its root
      is still open, or is the one just recorded around it. */
  lemma {:induction false} AnchorMoves(s: State, t: State, e: Event, event: Event)
    requires s.frames != [] && t.frames == s.frames[..|s.frames| - 1] && t.events == s.events + [event]
    requires Anchored(s, e) && e.ended <= event.ended
    requires var f := s.frames[|s.frames| - 1];
             f.RootFrame? ==> event.root && Active(event.scope, event.section) == KeyOf(f) && event.started == f.started
    ensures Anchored(t, e)
  {
    var key := Active(e.scope, e.section);
    if RecordedAround(s.events, key, e.started, e.ended) {
      var r :| r in s.events && r.root && Active(r.scope, r.section) == key && r.started <= e.started && e.ended <= r.ended;
      assert r in t.events;
    } else {
      var i :| 0 <= i < |s.frames| && s.frames[i].RootFrame? && KeyOf(s.frames[i]) == key && s.frames[i].started <= e.started;
      if i < |t.frames| {
        assert t.frames[i] == s.frames[i];
      } else {
        assert event in t.events;
      }
    }
  }

  lemma {:induction false} NewEventAnchored(s: State, t: State, e: Event)
    requires StackOk(s) && s.frames != [] && t.frames == s.frames[..|s.frames| - 1]
    requires var f := s.frames[|s.frames| - 1];
             && (f.PhaseFrame? || f.ContextFrame?) && KeyOf(f) == Active(e.scope, e.section) && e.started == f.started
    ensures Anchored(t, e)
  {
    var n := |s.frames| - 1;
    assert FrameOk(s.frames, n);
    var k := InnermostRoot(t.frames);
    assert EnteredBefore(s.frames, k, n);
    assert t.frames[k] == s.frames[k];
    assert OpenSince(t.frames, Active(e.scope, e.section), e.started);
  }

  lemma {:induction false} SilentPopKeeps(s: State, t: State, t0: int, now: int, at: int, returned: bool)
    requires Invariant(s, t0, now) && now <= at && s.frames != [] && s.frames[|s.frames| - 1].Silent?
    requires Possible(s, Leave(at, returned)) && t == Step(s, Leave(at, returned))
    ensures Invariant(t, t0, at)
  {
    PopStack(s, t);
    forall e | e in t.events
      ensures EventSound(e) && (!e.root ==> Anchored(t, e))
    {
      if !e.root {
        assert Anchored(s, e);
        var key := Active(e.scope, e.section);
        if OpenSince(s.frames, key, e.started) {
          var i :| 0 <= i < |s.frames| && s.frames[i].RootFrame? && KeyOf(s.frames[i]) == key && s.frames[i].started <= e.started;
          assert t.frames[i] == s.frames[i];
        }
      }
    }
  }

  lemma {:induction false} StepKeeps(s: State, a: Action, t0: int, now: int)
    requires Invariant(s, t0, now) && Possible(s, a) && now <= a.at && s.nextSection > 0
    ensures Invariant(Step(s, a), t0, a.at) && Step(s, a).nextSection > 0
  {
    var t := Step(s, a);
    match a
    case EnterRoot(scope, at) => PushKeeps(s, RootFrame(scope, s.nextSection, at), t, t0, now, at);
    case EnterPhase(_, at) => PushKeeps(s, t.frames[|s.frames|], t, t0, now, at);
    case EnterContext(_, at) => PushKeeps(s, t.frames[|s.frames|], t, t0, now, at);
    case Leave(at, returned) =>
      if s.frames[|s.frames| - 1].Silent? {
        SilentPopKeeps(s, t, t0, now, at, returned);
      } else {
        PopKeeps(s, t, t0, now, at, returned);
      }
  }

  /** The last clock reading of a run. */
  function Now(actions: seq<Action>, t0: int): int {
    if actions == [] then t0 else actions[|actions| - 1].at
  }

  lemma {:induction false} RunKeepsInvariant(s: State, actions: seq<Action>, t: State, t0: int)
    requires s.active == [] && s.frames == [] && s.events == [] && s.nextSection > 0
    requires Clocked(actions, t0) && Leads(s, actions, t)
    ensures Invariant(t, t0, Now(actions, t0)) && t.nextSection > 0
    decreases |actions|
  {
    if actions == [] {
      assert OpenRoots([]) == [];
    } else {
      var n := |actions| - 1;
      var mid :| Leads(s, actions[..n], mid) && Possible(mid, actions[n]) && t == Step(mid, actions[n]);
      RunKeepsInvariant(s, actions[..n], mid, t0);
      StepKeeps(mid, actions[n], t0, Now(actions[..n], t0));
    }
  }

  /** What the events of a completed run have in common. */
  ghost predicate Recorded(events: seq<Event>, t0: int, t1: int) {
    && (forall e :: e in events ==> EventSound(e) && t0 <= e.started <= e.ended <= t1 && e.section > 0)
    && RootsOnce(events)
    && (forall e :: e in events && !e.root ==> RecordedAround(events, Active(e.scope, e.section), e.started, e.ended))
  }

  /** In every well-nested run from a reset probe that left all its wrappers, each event of a
      section lies inside the one root recorded for that section. */
  lemma {:induction false} RunRecords(s: State, actions: seq<Action>, t: State, t0: int, t1: int)
    requires s.active == [] && s.frames == [] && s.events == [] && s.nextSection > 0
    requires Clocked(actions, t0) && Leads(s, actions, t) && t.frames == []
    requires Now(actions, t0) <= t1
    ensures Recorded(t.events, t0, t1)
  {
    RunKeepsInvariant(s, actions, t, t0);
    forall e | e in t.events && !e.root
      ensures RecordedAround(t.events, Active(e.scope, e.section), e.started, e.ended)
    {
      assert Anchored(t, e);
    }
  }
}
