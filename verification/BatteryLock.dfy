/** The mutation-battery mutex: one lock file created with O_EXCL, stamped with the holder's
    pid, broken when the stamp names a process that is gone, removed by its owner. Processes
    run interleaved and may crash between any two steps.
 */
module BatteryLock {
  import opened Basics

  // ----- Reading the stamp

  /** A line of the lock file, as the reader classifies it: `pid=` with what follows read as
      an integer if it is one, `component=`, a bare decimal number, anything else. */
  datatype Line = PidLine(value: Option<int>) | ComponentLine(name: string) | Digits(number: int) | Other

  function ScanPid(lines: seq<Line>, pid: int): int {
    if lines == [] then pid
    else
      match lines[0]
      case PidLine(Some(v)) => ScanPid(lines[1..], v)
      case PidLine(None) => ScanPid(lines[1..], -1)
      case Digits(n) => ScanPid(lines[1..], if pid == -1 then n else pid)
      case _ => ScanPid(lines[1..], pid)
  }

  function ScanComponent(lines: seq<Line>, component: string): string {
    if lines == [] then component
    else if lines[0].ComponentLine? then ScanComponent(lines[1..], if lines[0].name == "" then "unnamed" else lines[0].name)
    else ScanComponent(lines[1..], component)
  }

  function HolderPid(file: Option<seq<Line>>): int {
    if file.None? then -1 else ScanPid(file.value, -1)
  }

  /** `_holder`: an unreadable or unparseable stamp reads as pid -1, which counts as held. */
  method Holder(file: Option<seq<Line>>) returns (pid: int, component: string)
    ensures pid == HolderPid(file)
    ensures file.None? ==> component == "unreadable stamp"
    ensures file.Some? ==> component == ScanComponent(file.value, "unnamed")
  {
    if file.None? {
      return -1, "unreadable stamp";
    }
    var lines := file.value;
    pid, component := -1, "unnamed";
    for i := 0 to |lines|
      invariant ScanPid(lines[i..], pid) == ScanPid(lines, -1)
      invariant ScanComponent(lines[i..], component) == ScanComponent(lines, "unnamed")
    {
      assert lines[i..][1..] == lines[i + 1..];
      match lines[i]
      case PidLine(Some(v)) => pid := v;
      case PidLine(None) => pid := -1;
      case ComponentLine(name) => component := if name == "" then "unnamed" else name;
      case Digits(n) => if pid == -1 { pid := n; }
      case Other =>
    }
  }

  /** The lines `acquire` writes: the pid, the component's first line, and whatever further
      lines the component's text brings along. */
  function StampLines(pid: int, component: string, rest: seq<Line>): seq<Line> {
    [PidLine(Some(pid)), ComponentLine(component)] + rest
  }

  /** Index of the last `pid=` line, or -1. */
  function LastPidLine(lines: seq<Line>): (k: int)
    ensures -1 <= k < |lines|
    ensures k >= 0 ==> lines[k].PidLine?
  {
    if lines == [] then -1
    else if lines[|lines| - 1].PidLine? then |lines| - 1
    else LastPidLine(lines[..|lines| - 1])
  }

  function FirstDigits(lines: seq<Line>): Option<int> {
    if lines == [] then None
    else if lines[0].Digits? && lines[0].number != -1 then Some(lines[0].number)
    else FirstDigits(lines[1..])
  }

  /** The pid a stamp with these further lines reads back as. */
  function ReadBack(rest: seq<Line>, pid: int): int {
    var k := LastPidLine(rest);
    if k < 0 then pid
    else if rest[k].value.Some? && rest[k].value.value != -1 then rest[k].value.value
    else if FirstDigits(rest[k + 1..]).Some? then FirstDigits(rest[k + 1..]).value
    else -1
  }

  /** The further lines leave the stamp with its writer. */
  predicate KeepsPid(rest: seq<Line>, pid: int) { ReadBack(rest, pid) == pid }

  /** The further lines do not make the stamp name another process: it reads as its writer's,
      or as no process at all, which counts as held. */
  predicate NamesNobodyElse(rest: seq<Line>, pid: int) { ReadBack(rest, pid) == pid || ReadBack(rest, pid) <= 0 }

  predicate NoneNamesAPid(lines: seq<Line>) { forall i :: 0 <= i < |lines| ==> !lines[i].PidLine? }

  lemma {:induction false} NoPidLines(lines: seq<Line>)
    ensures LastPidLine(lines) < 0 <==> NoneNamesAPid(lines)
    ensures forall i :: LastPidLine(lines) < i < |lines| ==> !lines[i].PidLine?
    decreases |lines|
  {
    if lines != [] {
      NoPidLines(lines[..|lines| - 1]);
    }
  }

  lemma {:induction false} ScanSplit(a: seq<Line>, b: seq<Line>, pid: int)
    ensures ScanPid(a + b, pid) == ScanPid(b, ScanPid(a, pid))
    decreases |a|
  {
    if a == [] {
      assert a + b == b;
    } else {
      assert (a + b)[1..] == a[1..] + b;
      ScanSplit(a[1..], b, match a[0]
                           case PidLine(Some(v)) => v
                           case PidLine(None) => -1
                           case Digits(n) => if pid == -1 then n else pid
                           case _ => pid);
    }
  }

  lemma {:induction false} ScanWithoutPidLines(lines: seq<Line>, pid: int)
    requires NoneNamesAPid(lines)
    ensures pid != -1 ==> ScanPid(lines, pid) == pid
    ensures pid == -1 ==> ScanPid(lines, pid) == if FirstDigits(lines).Some? then FirstDigits(lines).value else -1
    decreases |lines|
  {
    if lines != [] {
      assert !lines[0].PidLine?;
      ScanWithoutPidLines(lines[1..], pid);
      if pid == -1 && lines[0].Digits? {
        ScanWithoutPidLines(lines[1..], lines[0].number);
      }
    }
  }

  lemma {:induction false} ScanStampHead(pid: int, component: string)
    ensures ScanPid([PidLine(Some(pid)), ComponentLine(component)], -1) == pid
  {
    var head := [PidLine(Some(pid)), ComponentLine(component)];
    var tail := head[1..];
    assert ScanPid(head, -1) == ScanPid(tail, pid);
    assert tail[0] == ComponentLine(component) && tail[1..] == [];
    assert ScanPid(tail, pid) == ScanPid([], pid);
  }

  /** What the scan makes of the lines up to and with a `pid=` line. */
  lemma {:induction false} ScanUpTo(lines: seq<Line>, k: nat, pid: int)
    requires k < |lines| && lines[k].PidLine?
    ensures ScanPid(lines[..k + 1], pid) == if lines[k].value.Some? then lines[k].value.value else -1
  {
    var one := [lines[k]];
    assert lines[..k + 1] == lines[..k] + one;
    ScanSplit(lines[..k], one, pid);
    var before := ScanPid(lines[..k], pid);
    assert one[1..] == [];
    assert ScanPid(one, before) == ScanPid([], if lines[k].value.Some? then lines[k].value.value else -1);
  }

  lemma {:induction false} ScanLast(lines: seq<Line>, k: nat, pid: int)
    requires k < |lines| && lines[k].PidLine?
    requires NoneNamesAPid(lines[k + 1..])
    ensures var v := if lines[k].value.Some? then lines[k].value.value else -1;
            var digits := FirstDigits(lines[k + 1..]);
            ScanPid(lines, pid) == if v != -1 then v else if digits.Some? then digits.value else -1
  {
    assert lines == lines[..k + 1] + lines[k + 1..];
    ScanSplit(lines[..k + 1], lines[k + 1..], pid);
    ScanUpTo(lines, k, pid);
    ScanWithoutPidLines(lines[k + 1..], ScanPid(lines[..k + 1], pid));
  }

  lemma {:induction false} ScanRest(rest: seq<Line>, pid: int)
    requires pid > 0
    ensures ScanPid(rest, pid) == ReadBack(rest, pid)
  {
    var k := LastPidLine(rest);
    NoPidLines(rest);
    if k < 0 {
      ScanWithoutPidLines(rest, pid);
    } else {
      var after := rest[k + 1..];
      assert NoneNamesAPid(after) by {
        assert forall i :: 0 <= i < |after| ==> after[i] == rest[k + 1 + i];
      }
      ScanLast(rest, k, pid);
    }
  }

  /** A holder reads its own stamp back exactly when no further line of the component takes
      the pid over; a one-line component never does. */
  lemma {:induction false} StampReadsBackIff(pid: int, component: string, rest: seq<Line>)
    requires pid > 0
    ensures HolderPid(Some(StampLines(pid, component, rest))) == ReadBack(rest, pid)
    ensures HolderPid(Some(StampLines(pid, component, rest))) == pid <==> KeepsPid(rest, pid)
    ensures rest == [] ==> KeepsPid(rest, pid)
  {
    ScanSplit([PidLine(Some(pid)), ComponentLine(component)], rest, -1);
    ScanStampHead(pid, component);
    ScanRest(rest, pid);
  }

  /** A component text with a line "pid=8" makes pid 7's own stamp name pid 8. */
  lemma {:induction false} ComponentTakesPidOver()
    ensures HolderPid(Some(StampLines(7, "battery", [PidLine(Some(8))]))) == 8
  {
    var rest := [PidLine(Some(8))];
    ScanSplit([PidLine(Some(7)), ComponentLine("battery")], rest, -1);
    ScanStampHead(7, "battery");
    ScanUpTo(rest, 0, 7);
    assert rest[..1] == rest;
  }

  // ----- The step system

  /** Where a process stands: outside, holding the freshly created unstamped file, holding the
      lock, about to unlink its own lock, decided to unlink a stale one, or gone. */
  datatype Phase = Idle | Created(inode: nat) | Holding | Unlinking | Breaking | Dead

  /** The lock path's directory entry, the files behind it, and every process ever started. */
  datatype State = State(lock: Option<nat>, files: map<nat, seq<Line>>, next: nat, procs: map<int, Phase>)

  predicate Alive(s: State, pid: int) {
    pid in s.procs && !s.procs[pid].Dead?
  }

  /** The pid the stamp behind the lock path names. */
  function Stamped(s: State): int {
    if s.lock.Some? && s.lock.value in s.files then HolderPid(Some(s.files[s.lock.value])) else -1
  }

  predicate Stale(s: State) {
    s.lock.Some? && Stamped(s) > 0 && !Alive(s, Stamped(s))
  }

  datatype Step =
    | Start(pid: int)
    | TryCreate(pid: int)
    | WriteStamp(pid: int, component: string, rest: seq<Line>)
    | BreakStale(pid: int)
    | DecideBreak(pid: int)
    | UnlinkStale(pid: int)
    | ReleaseRead(pid: int)
    | ReleaseUnlink(pid: int)
    | Crash(pid: int)

  /** One step. With `atomic`, reading the stamp, checking liveness and unlinking the stale
      file happen at once; without it they are a decision and a later unlink. A waiting or
      timed-out acquire changes nothing and needs no step. */
  ghost predicate Next(atomic: bool, s: State, step: Step, t: State) {
    match step
    case Start(p) => p > 0 && p !in s.procs && t == s.(procs := s.procs[p := Idle])
    case TryCreate(p) =>
      && p in s.procs && s.procs[p].Idle? && s.lock.None?
      && t == State(Some(s.next), s.files[s.next := []], s.next + 1, s.procs[p := Created(s.next)])
    case WriteStamp(p, component, rest) =>
      && p in s.procs && s.procs[p].Created?
      && t == s.(files := s.files[s.procs[p].inode := StampLines(p, component, rest)], procs := s.procs[p := Holding])
    case BreakStale(p) =>
      && atomic && p in s.procs && s.procs[p].Idle? && Stale(s) && t == s.(lock := None)
    case DecideBreak(p) =>
      && !atomic && p in s.procs && s.procs[p].Idle? && Stale(s) && t == s.(procs := s.procs[p := Breaking])
    case UnlinkStale(p) =>
      && p in s.procs && s.procs[p].Breaking? && t == s.(lock := None, procs := s.procs[p := Idle])
    case ReleaseRead(p) =>
      && p in s.procs && (s.procs[p].Holding? || s.procs[p].Idle?)
      && t == (if Stamped(s) == p then s.(procs := s.procs[p := Unlinking]) else s.(procs := s.procs[p := Idle]))
    case ReleaseUnlink(p) =>
      && p in s.procs && s.procs[p].Unlinking? && t == s.(lock := None, procs := s.procs[p := Idle])
    case Crash(p) =>
      && p in s.procs && t == s.(procs := s.procs[p := Dead])
  }

  /** Nobody is inside yet; a lock file may have been left behind with any content. */
  ghost predicate Init(s: State) {
    && (forall p :: p in s.procs ==> p > 0 && (s.procs[p].Idle? || s.procs[p].Dead?))
    && (forall i :: i in s.files ==> i < s.next)
    && (s.lock.Some? ==> s.lock.value in s.files)
  }

  datatype Run = Run(states: seq<State>, steps: seq<Step>)

  ghost predicate StepAt(atomic: bool, r: Run, i: nat)
    requires i < |r.steps| && |r.states| == |r.steps| + 1
  {
    Next(atomic, r.states[i], r.steps[i], r.states[i + 1])
  }

  ghost predicate IsRun(atomic: bool, r: Run) {
    && |r.states| == |r.steps| + 1
    && Init(r.states[0])
    && forall i :: 0 <= i < |r.steps| ==> StepAt(atomic, r, i)
  }

  /** Between a successful acquire and the end of release. */
  predicate Inside(s: State, p: int) {
    p in s.procs && (s.procs[p].Created? || s.procs[p].Holding? || s.procs[p].Unlinking?)
  }

  predicate IsCreated(s: State, p: int) { p in s.procs && s.procs[p].Created? }
  predicate IsUnlinking(s: State, p: int) { p in s.procs && s.procs[p].Unlinking? }
  predicate IsHolding(s: State, p: int) { p in s.procs && s.procs[p].Holding? }

  /** A process that has not stamped yet still owns the empty file behind the lock path. */
  ghost predicate OwnsEmptyLock(s: State, p: int)
    requires IsCreated(s, p)
  {
    s.lock == Some(s.procs[p].inode) && s.procs[p].inode in s.files && s.files[s.procs[p].inode] == []
  }

  /** What every run keeps, whatever the component texts say. */
  ghost predicate Invariant(s: State) {
    && (forall p :: p in s.procs ==> p > 0 && !s.procs[p].Breaking?)
    && (forall i :: i in s.files ==> i < s.next)
    && (s.lock.Some? ==> s.lock.value in s.files)
    && (forall p :: IsCreated(s, p) ==> OwnsEmptyLock(s, p))
    && (forall p, q :: IsCreated(s, p) && IsCreated(s, q) ==> p == q)
    && (forall p :: IsUnlinking(s, p) ==> Stamped(s) == p)
  }

  lemma {:induction false} CreatedReadsAsHeld(s: State, p: int)
    requires Invariant(s) && IsCreated(s, p)
    ensures Stamped(s) == -1
  {
    assert OwnsEmptyLock(s, p);
  }

  /** Only `p` moved, to `phase`. */
  ghost predicate Moved(s: State, t: State, p: int, phase: Phase) {
    t.procs == s.procs[p := phase]
  }

  lemma {:induction false} OthersStay(s: State, t: State, p: int, phase: Phase)
    requires Moved(s, t, p, phase)
    ensures forall q :: q != p ==> (IsCreated(t, q) <==> IsCreated(s, q))
    ensures forall q :: q != p ==> (IsUnlinking(t, q) <==> IsUnlinking(s, q))
    ensures forall q :: q != p ==> (IsHolding(t, q) <==> IsHolding(s, q))
    ensures IsCreated(t, p) <==> phase.Created?
    ensures IsUnlinking(t, p) <==> phase.Unlinking?
    ensures IsHolding(t, p) <==> phase.Holding?
  {
  }

  /** The files and the lock are as before and `p` moved where nothing is asked of it. */
  lemma {:induction false} QuietMove(s: State, t: State, p: int, phase: Phase)
    requires Invariant(s) && p > 0 && Moved(s, t, p, phase)
    requires phase.Idle? || phase.Dead? || (phase.Unlinking? && Stamped(s) == p)
    requires t.lock == s.lock && t.files == s.files && t.next == s.next
    ensures Invariant(t)
  {
    OthersStay(s, t, p, phase);
    assert Stamped(t) == Stamped(s);
    forall q | IsCreated(t, q)
      ensures OwnsEmptyLock(t, q)
    {
      assert OwnsEmptyLock(s, q);
    }
  }

  lemma {:induction false} CreateKeeps(s: State, p: int, t: State)
    requires Invariant(s) && Next(true, s, TryCreate(p), t)
    ensures Invariant(t)
  {
    OthersStay(s, t, p, Created(s.next));
    forall q
      ensures !IsCreated(s, q) && !IsUnlinking(s, q)
    {
      assert IsCreated(s, q) ==> OwnsEmptyLock(s, q);
    }
    assert OwnsEmptyLock(t, p);
  }

  lemma {:induction false} StampKeeps(s: State, p: int, component: string, rest: seq<Line>, t: State)
    requires Invariant(s) && Next(true, s, WriteStamp(p, component, rest), t)
    ensures Invariant(t) && Stamped(t) == ReadBack(rest, p) && t.lock.Some?
  {
    assert IsCreated(s, p);
    CreatedReadsAsHeld(s, p);
    OthersStay(s, t, p, Holding);
    assert OwnsEmptyLock(s, p);
    StampReadsBackIff(p, component, rest);
  }

  /** Taking the lock away: allowed when no process owns an unstamped file and none but `p`
      is about to unlink. */
  lemma {:induction false} RemoveKeeps(s: State, p: int, t: State)
    requires Invariant(s) && p in s.procs && Stamped(s) > 0 && (IsUnlinking(s, p) || !Alive(s, Stamped(s)))
    requires t.lock == None && t.files == s.files && t.next == s.next
    requires t.procs == s.procs[p := Idle]
    ensures Invariant(t)
  {
    OthersStay(s, t, p, Idle);
    forall q
      ensures !IsCreated(t, q) && !IsUnlinking(t, q)
    {
      if IsCreated(s, q) {
        CreatedReadsAsHeld(s, q);
      }
      assert IsUnlinking(s, q) ==> Alive(s, q);
    }
  }

  /** Every atomic step keeps the invariant. */
  lemma {:induction false} InvariantKept(s: State, step: Step, t: State)
    requires Invariant(s) && Next(true, s, step, t)
    ensures Invariant(t)
  {
    var p := step.pid;
    match step
    case Start(_) => QuietMove(s, t, p, Idle);
    case TryCreate(_) => CreateKeeps(s, p, t);
    case WriteStamp(_, component, rest) => StampKeeps(s, p, component, rest, t);
    case BreakStale(_) =>
      assert s.procs[p := Idle] == s.procs;
      RemoveKeeps(s, p, t);
    case DecideBreak(_) =>
    case UnlinkStale(_) =>
    case ReleaseRead(_) =>
      if Stamped(s) == p {
        QuietMove(s, t, p, Unlinking);
      } else {
        QuietMove(s, t, p, Idle);
      }
    case ReleaseUnlink(_) =>
      assert IsUnlinking(s, p);
      RemoveKeeps(s, p, t);
    case Crash(_) => QuietMove(s, t, p, Dead);
  }

  lemma {:induction false} RunKeepsInvariant(r: Run, i: nat)
    requires IsRun(true, r) && i < |r.states|
    ensures Invariant(r.states[i])
    decreases i
  {
    if i > 0 {
      RunKeepsInvariant(r, i - 1);
      assert StepAt(true, r, i - 1);
      InvariantKept(r.states[i - 1], r.steps[i - 1], r.states[i]);
    }
  }

  /** A step takes the lock away only from a dead process's stamp or, in release, from its
      own; an unparseable stamp and a live holder's are never broken. */
  lemma {:induction false} RemovalIsJustified(r: Run, i: nat)
    requires IsRun(true, r) && i < |r.steps|
    requires r.states[i].lock.Some? && r.states[i + 1].lock != r.states[i].lock
    ensures var s := r.states[i];
            && Stamped(s) > 0
            && ((r.steps[i].BreakStale? && !Alive(s, Stamped(s)))
                || (r.steps[i].ReleaseUnlink? && Stamped(s) == r.steps[i].pid))
  {
    RunKeepsInvariant(r, i);
    assert StepAt(true, r, i);
    assert r.steps[i].ReleaseUnlink? ==> IsUnlinking(r.states[i], r.steps[i].pid);
  }

  // ----- Mutual exclusion, and the texts it depends on

  /** Only one process is inside, and the stamp does not name anybody else. */
  ghost predicate Exclusive(s: State) {
    && (forall p :: IsHolding(s, p) ==> s.lock.Some? && (Stamped(s) == p || Stamped(s) <= 0))
    && (forall p, q :: Inside(s, p) && Inside(s, q) ==> p == q)
  }

  lemma {:induction false} InsideHasLock(s: State, p: int)
    requires Invariant(s) && Exclusive(s) && Inside(s, p)
    ensures s.lock.Some? && (Stamped(s) == p || Stamped(s) <= 0) && Alive(s, p)
  {
    if IsCreated(s, p) {
      assert OwnsEmptyLock(s, p);
    } else if IsUnlinking(s, p) {
      assert Stamped(s) == p;
    } else {
      assert IsHolding(s, p);
    }
  }

  /** Nobody but `p` is inside when the lock is free, stale, or stamped by `p`. */
  lemma {:induction false} NobodyElse(s: State, p: int)
    requires Invariant(s) && Exclusive(s)
    requires s.lock.None? || Stale(s) || Inside(s, p) || (p > 0 && Stamped(s) == p)
    ensures forall q :: Inside(s, q) ==> q == p && s.lock.Some? && !Stale(s)
  {
    forall q | Inside(s, q)
      ensures q == p && s.lock.Some? && !Stale(s)
    {
      InsideHasLock(s, q);
    }
  }

  lemma {:induction false} ExclusiveKept(s: State, step: Step, t: State)
    requires Invariant(s) && Exclusive(s) && Next(true, s, step, t)
    requires step.WriteStamp? ==> NamesNobodyElse(step.rest, step.pid)
    ensures Exclusive(t)
  {
    var p := step.pid;
    match step
    case Start(_) => Leaves(s, t, p, Idle);
    case TryCreate(_) =>
      NobodyElse(s, p);
      Alone(s, t, p, Created(s.next));
    case WriteStamp(_, component, rest) =>
      StampKeeps(s, p, component, rest, t);
      assert Inside(s, p);
      NobodyElse(s, p);
      Alone(s, t, p, Holding);
    case BreakStale(_) =>
      NobodyElse(s, p);
      assert t.procs == s.procs;
      assert forall q :: Inside(t, q) <==> Inside(s, q);
      assert forall q :: IsHolding(t, q) ==> Inside(s, q);
    case DecideBreak(_) =>
    case UnlinkStale(_) =>
    case ReleaseRead(_) =>
      if Stamped(s) == p {
        assert p in s.procs;
        NobodyElse(s, p);
        Alone(s, t, p, Unlinking);
      } else {
        Leaves(s, t, p, Idle);
      }
    case ReleaseUnlink(_) =>
      assert Inside(s, p);
      NobodyElse(s, p);
      Alone(s, t, p, Idle);
    case Crash(_) => Leaves(s, t, p, Dead);
  }

  lemma {:induction false} Alone(s: State, t: State, p: int, phase: Phase)
    requires Moved(s, t, p, phase) && forall q :: Inside(s, q) ==> q == p
    ensures forall q :: Inside(t, q) ==> q == p && t.procs[q] == phase
    ensures forall q :: IsHolding(t, q) ==> q == p && phase.Holding?
  {
    forall q
      ensures Inside(t, q) ==> q == p && t.procs[q] == phase
      ensures IsHolding(t, q) ==> Inside(t, q)
    {
      assert q != p ==> (Inside(t, q) <==> Inside(s, q));
    }
  }

  lemma {:induction false} Leaves(s: State, t: State, p: int, phase: Phase)
    requires Exclusive(s) && Moved(s, t, p, phase) && (phase.Idle? || phase.Dead?)
    requires t.lock == s.lock && t.files == s.files
    ensures Exclusive(t)
  {
    OthersStay(s, t, p, phase);
    assert Stamped(t) == Stamped(s);
    forall q | Inside(t, q)
      ensures Inside(s, q)
    {
      assert q != p;
    }
  }

  /** Every stamp the run writes has an admitted text. */
  ghost predicate Uses(r: Run, allowed: (int, seq<Line>) -> bool) {
    forall i :: 0 <= i < |r.steps| && r.steps[i].WriteStamp? ==> allowed(r.steps[i].pid, r.steps[i].rest)
  }

  lemma {:induction false} RunStaysExclusive(r: Run, i: nat)
    requires IsRun(true, r) && Uses(r, (p, rest) => NamesNobodyElse(rest, p)) && i < |r.states|
    ensures Exclusive(r.states[i])
    decreases i
  {
    if i > 0 {
      RunStaysExclusive(r, i - 1);
      RunKeepsInvariant(r, i - 1);
      assert StepAt(true, r, i - 1);
      ExclusiveKept(r.states[i - 1], r.steps[i - 1], r.states[i]);
    }
  }

  /** Mutual exclusion in every reachable state, crashes at any point included, as long as no
      component text makes a stamp name another process. */
  lemma {:induction false} AtMostOneInside(r: Run, i: nat, p: int, q: int)
    requires IsRun(true, r) && Uses(r, (p, rest) => NamesNobodyElse(rest, p)) && i < |r.states|
    requires Inside(r.states[i], p) && Inside(r.states[i], q)
    ensures p == q
  {
    RunStaysExclusive(r, i);
  }

  /** The run in which `p`'s own stamp names an absent process: `r` breaks it and gets in. */
  function TakeoverState(p: int, r: int, rest: seq<Line>, step: nat): State {
    var stamped := map[0 := StampLines(p, "battery", rest)];
    match step
    case 0 => State(None, map[], 0, map[p := Idle, r := Idle])
    case 1 => State(Some(0), map[0 := []], 1, map[p := Created(0), r := Idle])
    case 2 => State(Some(0), stamped, 1, map[p := Holding, r := Idle])
    case 3 => State(None, stamped, 1, map[p := Holding, r := Idle])
    case _ => State(Some(1), stamped[1 := []], 2, map[p := Holding, r := Created(1)])
  }

  function TakeoverRun(p: int, r: int, rest: seq<Line>): Run {
    Run([TakeoverState(p, r, rest, 0), TakeoverState(p, r, rest, 1), TakeoverState(p, r, rest, 2),
         TakeoverState(p, r, rest, 3), TakeoverState(p, r, rest, 4)],
        [TryCreate(p), WriteStamp(p, "battery", rest), BreakStale(r), TryCreate(r)])
  }

  /** Atomic breaking and fresh pids do not help against such a text. */
  lemma {:induction false} TakeoverLetsTwoIn(p: int, r: int, rest: seq<Line>)
    requires p > 0 && r > 0 && p != r && ReadBack(rest, p) > 0 && ReadBack(rest, p) != p && ReadBack(rest, p) != r
    ensures IsRun(true, TakeoverRun(p, r, rest))
    ensures Inside(TakeoverState(p, r, rest, 4), p) && Inside(TakeoverState(p, r, rest, 4), r)
  {
    var run := TakeoverRun(p, r, rest);
    var s0, s1, s2 := TakeoverState(p, r, rest, 0), TakeoverState(p, r, rest, 1), TakeoverState(p, r, rest, 2);
    var s3, s4 := TakeoverState(p, r, rest, 3), TakeoverState(p, r, rest, 4);
    assert StepAt(true, run, 0) by {
      assert s0.procs[p := Created(0)] == s1.procs && s0.files[0 := []] == s1.files;
    }
    assert StepAt(true, run, 1) by {
      assert s1.procs[p := Holding] == s2.procs;
      assert s1.files[0 := StampLines(p, "battery", rest)] == s2.files;
    }
    assert StepAt(true, run, 2) by {
      StampReadsBackIff(p, "battery", rest);
    }
    assert StepAt(true, run, 3) by {
      assert s3.procs[r := Created(1)] == s4.procs;
    }
  }

  /** With the text of `ComponentTakesPidOver`: processes 7 and 2 are inside at once. */
  lemma {:induction false} PidLineLetsTwoIn()
    ensures TwoInside(TakeoverRun(7, 2, [PidLine(Some(8))]), 4, 7, 2)
  {
    ComponentTakesPidOver();
    StampReadsBackIff(7, "battery", [PidLine(Some(8))]);
    TakeoverLetsTwoIn(7, 2, [PidLine(Some(8))]);
  }

  /** Runs whose texts are all admitted never have two processes inside. */
  ghost predicate Excludes(allowed: (int, seq<Line>) -> bool) {
    forall r, i, p, q :: TwoInside(r, i, p, q) && Uses(r, allowed) ==> p == q
  }

  /** State `i` of the run has `p` and `q` inside. */
  ghost predicate TwoInside(r: Run, i: nat, p: int, q: int) {
    IsRun(true, r) && i < |r.states| && Inside(r.states[i], p) && Inside(r.states[i], q)
  }

  /** Mutual exclusion holds exactly for the texts whose stamps name nobody else. */
  lemma {:induction false} ExclusionIff(allowed: (int, seq<Line>) -> bool)
    ensures Excludes(allowed) <==> forall p, rest :: p > 0 && allowed(p, rest) ==> NamesNobodyElse(rest, p)
  {
    if forall p, rest :: p > 0 && allowed(p, rest) ==> NamesNobodyElse(rest, p) {
      forall r, i, p, q | TwoInside(r, i, p, q) && Uses(r, allowed)
        ensures p == q
      {
        SafeTextsAreUsed(r, allowed);
        AtMostOneInside(r, i, p, q);
      }
    } else {
      var p, rest :| p > 0 && allowed(p, rest) && !NamesNobodyElse(rest, p);
      var other := ReadBack(rest, p);
      var r := if p != 1 && other != 1 then 1 else if p != 2 && other != 2 then 2 else 3;
      TakeoverLetsTwoIn(p, r, rest);
      var run := TakeoverRun(p, r, rest);
      assert Uses(run, allowed);
      assert TwoInside(run, 4, p, r);
    }
  }

  lemma {:induction false} SafeTextsAreUsed(r: Run, allowed: (int, seq<Line>) -> bool)
    requires IsRun(true, r) && Uses(r, allowed)
    requires forall p, rest :: p > 0 && allowed(p, rest) ==> NamesNobodyElse(rest, p)
    ensures Uses(r, (p, rest) => NamesNobodyElse(rest, p))
  {
    forall i | 0 <= i < |r.steps| && r.steps[i].WriteStamp?
      ensures NamesNobodyElse(r.steps[i].rest, r.steps[i].pid)
    {
      RunKeepsInvariant(r, i);
      assert StepAt(true, r, i);
    }
  }

  // ----- Failing closed

  /** The lock path leads to a file whose stamp cannot be read, and nobody is about to stamp it. */
  ghost predicate Wedged(s: State, inode: nat) {
    && Invariant(s)
    && s.lock == Some(inode) && Stamped(s) == -1
    && forall p :: !IsCreated(s, p) && !IsUnlinking(s, p)
  }

  /** A crash between create and stamp wedges the lock. */
  lemma {:induction false} CrashWedges(s: State, p: int, t: State)
    requires Invariant(s) && IsCreated(s, p) && Next(true, s, Crash(p), t)
    ensures Wedged(t, s.procs[p].inode)
    ensures forall q :: Inside(t, q) ==> q != p && IsHolding(s, q) && IsHolding(t, q)
  {
    InvariantKept(s, Crash(p), t);
    CreatedReadsAsHeld(s, p);
    OthersStay(s, t, p, Dead);
    assert OwnsEmptyLock(s, p);
    assert Stamped(t) == Stamped(s);
    NoneUnlinking(s);
    forall q | Inside(t, q)
      ensures q != p && IsHolding(s, q) && IsHolding(t, q)
    {
      assert q != p && !IsCreated(s, q) && !IsUnlinking(s, q);
    }
  }

  lemma {:induction false} NoneUnlinking(s: State)
    requires Invariant(s) && Stamped(s) <= 0
    ensures forall q :: !IsUnlinking(s, q)
  {
    forall q
      ensures !IsUnlinking(s, q)
    {
      assert IsUnlinking(s, q) ==> q in s.procs;
    }
  }

  lemma {:induction false} WedgedStays(s: State, inode: nat, step: Step, t: State)
    requires Wedged(s, inode) && Next(true, s, step, t)
    ensures Wedged(t, inode)
    ensures forall q :: Inside(t, q) ==> Inside(s, q)
  {
    InvariantKept(s, step, t);
    assert !IsCreated(s, step.pid) && !IsUnlinking(s, step.pid);
    assert Stamped(t) == Stamped(s);
    NoneUnlinking(t);
    assert forall q :: IsCreated(t, q) ==> IsCreated(s, q);
  }

  /** Fails closed: after a crash between create and stamp the lock stays where it is in every
      later state, and nobody who was not already inside ever gets in. */
  lemma {:induction false} CrashBeforeStampWedges(r: Run, i: nat, j: nat, p: int)
    requires IsRun(true, r) && i < j < |r.states|
    requires r.steps[i] == Crash(p) && IsCreated(r.states[i], p)
    ensures Wedged(r.states[j], r.states[i].procs[p].inode)
    ensures forall q :: Inside(r.states[j], q) ==> q != p && Inside(r.states[i], q)
    decreases j
  {
    assert StepAt(true, r, j - 1);
    if j == i + 1 {
      RunKeepsInvariant(r, i);
      CrashWedges(r.states[i], p, r.states[j]);
    } else {
      CrashBeforeStampWedges(r, i, j - 1, p);
      WedgedStays(r.states[j - 1], r.states[i].procs[p].inode, r.steps[j - 1], r.states[j]);
    }
  }

  // ----- Why breaking must be one step

  function StampOf(p: int): seq<Line> { StampLines(p, "battery", []) }

  /** The lock path, the files and the two processes after a number of steps in which both
      see the same stale stamp of process 9 and the second unlinks the first one's new lock. */
  function TwoBreakers(step: nat): State {
    var stale := map[0 := StampOf(9)];
    var held := stale[1 := StampOf(1)];
    match step
    case 0 => Both(Some(0), stale, 1, Idle, Idle)
    case 1 => Both(Some(0), stale, 1, Breaking, Idle)
    case 2 => Both(Some(0), stale, 1, Breaking, Breaking)
    case 3 => Both(None, stale, 1, Idle, Breaking)
    case 4 => Both(Some(1), stale[1 := []], 2, Created(1), Breaking)
    case 5 => Both(Some(1), held, 2, Holding, Breaking)
    case 6 => Both(None, held, 2, Holding, Idle)
    case 7 => Both(Some(2), held[2 := []], 3, Holding, Created(2))
    case _ => Both(Some(2), held[2 := StampOf(2)], 3, Holding, Holding)
  }

  function Both(lock: Option<nat>, files: map<nat, seq<Line>>, next: nat, one: Phase, two: Phase): State {
    State(lock, files, next, map[1 := one, 2 := two, 9 := Dead])
  }

  lemma {:induction false} StampOfReadsBack(p: int)
    requires p > 0
    ensures HolderPid(Some(StampOf(p))) == p
  {
    StampReadsBackIff(p, "battery", []);
  }

  /** Without the atomicity assumption the same code lets two processes in at once. */
  lemma {:induction false} TwoBreakersBothHold()
    ensures Init(TwoBreakers(0))
    ensures Next(false, TwoBreakers(0), DecideBreak(1), TwoBreakers(1))
    ensures Next(false, TwoBreakers(1), DecideBreak(2), TwoBreakers(2))
    ensures Next(false, TwoBreakers(2), UnlinkStale(1), TwoBreakers(3))
    ensures Next(false, TwoBreakers(3), TryCreate(1), TwoBreakers(4))
    ensures Next(false, TwoBreakers(4), WriteStamp(1, "battery", []), TwoBreakers(5))
    ensures Next(false, TwoBreakers(5), UnlinkStale(2), TwoBreakers(6))
    ensures Next(false, TwoBreakers(6), TryCreate(2), TwoBreakers(7))
    ensures Next(false, TwoBreakers(7), WriteStamp(2, "battery", []), TwoBreakers(8))
    ensures Inside(TwoBreakers(8), 1) && Inside(TwoBreakers(8), 2)
  {
    BothSeeStale();
    FirstBreakerHolds();
    SecondBreakerHolds();
  }

  lemma {:induction false} BothSeeStale()
    ensures Init(TwoBreakers(0))
    ensures Next(false, TwoBreakers(0), DecideBreak(1), TwoBreakers(1))
    ensures Next(false, TwoBreakers(1), DecideBreak(2), TwoBreakers(2))
    ensures Next(false, TwoBreakers(2), UnlinkStale(1), TwoBreakers(3))
  {
    StampOfReadsBack(9);
    assert TwoBreakers(0).procs[1 := Breaking] == TwoBreakers(1).procs;
    assert TwoBreakers(1).procs[2 := Breaking] == TwoBreakers(2).procs;
    assert TwoBreakers(2).procs[1 := Idle] == TwoBreakers(3).procs;
  }

  lemma {:induction false} FirstBreakerHolds()
    ensures Next(false, TwoBreakers(3), TryCreate(1), TwoBreakers(4))
    ensures Next(false, TwoBreakers(4), WriteStamp(1, "battery", []), TwoBreakers(5))
  {
    assert TwoBreakers(3).procs[1 := Created(1)] == TwoBreakers(4).procs;
    assert TwoBreakers(4).procs[1 := Holding] == TwoBreakers(5).procs;
    assert TwoBreakers(4).files[1 := StampOf(1)] == TwoBreakers(5).files;
  }

  lemma {:induction false} SecondBreakerHolds()
    ensures Next(false, TwoBreakers(5), UnlinkStale(2), TwoBreakers(6))
    ensures Next(false, TwoBreakers(6), TryCreate(2), TwoBreakers(7))
    ensures Next(false, TwoBreakers(7), WriteStamp(2, "battery", []), TwoBreakers(8))
  {
    assert TwoBreakers(5).procs[2 := Idle] == TwoBreakers(6).procs;
    assert TwoBreakers(6).procs[2 := Created(2)] == TwoBreakers(7).procs;
    assert TwoBreakers(7).procs[2 := Holding] == TwoBreakers(8).procs;
    assert TwoBreakers(7).files[2 := StampOf(2)] == TwoBreakers(8).files;
  }
}
