/** The tokenised command channel of the reader-pin instrument. The parent writes a command
    file and waits for the ack carrying its token; the paused writer rescans all command
    files, which are never deleted, and serves each token once; an observer serves probes.
    Parent, writer and observer run interleaved.
 */
module CheckpointChannel {
  datatype Kind = Pause | Write | Checkpoint | Probe
  datatype Command = Command(token: nat, kind: Kind)

  /** What the outside can tell apart, in the order it happened. */
  datatype Event = Issued(command: Command) | Executed(token: nat) | Returned(command: Command)

  /** The parent between commands, waiting for an ack, or given up on it. */
  datatype Parent = Ready | Awaiting(command: Command) | GaveUp(command: Command)

  /** The writer inside its scan of a directory listing, serving a command it has marked
      served, done with the work but not yet with the ack, or stopped. */
  datatype Writer = Scanning(todo: seq<Command>)
                  | Serving(command: Command, rest: seq<Command>)
                  | Acking(command: Command, rest: seq<Command>)
                  | Stopped

  datatype Observer = Watching | Probing(command: Command)

  datatype State = State(
    nextToken: nat,
    commands: set<Command>,
    acks: set<Command>,
    parent: Parent,
    writer: Writer,
    observer: Observer,
    served: map<Kind, set<nat>>,
    history: seq<Event>)

  datatype Step =
    | Issue(kind: Kind)
    | Receive
    | TimeOut
    | List(listing: seq<Command>)
    | Skip
    | Begin
    | Work
    | Ack
    | Stop
    | BeginProbe(command: Command)
    | AckProbe

  function Served(s: State, kind: Kind): set<nat> {
    if kind in s.served then s.served[kind] else {}
  }

  function Mark(s: State, c: Command): State {
    s.(served := s.served[c.kind := Served(s, c.kind) + {c.token}])
  }

  ghost predicate Init(s: State) {
    s == State(1, {}, {}, Ready, Scanning([]), Watching, map[], [])
  }

  ghost predicate Next(s: State, step: Step, t: State) {
    match step
    case Issue(kind) =>
      var c := Command(s.nextToken, kind);
      && s.parent.Ready?
      && t == s.(nextToken := s.nextToken + 1, commands := s.commands + {c}, parent := Awaiting(c),
                 history := s.history + [Issued(c)])
    case Receive =>
      && s.parent.Awaiting? && s.parent.command in s.acks
      && t == s.(parent := Ready, history := s.history + [Returned(s.parent.command)])
    case TimeOut =>
      s.parent.Awaiting? && t == s.(parent := GaveUp(s.parent.command))
    case List(listing) =>
      && s.writer == Scanning([]) && (forall c :: c in listing ==> c in s.commands)
      && t == s.(writer := Scanning(listing))
    case Skip =>
      // A probe, a token already served, or a file that could not be read this time.
      && s.writer.Scanning? && s.writer.todo != []
      && t == s.(writer := Scanning(s.writer.todo[1..]))
    case Begin =>
      && s.writer.Scanning? && s.writer.todo != []
      && var c := s.writer.todo[0];
      && c.kind != Probe && c.token !in Served(s, c.kind)
      && t == Mark(s, c).(writer := Serving(c, s.writer.todo[1..]))
    case Work =>
      && s.writer.Serving?
      && t == s.(writer := Acking(s.writer.command, s.writer.rest),
                 history := if s.writer.command.kind == Checkpoint
                            then s.history + [Executed(s.writer.command.token)] else s.history)
    case Ack =>
      && s.writer.Acking?
      && t == s.(acks := s.acks + {s.writer.command}, writer := Scanning(s.writer.rest))
    case Stop =>
      s.writer.Scanning? && t == s.(writer := Stopped)
    case BeginProbe(c) =>
      && s.observer.Watching? && c in s.commands && c.kind == Probe && c.token !in Served(s, Probe)
      && t == Mark(s, c).(observer := Probing(c))
    case AckProbe =>
      s.observer.Probing? && t == s.(acks := s.acks + {s.observer.command}, observer := Watching)
  }

  datatype Run = Run(states: seq<State>, steps: seq<Step>)

  ghost predicate StepAt(r: Run, i: nat)
    requires i < |r.steps| && |r.states| == |r.steps| + 1
  {
    Next(r.states[i], r.steps[i], r.states[i + 1])
  }

  ghost predicate IsRun(r: Run) {
    && |r.states| == |r.steps| + 1
    && Init(r.states[0])
    && forall i :: 0 <= i < |r.steps| ==> StepAt(r, i)
  }

  /** How often a checkpoint token was executed. */
  function Executions(history: seq<Event>, token: nat): nat {
    if history == [] then 0
    else Executions(history[..|history| - 1], token) + (if history[|history| - 1] == Executed(token) then 1 else 0)
  }

  datatype Talk = Silence | Asked(command: Command) | Answered(command: Command)

  function TalkAfter(talk: Talk, e: Event): Talk {
    match e
    case Issued(c) => Asked(c)
    case Returned(c) => Answered(c)
    case Executed(_) => talk
  }

  predicate MayFollow(talk: Talk, e: Event) {
    match e
    case Issued(_) => !talk.Asked?
    case Returned(c) => talk == Asked(c)
    case Executed(token) => talk == Asked(Command(token, Checkpoint))
  }

  /** The last thing the parent said or heard. */
  function LastTalk(history: seq<Event>): Talk {
    if history == [] then Silence
    else TalkAfter(LastTalk(history[..|history| - 1]), history[|history| - 1])
  }

  /** Every returned ack answers the command just issued, a command is issued only after the
      previous one was answered, and a checkpoint executes only while its own command is the
      one outstanding -- never between a returned ack and the next command. */
  ghost predicate Orderly(history: seq<Event>) {
    history != [] ==>
      var front := history[..|history| - 1];
      Orderly(front) && MayFollow(LastTalk(front), history[|history| - 1])
  }

  /** The command being worked on, by the writer or the observer. */
  predicate InHand(s: State, c: Command) {
    || (s.writer.Serving? && s.writer.command == c)
    || (s.writer.Acking? && s.writer.command == c)
    || (s.observer.Probing? && s.observer.command == c)
  }

  function ListOf(w: Writer): seq<Command> {
    match w
    case Scanning(todo) => todo
    case Serving(c, rest) => [c] + rest
    case Acking(c, rest) => [c] + rest
    case Stopped => []
  }

  /** The one command that may still be without an ack. */
  ghost predicate Outstanding(s: State, c: Command) {
    (s.parent.Awaiting? || s.parent.GaveUp?) && s.parent.command == c
  }

  ghost predicate FilesOk(s: State) {
    && (forall c :: c in s.commands ==> c.token < s.nextToken)
    && (forall c, d :: c in s.commands && d in s.commands && c.token == d.token ==> c == d)
    && (forall c :: c in ListOf(s.writer) ==> c in s.commands)
    && (s.writer.Serving? || s.writer.Acking? ==> s.writer.command.kind != Probe)
    && (s.observer.Probing? ==> s.observer.command in s.commands && s.observer.command.kind == Probe)
    && (forall kind, token :: kind in s.served && token in s.served[kind] ==> Command(token, kind) in s.commands)
  }

  /** A command is acknowledged exactly when it was begun and is no longer in hand. */
  ghost predicate AcksOk(s: State) {
    && (forall c :: c in s.acks ==> c in s.commands && c.token in Served(s, c.kind) && !InHand(s, c))
    && (forall c :: c in s.commands && c.token in Served(s, c.kind) && !InHand(s, c) ==> c in s.acks)
    && (forall c :: InHand(s, c) ==> c.token in Served(s, c.kind))
    && (forall c :: c in s.commands && c !in s.acks ==> Outstanding(s, c))
  }

  ghost predicate TalkOk(s: State) {
    && Orderly(s.history)
    && match s.parent
       case Ready => !LastTalk(s.history).Asked?
       case Awaiting(c) => LastTalk(s.history) == Asked(c) && c in s.commands
       case GaveUp(c) => LastTalk(s.history) == Asked(c) && c in s.commands
  }

  predicate AtWork(s: State, token: nat) {
    s.writer.Serving? && s.writer.command == Command(token, Checkpoint)
  }

  /** A checkpoint token was executed once if its work is done, and otherwise not at all. */
  ghost predicate Counted(s: State, token: nat) {
    Executions(s.history, token) == if token in Served(s, Checkpoint) && !AtWork(s, token) then 1 else 0
  }

  /** The aspects of the invariant. */
  datatype Aspect = Files | Acks | Conversation | Counts

  ghost predicate AspectOk(aspect: Aspect, s: State) {
    match aspect
    case Files => FilesOk(s)
    case Acks => AcksOk(s)
    case Conversation => TalkOk(s)
    case Counts => forall token :: Counted(s, token)
  }

  ghost predicate Invariant(s: State) { forall aspect: Aspect :: AspectOk(aspect, s) }

  lemma {:induction false} InvariantMeans(s: State)
    ensures Invariant(s) <==> FilesOk(s) && AcksOk(s) && TalkOk(s) && forall token :: Counted(s, token)
  {
    if Invariant(s) {
      assert AspectOk(Files, s) && AspectOk(Acks, s) && AspectOk(Conversation, s) && AspectOk(Counts, s);
    }
  }

  lemma {:induction false} HistoryGrows(history: seq<Event>, e: Event)
    ensures forall token :: Executions(history + [e], token) == Executions(history, token) + (if e == Executed(token) then 1 else 0)
    ensures LastTalk(history + [e]) == TalkAfter(LastTalk(history), e)
    ensures Orderly(history + [e]) <==> Orderly(history) && MayFollow(LastTalk(history), e)
  {
    assert (history + [e])[..|history + [e]| - 1] == history;
  }

  lemma {:induction false} InvariantAtStart(s: State)
    requires Init(s)
    ensures Invariant(s)
  {
    InvariantMeans(s);
  }

  lemma {:induction false} IssueFiles(s: State, kind: Kind, t: State)
    requires FilesOk(s) && Next(s, Issue(kind), t)
    ensures FilesOk(t)
  {
  }

  lemma {:induction false} IssueAcks(s: State, kind: Kind, t: State)
    requires FilesOk(s) && AcksOk(s) && Next(s, Issue(kind), t)
    ensures AcksOk(t)
  {
    var c := Command(s.nextToken, kind);
    assert forall k :: Served(t, k) == Served(s, k);
    assert forall d :: InHand(t, d) == InHand(s, d);
    assert c !in s.commands && c.token !in Served(s, kind);
    assert forall d :: d in s.commands ==> d in s.acks by {
      assert forall d :: !Outstanding(s, d);
    }
  }

  lemma {:induction false} IssueKeeps(s: State, kind: Kind, t: State)
    requires Invariant(s) && Next(s, Issue(kind), t)
    ensures Invariant(t)
  {
    InvariantMeans(s);
    IssueFiles(s, kind, t);
    IssueAcks(s, kind, t);
    HistoryGrows(s.history, Issued(Command(s.nextToken, kind)));
    SameCounts(s, t);
    InvariantMeans(t);
  }

  /** What was executed is unchanged when nothing executes and nothing is taken up. */
  lemma {:induction false} SameCounts(s: State, t: State)
    requires forall token :: Counted(s, token)
    requires forall token :: Executions(t.history, token) == Executions(s.history, token)
    requires t.served == s.served && forall token :: AtWork(t, token) == AtWork(s, token)
    ensures forall token :: Counted(t, token)
  {
    forall token
      ensures Counted(t, token)
    {
      assert Counted(s, token);
    }
  }

  lemma {:induction false} ReceiveKeeps(s: State, t: State)
    requires Invariant(s) && Next(s, Receive, t)
    ensures Invariant(t)
  {
    InvariantMeans(s);
    HistoryGrows(s.history, Returned(s.parent.command));
    assert forall k :: Served(t, k) == Served(s, k);
    assert forall d :: InHand(t, d) == InHand(s, d);
    forall token
      ensures Counted(t, token)
    {
      assert Counted(s, token);
    }
    InvariantMeans(t);
  }

  /** Steps that touch neither the history nor any ack: timing out, listing, skipping, stopping. */
  lemma {:induction false} QuietKeeps(s: State, step: Step, t: State)
    requires Invariant(s) && Next(s, step, t) && (step.TimeOut? || step.List? || step.Skip? || step.Stop?)
    ensures Invariant(t)
  {
    InvariantMeans(s);
    QuietFiles(s, step, t);
    QuietAcks(s, step, t);
    SameCounts(s, t);
    InvariantMeans(t);
  }

  lemma {:induction false} QuietFiles(s: State, step: Step, t: State)
    requires FilesOk(s) && Next(s, step, t) && (step.TimeOut? || step.List? || step.Skip? || step.Stop?)
    ensures FilesOk(t)
  {
  }

  lemma {:induction false} QuietAcks(s: State, step: Step, t: State)
    requires AcksOk(s) && Next(s, step, t) && (step.TimeOut? || step.List? || step.Skip? || step.Stop?)
    ensures AcksOk(t)
  {
    assert forall k :: Served(t, k) == Served(s, k);
    assert forall d :: InHand(t, d) == InHand(s, d);
    assert forall d :: Outstanding(t, d) == Outstanding(s, d);
  }

  lemma {:induction false} MarkServes(s: State, c: Command)
    ensures forall k :: Served(Mark(s, c), k) == if k == c.kind then Served(s, k) + {c.token} else Served(s, k)
  {
  }

  /** `t` is `s` with the unserved command `c` marked served and taken in hand. */
  ghost predicate TakenUp(s: State, c: Command, t: State) {
    && c in s.commands && c.token !in Served(s, c.kind)
    && t.commands == s.commands && t.acks == s.acks && t.parent == s.parent && t.history == s.history
    && t.nextToken == s.nextToken && t.served == Mark(s, c).served
    && (forall d :: InHand(t, d) <==> d == c || InHand(s, d))
  }

  lemma {:induction false} TakenUpAcks(s: State, c: Command, t: State)
    requires Invariant(s) && TakenUp(s, c, t)
    ensures AcksOk(t) && TalkOk(t)
  {
    InvariantMeans(s);
    MarkServes(s, c);
    assert forall k :: Served(t, k) == Served(Mark(s, c), k);
    assert c !in s.acks;
    forall d | d in t.commands && d.token in Served(t, d.kind) && !InHand(t, d)
      ensures d in t.acks
    {
      assert d != c;
      assert d.token in Served(s, d.kind);
    }
    assert forall d :: Outstanding(t, d) == Outstanding(s, d);
  }

  /** Marking an unserved command and taking it in hand. */
  lemma {:induction false} BeginKeeps(s: State, step: Step, t: State)
    requires Invariant(s) && Next(s, step, t) && (step.Begin? || step.BeginProbe?)
    ensures Invariant(t)
  {
    InvariantMeans(s);
    var c := if step.Begin? then s.writer.todo[0] else step.command;
    assert c in ListOf(s.writer) || step.BeginProbe?;
    assert c in s.commands;
    assert TakenUp(s, c, t);
    TakenUpAcks(s, c, t);
    BeginFiles(s, c, t);
    MarkServes(s, c);
    forall token
      ensures Counted(t, token)
    {
      assert Counted(s, token);
      assert Served(t, Checkpoint) == Served(Mark(s, c), Checkpoint);
    }
    InvariantMeans(t);
  }

  lemma {:induction false} BeginFiles(s: State, c: Command, t: State)
    requires FilesOk(s) && c in s.commands && t.commands == s.commands && t.nextToken == s.nextToken
    requires t.served == Mark(s, c).served
    requires t.writer == s.writer || (c.kind != Probe && s.writer.Scanning? && s.writer.todo != [] && c == s.writer.todo[0]
                                      && t.writer == Serving(c, s.writer.todo[1..]))
    requires t.observer == s.observer || (c.kind == Probe && t.observer == Probing(c))
    ensures FilesOk(t)
  {
    forall kind, token | kind in t.served && token in t.served[kind]
      ensures Command(token, kind) in t.commands
    {
    }
  }

  lemma {:induction false} WorkKeeps(s: State, t: State)
    requires Invariant(s) && Next(s, Work, t)
    ensures Invariant(t)
  {
    InvariantMeans(s);
    WorkFiles(s, t);
    WorkAcks(s, t);
    ServedIsOutstanding(s);
    WorkTalk(s, t);
    WorkCounts(s, t);
    InvariantMeans(t);
  }

  /** The command in the writer's hand is the one the parent waits for. */
  lemma {:induction false} ServedIsOutstanding(s: State)
    requires FilesOk(s) && AcksOk(s) && s.writer.Serving?
    ensures Outstanding(s, s.writer.command) && s.writer.command.token in Served(s, s.writer.command.kind)
  {
    assert InHand(s, s.writer.command) && s.writer.command in ListOf(s.writer);
  }

  lemma {:induction false} WorkTalk(s: State, t: State)
    requires TalkOk(s) && Next(s, Work, t) && Outstanding(s, s.writer.command)
    ensures TalkOk(t)
  {
    HistoryGrows(s.history, Executed(s.writer.command.token));
  }

  lemma {:induction false} WorkCounts(s: State, t: State)
    requires Next(s, Work, t) && s.writer.command.token in Served(s, s.writer.command.kind)
    requires forall token :: Counted(s, token)
    ensures forall token :: Counted(t, token)
  {
    HistoryGrows(s.history, Executed(s.writer.command.token));
    assert Served(t, Checkpoint) == Served(s, Checkpoint);
    forall token
      ensures Counted(t, token)
    {
      assert Counted(s, token);
    }
  }

  lemma {:induction false} WorkFiles(s: State, t: State)
    requires FilesOk(s) && Next(s, Work, t)
    ensures FilesOk(t)
  {
  }

  lemma {:induction false} WorkAcks(s: State, t: State)
    requires AcksOk(s) && Next(s, Work, t)
    ensures AcksOk(t)
  {
    assert forall k :: Served(t, k) == Served(s, k);
    assert forall d :: InHand(t, d) == InHand(s, d);
    assert forall d :: Outstanding(t, d) == Outstanding(s, d);
  }

  lemma {:induction false} AckKeeps(s: State, step: Step, t: State)
    requires Invariant(s) && Next(s, step, t) && (step.Ack? || step.AckProbe?)
    ensures Invariant(t)
  {
    InvariantMeans(s);
    AckFiles(s, step, t);
    AckAcks(s, step, t);
    SameCounts(s, t);
    InvariantMeans(t);
  }

  lemma {:induction false} AckFiles(s: State, step: Step, t: State)
    requires FilesOk(s) && Next(s, step, t) && (step.Ack? || step.AckProbe?)
    ensures FilesOk(t)
  {
  }

  lemma {:induction false} AckAcks(s: State, step: Step, t: State)
    requires FilesOk(s) && AcksOk(s) && Next(s, step, t) && (step.Ack? || step.AckProbe?)
    ensures AcksOk(t)
  {
    var c := if step.Ack? then s.writer.command else s.observer.command;
    assert step.Ack? ==> c in ListOf(s.writer);
    assert InHand(s, c);
    assert forall k :: Served(t, k) == Served(s, k);
    assert forall d :: InHand(t, d) <==> d != c && InHand(s, d);
    assert forall d :: Outstanding(t, d) == Outstanding(s, d);
  }

  lemma {:induction false} InvariantKept(s: State, step: Step, t: State)
    requires Invariant(s) && Next(s, step, t)
    ensures Invariant(t)
  {
    match step
    case Issue(kind) => IssueKeeps(s, kind, t);
    case Receive => ReceiveKeeps(s, t);
    case TimeOut => QuietKeeps(s, step, t);
    case List(_) => QuietKeeps(s, step, t);
    case Skip => QuietKeeps(s, step, t);
    case Stop => QuietKeeps(s, step, t);
    case Begin => BeginKeeps(s, step, t);
    case BeginProbe(_) => BeginKeeps(s, step, t);
    case Work => WorkKeeps(s, t);
    case Ack => AckKeeps(s, step, t);
    case AckProbe => AckKeeps(s, step, t);
  }

  lemma {:induction false} RunKeepsInvariant(r: Run, i: nat)
    requires IsRun(r) && i < |r.states|
    ensures Invariant(r.states[i])
    decreases i
  {
    if i == 0 {
      InvariantAtStart(r.states[0]);
    } else {
      RunKeepsInvariant(r, i - 1);
      assert StepAt(r, i - 1);
      InvariantKept(r.states[i - 1], r.steps[i - 1], r.states[i]);
    }
  }

  /** In every reachable state a checkpoint token has executed at most once, exactly once
      when its ack is there, and never if it was not commanded. */
  lemma {:induction false} CheckpointsExecuteOnce(r: Run, i: nat, token: nat)
    requires IsRun(r) && i < |r.states|
    ensures var s := r.states[i];
            && Executions(s.history, token) <= 1
            && (Command(token, Checkpoint) in s.acks ==> Executions(s.history, token) == 1)
            && (Command(token, Checkpoint) !in s.commands ==> Executions(s.history, token) == 0)
  {
    var s := r.states[i];
    RunKeepsInvariant(r, i);
    InvariantMeans(s);
    assert Counted(s, token);
    assert InHand(s, Command(token, Checkpoint)) || !AtWork(s, token);
  }

  /** The whole conversation is orderly: acks answer the command just issued, and no
      checkpoint executes between a returned ack and the next command. */
  lemma {:induction false} ConversationIsOrderly(r: Run, i: nat)
    requires IsRun(r) && i < |r.states|
    ensures Orderly(r.states[i].history)
  {
    RunKeepsInvariant(r, i);
    InvariantMeans(r.states[i]);
  }

  /** While the parent holds no outstanding command the writer is not at work on one. */
  lemma {:induction false} PausedBetweenCommands(r: Run, i: nat)
    requires IsRun(r) && i < |r.states| && r.states[i].parent.Ready?
    ensures var s := r.states[i];
            && !s.writer.Serving? && !s.writer.Acking? && !s.observer.Probing?
            && s.commands == s.acks
  {
    var s := r.states[i];
    RunKeepsInvariant(r, i);
    InvariantMeans(s);
    assert forall c :: c in s.commands ==> !Outstanding(s, c);
    assert s.writer.Serving? || s.writer.Acking? ==> s.writer.command in ListOf(s.writer) && InHand(s, s.writer.command);
    assert s.observer.Probing? ==> InHand(s, s.observer.command);
  }
}
