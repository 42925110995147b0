/** The bounded retry loop of the CE-3 instrument, its classification of causal chains, and
    the independently written checker of the evidence the loop leaves behind.
 */
module Retry {
  import opened Basics

  const MAX_ATTEMPTS := 60
  const CONTENTION := "GraphLockContention"
  const CONFLICT := "GrafxWriteConflict"

  /** An attribute or detail value, as far as the classifier tells values apart. */
  datatype Value = Absent | Bool(b: bool) | Text(s: string) | Else(n: int)

  type Details = map<string, Value>

  /** An exception: its class name, whether it is an instance of the two typed classes
      (subclasses included), its machine-readable fields, and its two causal links. */
  datatype Failure = Failure(
    typeName: string,
    isContention: bool,
    isConflict: bool,
    code: Value,
    retryable: Value,
    details: Option<Details>,
    notes: seq<string>,
    message: string,
    cause: Option<nat>,
    context: Option<nat>)

  type Heap = map<nat, Failure>

  ghost predicate LinkedAt(heap: Heap, f: nat)
    requires f in heap
  {
    && (heap[f].cause.Some? ==> heap[f].cause.value in heap)
    && (heap[f].context.Some? ==> heap[f].context.value in heap)
  }

  ghost predicate Linked(heap: Heap) { forall f {:trigger LinkedAt(heap, f)} :: f in heap ==> LinkedAt(heap, f) }

  function Next(e: Failure): Option<nat> { if e.cause.Some? then e.cause else e.context }

  // ----- The causal chain

  /** The chain from `current` that avoids what was already seen. */
  function ChainFrom(heap: Heap, current: Option<nat>, seen: set<nat>): seq<nat>
    decreases heap.Keys - seen
  {
    if current.None? || current.value in seen || current.value !in heap then []
    else [current.value] + ChainFrom(heap, Next(heap[current.value]), seen + {current.value})
  }

  /** `_causes`: terminates on any cause graph, cyclic ones included, and yields each link once. */
  method Causes(heap: Heap, failure: nat) returns (chain: seq<nat>)
    requires Linked(heap) && failure in heap
    ensures chain == ChainFrom(heap, Some(failure), {})
  {
    chain := [];
    var current, seen := Some(failure), {};
    while current.Some? && current.value !in seen
      invariant current.Some? ==> current.value in heap
      invariant chain + ChainFrom(heap, current, seen) == ChainFrom(heap, Some(failure), {})
      decreases heap.Keys - seen
    {
      seen := seen + {current.value};
      chain := chain + [current.value];
      assert LinkedAt(heap, current.value);
      current := Next(heap[current.value]);
    }
  }

  /** The chain starts at the failure, follows the links, repeats nothing, and stops only at
      an end of the links or where they close a cycle. */
  lemma {:induction false} ChainIsComplete(heap: Heap, current: nat, seen: set<nat>)
    requires Linked(heap) && current in heap && current !in seen
    ensures var chain := ChainFrom(heap, Some(current), seen);
            && chain != [] && chain[0] == current
            && (forall i :: 0 <= i < |chain| ==> chain[i] in heap && chain[i] !in seen)
            && (forall i, j :: 0 <= i < j < |chain| ==> chain[i] != chain[j])
            && (forall i :: 0 <= i < |chain| - 1 ==> Next(heap[chain[i]]) == Some(chain[i + 1]))
            && (var end := Next(heap[chain[|chain| - 1]]); end.None? || end.value in seen || end.value in chain)
    decreases heap.Keys - seen
  {
    assert LinkedAt(heap, current);
    var next := Next(heap[current]);
    var rest := ChainFrom(heap, next, seen + {current});
    if next.Some? && next.value !in seen + {current} {
      ChainIsComplete(heap, next.value, seen + {current});
      var chain := [current] + rest;
      assert chain[|chain| - 1] == rest[|rest| - 1];
      var end := Next(heap[rest[|rest| - 1]]);
      assert end.Some? && end.value in rest ==> end.value in chain;
    }
  }

  // ----- Classification

  function Detail(d: Details, key: string): Value { if key in d then d[key] else Absent }

  predicate PreDurable(d: Details) { "commit_durable" !in d || d["commit_durable"] == Bool(false) }

  function LowerChar(c: char): char { if 'A' <= c <= 'Z' then (c as int + 32) as char else c }

  function Lower(s: string): string { if s == "" then "" else [LowerChar(s[0])] + Lower(s[1..]) }

  predicate Contains(s: string, part: string) {
    part <= s || (s != "" && Contains(s[1..], part))
  }

  predicate RollbackFailed(notes: seq<string>) {
    exists note :: note in notes && Contains(Lower(note), "rollback also failed")
  }

  /** Evidence that the refusal may already be durable or was not rolled back cleanly. */
  predicate Poisoned(details: Option<Details>, notes: seq<string>) {
    || (details.Some? && (Detail(details.value, "field") == Text("index_view_unavailable") || !PreDurable(details.value)))
    || RollbackFailed(notes)
  }

  predicate AdapterAgrees(d: Details) {
    && Detail(d, "backend") == Text("okto_grafx")
    && Detail(d, "backend_error_type") == Text(CONFLICT)
    && Detail(d, "backend_error_code") == Text("write_conflict")
    && Detail(d, "backend_retryable") == Bool(true)
    && PreDurable(d)
  }

  function Contentions(es: seq<Failure>): seq<Failure> {
    if es == [] then []
    else if es[0].isContention then [es[0]] + Contentions(es[1..]) else Contentions(es[1..])
  }

  function Conflicts(es: seq<Failure>): seq<Failure> {
    if es == [] then []
    else if es[0].isConflict then [es[0]] + Conflicts(es[1..]) else Conflicts(es[1..])
  }

  /** `_retryable_contention` over the chain of a failure: the one corroborated pre-durable
      contention, or None. */
  function RetryableContention(es: seq<Failure>): Option<Failure> {
    if exists e :: e in es && Poisoned(e.details, e.notes) then None
    else if |Contentions(es)| != 1 || |Conflicts(es)| != 1 then None
    else
      var contention, conflict := Contentions(es)[0], Conflicts(es)[0];
      if && contention.details.Some?
         && contention.code == Text("graph_lock_contention") && contention.retryable == Bool(true)
         && AdapterAgrees(contention.details.value)
         && conflict.code == Text("write_conflict") && conflict.retryable == Bool(true)
      then Some(contention) else None
  }

  // ----- Evidence

  datatype Entry = Entry(typeName: string, code: Value, retryable: Value, details: Option<Details>,
                         notes: seq<string>, message: string)

  datatype Refusal = Refusal(attempt: nat, scope: string, typeName: string, code: Value, retryable: Value,
                             details: Option<Details>, message: string, classification: string,
                             chain: seq<Entry>, backoff: Option<real>)

  function EntryOf(e: Failure): Entry {
    Entry(e.typeName, e.code, e.retryable, e.details, e.notes, e.message)
  }

  function Entries(es: seq<Failure>): seq<Entry> {
    if es == [] then [] else [EntryOf(es[0])] + Entries(es[1..])
  }

  function Evidence(es: seq<Failure>, contention: Failure, attempt: nat, backoff: Option<real>): Refusal {
    Refusal(attempt, "fresh_transaction", contention.typeName, contention.code, contention.retryable,
            contention.details, contention.message, "typed_pre_durable_grafx_write_conflict", Entries(es), backoff)
  }

  // ----- The checker

  function Named(chain: seq<Entry>, name: string): seq<Entry> {
    if chain == [] then []
    else if chain[0].typeName == name then [chain[0]] + Named(chain[1..], name) else Named(chain[1..], name)
  }

  predicate RefusalConsistent(r: Refusal, expected: nat) {
    && r.typeName == CONTENTION
    && r.code == Text("graph_lock_contention") && r.retryable == Bool(true)
    && r.details.Some? && AdapterAgrees(r.details.value)
    && r.attempt == expected
    && r.scope == "fresh_transaction"
    && r.classification == "typed_pre_durable_grafx_write_conflict"
    && var graphs, backends := Named(r.chain, CONTENTION), Named(r.chain, CONFLICT);
    && |graphs| == 1 && |backends| == 1
    && graphs[0].code == Text("graph_lock_contention") && graphs[0].retryable == Bool(true)
    && graphs[0].details == r.details
    && backends[0].code == Text("write_conflict") && backends[0].retryable == Bool(true)
    && !exists e :: e in r.chain && Poisoned(e.details, e.notes)
  }

  datatype Record = Record(attempts: int, conflicts: int, retries: int, refusalCount: int,
                           refusals: seq<Refusal>, last: Option<Refusal>)

  /** The part of the record that only counts. */
  predicate CountsConsistent(r: Record, committed: bool) {
    && 0 < r.attempts <= MAX_ATTEMPTS
    && r.conflicts >= 0 && r.retries == r.conflicts && r.refusalCount == r.conflicts
    && |r.refusals| == r.conflicts
    && r.attempts == (if committed then r.conflicts + 1 else r.conflicts)
    && r.last == (if r.refusals == [] then None else Some(r.refusals[|r.refusals| - 1]))
  }

  /** `_retry_record_is_consistent`. */
  predicate RecordConsistent(r: Record, committed: bool) {
    CountsConsistent(r, committed) && forall i :: 0 <= i < |r.refusals| ==> RefusalConsistent(r.refusals[i], i + 1)
  }

  // ----- The checker against the classifier

  /** The classifier asks for classes, the checker for class names. This is where they meet:
      the contention carries the expected name, no other link does, and exactly one link is
      named like the conflict and is one. */
  predicate NamesCorroborate(es: seq<Failure>, contention: Failure) {
    var backends := Named(Entries(es), CONFLICT);
    && contention.typeName == CONTENTION
    && |Named(Entries(es), CONTENTION)| == 1
    && |backends| == 1 && backends[0].code == Text("write_conflict") && backends[0].retryable == Bool(true)
  }

  lemma {:induction false} NamedMembers(es: seq<Failure>, name: string)
    ensures forall e :: e in es && e.typeName == name ==> EntryOf(e) in Named(Entries(es), name)
    ensures forall n :: n in Named(Entries(es), name) ==> n.typeName == name
    decreases |es|
  {
    if es != [] {
      NamedMembers(es[1..], name);
      assert Entries(es)[1..] == Entries(es[1..]);
      assert es == [es[0]] + es[1..];
    }
  }

  lemma {:induction false} ContentionInChain(es: seq<Failure>)
    ensures forall e :: e in Contentions(es) ==> e in es && e.isContention
    ensures forall e :: e in Conflicts(es) ==> e in es && e.isConflict
    decreases |es|
  {
    if es != [] {
      ContentionInChain(es[1..]);
    }
  }

  lemma {:induction false} EntriesMembers(es: seq<Failure>)
    ensures |Entries(es)| == |es| && forall i :: 0 <= i < |es| ==> Entries(es)[i] == EntryOf(es[i])
    decreases |es|
  {
    if es != [] {
      EntriesMembers(es[1..]);
    }
  }

  lemma {:induction false} NotPoisoned(es: seq<Failure>)
    requires RetryableContention(es).Some?
    ensures !exists e :: e in Entries(es) && Poisoned(e.details, e.notes)
  {
    EntriesMembers(es);
    forall e | e in Entries(es)
      ensures !Poisoned(e.details, e.notes)
    {
      var i :| 0 <= i < |Entries(es)| && Entries(es)[i] == e;
      assert es[i] in es;
    }
  }

  /** The checker accepts the evidence of a classified refusal exactly when the class names
      corroborate the classes. */
  lemma {:induction false} EvidenceAcceptedIff(es: seq<Failure>, attempt: nat, backoff: Option<real>)
    requires RetryableContention(es).Some?
    ensures var contention := RetryableContention(es).value;
            RefusalConsistent(Evidence(es, contention, attempt, backoff), attempt) <==> NamesCorroborate(es, contention)
  {
    var contention := RetryableContention(es).value;
    var graphs := Named(Entries(es), CONTENTION);
    ContentionInChain(es);
    assert contention in Contentions(es);
    NotPoisoned(es);
    NamedMembers(es, CONTENTION);
    if contention.typeName == CONTENTION && |graphs| == 1 {
      assert EntryOf(contention) in graphs;
      assert graphs[0] == EntryOf(contention);
    }
  }

  /** Class names and classes say the same along the chain. */
  predicate NamesAreClasses(es: seq<Failure>) {
    forall e :: e in es ==> (e.isContention <==> e.typeName == CONTENTION) && (e.isConflict <==> e.typeName == CONFLICT)
  }

  lemma {:induction false} NamedAreTheClasses(es: seq<Failure>)
    requires NamesAreClasses(es)
    ensures Named(Entries(es), CONTENTION) == Entries(Contentions(es))
    ensures Named(Entries(es), CONFLICT) == Entries(Conflicts(es))
    decreases |es|
  {
    if es != [] {
      assert es[0] in es;
      NamedAreTheClasses(es[1..]);
      assert Entries(es)[1..] == Entries(es[1..]);
      if es[0].isContention {
        assert ([es[0]] + Contentions(es[1..]))[1..] == Contentions(es[1..]);
      }
      if es[0].isConflict {
        assert ([es[0]] + Conflicts(es[1..]))[1..] == Conflicts(es[1..]);
      }
    }
  }

  /** Without look-alike or renamed classes in the chain the checker always accepts. */
  lemma {:induction false} HonestNamesCorroborate(es: seq<Failure>)
    requires RetryableContention(es).Some? && NamesAreClasses(es)
    ensures NamesCorroborate(es, RetryableContention(es).value)
  {
    NamedAreTheClasses(es);
    ContentionInChain(es);
    EntriesMembers(Contentions(es));
    EntriesMembers(Conflicts(es));
    assert Contentions(es)[0] in Contentions(es);
  }

  /** A subclass of the contention class is classified retryable, and its evidence refused. */
  lemma {:induction false} RenamedSubclassIsRefused()
    ensures exists es :: RetryableContention(es).Some?
              && !RefusalConsistent(Evidence(es, RetryableContention(es).value, 1, None), 1)
  {
    var d: Details := map["backend" := Text("okto_grafx"), "backend_error_type" := Text(CONFLICT),
                          "backend_error_code" := Text("write_conflict"), "backend_retryable" := Bool(true)];
    var sub := Failure("BoardLockContention", true, false, Text("graph_lock_contention"), Bool(true), Some(d), [], "busy",
                       Some(1), None);
    var conflict := Failure(CONFLICT, false, true, Text("write_conflict"), Bool(true), None, [], "conflict", None, None);
    var es := [sub, conflict];
    assert es[1..] == [conflict] && [conflict][1..] == [];
    assert Contentions(es) == [sub] + Contentions([conflict]) && Conflicts(es) == Conflicts([conflict]);
    assert Contentions([conflict]) == Contentions([]) && Conflicts([conflict]) == [conflict] + Conflicts([]);
    assert forall e :: e in es ==> e == sub || e == conflict;
    assert RetryableContention(es) == Some(sub);
  }

  // ----- The loop

  /** How one attempt went: it committed, or failed with a chain of exceptions. */
  datatype Attempt = Commits | Fails(chain: seq<Failure>)

  predicate Refused(a: Attempt) { a.Fails? && RetryableContention(a.chain).Some? }

  datatype Outcome = Committed(record: Record) | WindowClosed(record: Record)
                   | Raised(attempt: nat) | Exhausted

  /** The refusal logged for attempt i; a backoff is drawn unless the stop event ends it first. */
  function RefusalAt(attempts: nat -> Attempt, i: nat, backoff: Option<real>): Refusal
    requires Refused(attempts(i))
  {
    Evidence(attempts(i).chain, RetryableContention(attempts(i).chain).value, i + 1, backoff)
  }

  ghost predicate RefusalsOf(refusals: seq<Refusal>, attempts: nat -> Attempt, n: nat) {
    && |refusals| == n
    && forall i :: 0 <= i < n ==> LoggedAt(refusals, attempts, i)
  }

  ghost predicate LoggedAt(refusals: seq<Refusal>, attempts: nat -> Attempt, i: nat)
    requires i < |refusals|
  {
    Refused(attempts(i)) && refusals[i] == RefusalAt(attempts, i, refusals[i].backoff)
  }

  function Report(refusals: seq<Refusal>, attempts: nat): Record {
    Record(attempts, |refusals|, |refusals|, |refusals|, refusals,
           if refusals == [] then None else Some(refusals[|refusals| - 1]))
  }

  /** The stop event, if there is one: whether it is set after refusal i, and whether it
      fires during the wait that follows. */
  datatype Stop = NoStop | Stop(isSet: nat -> bool, fires: nat -> bool)

  predicate StopsAt(stop: Stop, i: nat) { stop.Stop? && (stop.isSet(i) || stop.fires(i)) }

  /** One logical operation: how each of its attempts would go, its stop event, its backoffs. */
  datatype Operation = Operation(attempts: nat -> Attempt, stop: Stop, delay: nat -> real)

  /** Attempt i is a classified refusal that no stop event ends. */
  predicate Retries(op: Operation, i: nat) { Refused(op.attempts(i)) && !StopsAt(op.stop, i) }

  /** One more than the first attempt from i on that is not retried, or the limit. */
  function AttemptsFrom(op: Operation, i: nat): (r: nat)
    requires i < MAX_ATTEMPTS
    ensures i < r <= MAX_ATTEMPTS
    ensures forall j :: i <= j < r - 1 ==> Retries(op, j)
    ensures r < MAX_ATTEMPTS ==> !Retries(op, r - 1)
    decreases MAX_ATTEMPTS - i
  {
    if i + 1 < MAX_ATTEMPTS && Retries(op, i) then AttemptsFrom(op, i + 1) else i + 1
  }

  /** How many attempts the operation makes. */
  function Attempted(op: Operation): (r: nat)
    ensures 0 < r <= MAX_ATTEMPTS
    ensures forall j :: 0 <= j < r - 1 ==> Retries(op, j)
    ensures r < MAX_ATTEMPTS ==> !Retries(op, r - 1)
  {
    AttemptsFrom(op, 0)
  }

  predicate EndsCommitted(op: Operation) { op.attempts(Attempted(op) - 1).Commits? }

  /** The stop event ended the last attempt's retry; the limit is asked first. */
  predicate EndsClosed(op: Operation) { Attempted(op) < MAX_ATTEMPTS && Refused(op.attempts(Attempted(op) - 1)) }

  /** What there is to say about a report: how the operation ended, the counts, the log. */
  datatype Facet = Ending | Counting | Logging

  ghost predicate FacetFits(f: Facet, op: Operation, o: Outcome) {
    var n := Attempted(op);
    match f
    case Ending =>
      (match o
       case Committed(_) => EndsCommitted(op)
       case WindowClosed(_) => EndsClosed(op)
       case Raised(last) => last == n - 1 && op.attempts(last).Fails? && !Refused(op.attempts(last))
       case Exhausted => n == MAX_ATTEMPTS && Refused(op.attempts(n - 1)))
    case Counting =>
      && (o.Committed? ==> CountsConsistent(o.record, true) && o.record.attempts == n)
      && (o.WindowClosed? ==> CountsConsistent(o.record, false) && o.record.attempts == n)
    case Logging =>
      && (o.Committed? ==> RefusalsOf(o.record.refusals, op.attempts, n - 1))
      && (o.WindowClosed? ==> RefusalsOf(o.record.refusals, op.attempts, n))
  }

  /** The report is true of the operation. */
  ghost predicate OutcomeFits(op: Operation, o: Outcome) { forall f: Facet :: FacetFits(f, op, o) }

  lemma {:induction false} OutcomeMeans(op: Operation, o: Outcome)
    ensures OutcomeFits(op, o) <==> FacetFits(Ending, op, o) && FacetFits(Counting, op, o) && FacetFits(Logging, op, o)
  {
    if FacetFits(Ending, op, o) && FacetFits(Counting, op, o) && FacetFits(Logging, op, o) {
      forall f: Facet
        ensures FacetFits(f, op, o)
      {
        match f {
          case Ending =>
          case Counting =>
          case Logging =>
        }
      }
    }
  }

  lemma {:induction false} EndingDecides(op: Operation, o: Outcome)
    requires OutcomeFits(op, o)
    ensures o.Committed? <==> EndsCommitted(op)
    ensures o.WindowClosed? <==> EndsClosed(op)
  {
    assert FacetFits(Ending, op, o);
  }

  lemma {:induction false} LastAttempt(op: Operation, n: nat)
    requires n < MAX_ATTEMPTS && Attempted(op) == AttemptsFrom(op, n) && (!Retries(op, n) || n + 1 == MAX_ATTEMPTS)
    ensures Attempted(op) == n + 1
  {
  }

  lemma {:induction false} CommitFits(op: Operation, refusals: seq<Refusal>, n: nat)
    requires Attempted(op) == n + 1 && RefusalsOf(refusals, op.attempts, n) && op.attempts(n).Commits?
    ensures OutcomeFits(op, Committed(Report(refusals, n + 1)))
  {
    OutcomeMeans(op, Committed(Report(refusals, n + 1)));
  }

  lemma {:induction false} ClosingFits(op: Operation, refusals: seq<Refusal>, n: nat)
    requires Attempted(op) == n + 1 < MAX_ATTEMPTS
    requires RefusalsOf(refusals, op.attempts, n + 1) && Refused(op.attempts(n))
    ensures OutcomeFits(op, WindowClosed(Report(refusals, n + 1)))
  {
    OutcomeMeans(op, WindowClosed(Report(refusals, n + 1)));
  }

  lemma {:induction false} RaisedFits(op: Operation, n: nat)
    requires Attempted(op) == n + 1 && op.attempts(n).Fails? && !Refused(op.attempts(n))
    ensures OutcomeFits(op, Raised(n))
  {
    OutcomeMeans(op, Raised(n));
  }

  lemma {:induction false} ExhaustionFits(op: Operation, n: nat)
    requires Attempted(op) == n + 1 == MAX_ATTEMPTS && Refused(op.attempts(n))
    ensures OutcomeFits(op, Exhausted)
  {
    forall f: Facet
      ensures FacetFits(f, op, Exhausted)
    {
      match f {
        case Ending =>
        case Counting =>
        case Logging =>
      }
    }
  }

  /** `_execute_with_retry`: it makes exactly the attempts up to the first that is not a
      classified refusal, that a stop event ends, or that is the sixtieth, and reports how that
      one went together with every refusal before it. */
  method ExecuteWithRetry(op: Operation) returns (o: Outcome)
    ensures OutcomeFits(op, o)
  {
    var refusals: seq<Refusal> := [];
    for n := 0 to MAX_ATTEMPTS
      invariant RefusalsOf(refusals, op.attempts, n)
      invariant n < MAX_ATTEMPTS && Attempted(op) == AttemptsFrom(op, n)
    {
      var outcome := op.attempts(n);
      if outcome.Commits? {
        LastAttempt(op, n);
        CommitFits(op, refusals, n);
        return Committed(Report(refusals, n + 1));
      }
      if !Refused(outcome) {
        LastAttempt(op, n);
        RaisedFits(op, n);
        return Raised(n);
      }
      if n + 1 >= MAX_ATTEMPTS {
        LastAttempt(op, n);
        ExhaustionFits(op, n);
        return Exhausted;
      }
      ghost var before := refusals;
      if op.stop.Stop? && op.stop.isSet(n) {
        refusals := refusals + [RefusalAt(op.attempts, n, None)];
        LogGrows(before, op.attempts, n, RefusalAt(op.attempts, n, None));
        LastAttempt(op, n);
        ClosingFits(op, refusals, n);
        return WindowClosed(Report(refusals, n + 1));
      }
      refusals := refusals + [RefusalAt(op.attempts, n, Some(op.delay(n)))];
      LogGrows(before, op.attempts, n, RefusalAt(op.attempts, n, Some(op.delay(n))));
      if op.stop.Stop? && op.stop.fires(n) {
        LastAttempt(op, n);
        ClosingFits(op, refusals, n);
        return WindowClosed(Report(refusals, n + 1));
      }
    }
  }

  lemma {:induction false} LogGrows(refusals: seq<Refusal>, attempts: nat -> Attempt, n: nat, r: Refusal)
    requires RefusalsOf(refusals, attempts, n) && Refused(attempts(n)) && r == RefusalAt(attempts, n, r.backoff)
    ensures RefusalsOf(refusals + [r], attempts, n + 1)
  {
    forall i | 0 <= i < n + 1
      ensures LoggedAt(refusals + [r], attempts, i)
    {
      assert i < n ==> LoggedAt(refusals, attempts, i);
    }
  }

  /** Every name along the logged refusals corroborates its class. */
  ghost predicate Corroborated(attempts: nat -> Attempt, n: nat) {
    forall i :: 0 <= i < n && Refused(attempts(i)) ==>
      NamesCorroborate(attempts(i).chain, RetryableContention(attempts(i).chain).value)
  }

  /** The checker accepts what the loop returns, committed or interrupted, exactly when the
      names corroborate; nothing else in the record can make it refuse. */
  lemma {:induction false} RecordAcceptedIff(r: Record, attempts: nat -> Attempt, n: nat, committed: bool)
    requires CountsConsistent(r, committed) && RefusalsOf(r.refusals, attempts, n)
    ensures RecordConsistent(r, committed) <==> Corroborated(attempts, n)
  {
    forall i | 0 <= i < n
      ensures Refused(attempts(i))
      ensures RefusalConsistent(r.refusals[i], i + 1)
              <==> NamesCorroborate(attempts(i).chain, RetryableContention(attempts(i).chain).value)
    {
      assert LoggedAt(r.refusals, attempts, i);
      EvidenceAcceptedIff(attempts(i).chain, i + 1, r.refusals[i].backoff);
    }
  }

  // ----- Aggregates of the two processes

  datatype Participant = Participant(
    conflicts: int, retries: int, refusalCount: int,
    refusals: seq<Refusal>,
    durable: seq<string>, nonretryable: seq<string>, exhaustions: seq<string>, other: seq<string>,
    interrupted: Option<Record>)

  function Flattened(records: seq<Record>): seq<Refusal> {
    if records == [] then [] else Flattened(records[..|records| - 1]) + records[|records| - 1].refusals
  }

  /** `_retry_evidence_is_consistent`. */
  predicate EvidenceConsistent(p: Participant, records: seq<Record>) {
    && p.durable == [] && p.nonretryable == [] && p.exhaustions == [] && p.other == []
    && (forall i :: 0 <= i < |records| ==> RecordConsistent(records[i], true))
    && (p.interrupted.Some? ==> RecordConsistent(p.interrupted.value, false))
    && var flat := Flattened(records) + (if p.interrupted.Some? then p.interrupted.value.refusals else []);
    && p.conflicts == |flat| && p.retries == |flat| && p.refusalCount == |flat|
    && p.refusals == flat
  }

  function Totals(refusals: seq<Refusal>, interrupted: Option<Record>): Participant {
    Participant(|refusals|, |refusals|, |refusals|, refusals, [], [], [], [], interrupted)
  }

  /** Every refusal among the attempts the operation makes is corroborated by its names. */
  ghost predicate OperationCorroborated(op: Operation) { Corroborated(op.attempts, Attempted(op)) }

  lemma {:induction false} CommittedAcceptedIff(op: Operation, r: Record)
    requires OutcomeFits(op, Committed(r))
    ensures RecordConsistent(r, true) <==> OperationCorroborated(op)
  {
    var n := Attempted(op);
    OutcomeMeans(op, Committed(r));
    RecordAcceptedIff(r, op.attempts, n - 1, true);
    assert !Refused(op.attempts(n - 1));
    assert forall i :: 0 <= i < n && Refused(op.attempts(i)) ==> i < n - 1;
  }

  lemma {:induction false} ClosedAcceptedIff(op: Operation, r: Record)
    requires OutcomeFits(op, WindowClosed(r))
    ensures RecordConsistent(r, false) <==> OperationCorroborated(op)
  {
    OutcomeMeans(op, WindowClosed(r));
    RecordAcceptedIff(r, op.attempts, Attempted(op), false);
  }

  ghost predicate RecordAt(ops: seq<Operation>, records: seq<Record>, i: nat)
    requires i < |ops| && i < |records|
  {
    OutcomeFits(ops[i], Committed(records[i]))
  }

  /** The records are those of the first operations, all committed. */
  ghost predicate RecordsOf(ops: seq<Operation>, records: seq<Record>) {
    |records| <= |ops| && forall i :: 0 <= i < |records| ==> RecordAt(ops, records, i)
  }

  ghost predicate AllCorroborated(ops: seq<Operation>, n: nat)
    requires n <= |ops|
  {
    forall i :: 0 <= i < n ==> OperationCorroborated(ops[i])
  }

  lemma {:induction false} RecordsGrow(ops: seq<Operation>, records: seq<Record>, r: Record)
    requires RecordsOf(ops, records) && |records| < |ops| && OutcomeFits(ops[|records|], Committed(r))
    ensures RecordsOf(ops, records + [r])
    ensures Flattened(records + [r]) == Flattened(records) + r.refusals
  {
    assert (records + [r])[..|records|] == records;
    forall i | 0 <= i < |records| + 1
      ensures RecordAt(ops, records + [r], i)
    {
      assert i < |records| ==> RecordAt(ops, records, i);
    }
  }

  lemma {:induction false} RecordsAcceptedIff(ops: seq<Operation>, records: seq<Record>)
    requires RecordsOf(ops, records)
    ensures (forall i :: 0 <= i < |records| ==> RecordConsistent(records[i], true)) <==> AllCorroborated(ops, |records|)
  {
    forall i | 0 <= i < |records|
      ensures RecordConsistent(records[i], true) <==> OperationCorroborated(ops[i])
    {
      assert RecordAt(ops, records, i);
      CommittedAcceptedIff(ops[i], records[i]);
    }
  }

  lemma {:induction false} TotalsAcceptedIff(ops: seq<Operation>, records: seq<Record>)
    requires RecordsOf(ops, records)
    ensures EvidenceConsistent(Totals(Flattened(records), None), records) <==> AllCorroborated(ops, |records|)
  {
    RecordsAcceptedIff(ops, records);
    assert Flattened(records) + [] == Flattened(records);
  }

  lemma {:induction false} ClosedTotalsAcceptedIff(ops: seq<Operation>, records: seq<Record>, r: Record)
    requires RecordsOf(ops, records) && |records| < |ops| && OutcomeFits(ops[|records|], WindowClosed(r))
    ensures EvidenceConsistent(Totals(Flattened(records) + r.refusals, Some(r)), records)
       <==> AllCorroborated(ops, |records| + 1)
  {
    RecordsAcceptedIff(ops, records);
    ClosedAcceptedIff(ops[|records|], r);
  }

  /** Process A: every operation must commit. Whatever the attempts did, the aggregates are
      accepted exactly when the names corroborate every refusal. */
  method RunProcessA(ops: seq<Operation>) returns (p: Option<Participant>, records: seq<Record>)
    ensures p.Some? <==> forall i :: 0 <= i < |ops| ==> EndsCommitted(ops[i])
    ensures p.Some? ==> |records| == |ops| && RecordsOf(ops, records)
    ensures p.Some? ==> (EvidenceConsistent(p.value, records) <==> AllCorroborated(ops, |ops|))
  {
    records := [];
    var refusals: seq<Refusal> := [];
    for i := 0 to |ops|
      invariant |records| == i && RecordsOf(ops, records) && refusals == Flattened(records)
      invariant forall j :: 0 <= j < i ==> EndsCommitted(ops[j])
    {
      var o := ExecuteWithRetry(ops[i]);
      EndingDecides(ops[i], o);
      if !o.Committed? {
        return None, records;
      }
      RecordsGrow(ops, records, o.record);
      records := records + [o.record];
      refusals := refusals + o.record.refusals;
    }
    TotalsAcceptedIff(ops, records);
    p := Some(Totals(refusals, None));
  }

  /** Operation n is the first that did not commit, and the closing window ended it. */
  ghost predicate ClosesAt(ops: seq<Operation>, n: nat)
    requires n < |ops|
  {
    EndsClosed(ops[n]) && forall i :: 0 <= i < n ==> EndsCommitted(ops[i])
  }

  lemma {:induction false} FirstUncommitted(ops: seq<Operation>, i: nat)
    requires i < |ops| && forall j :: 0 <= j < i ==> EndsCommitted(ops[j])
    ensures EndsClosed(ops[i]) ==> ClosesAt(ops, i)
    ensures !EndsCommitted(ops[i]) && !EndsClosed(ops[i]) ==> forall n :: 0 <= n < |ops| ==> !ClosesAt(ops, n)
  {
    forall n | 0 <= n < |ops|
      ensures ClosesAt(ops, n) ==> EndsCommitted(ops[i]) || EndsClosed(ops[i])
    {
      EndsOneWay(ops[n]);
    }
  }

  lemma {:induction false} EndsOneWay(op: Operation)
    ensures !(EndsCommitted(op) && EndsClosed(op))
  {
  }

  /** Process B: commits until the window closes on one operation, which trails the records.
      Its aggregates, that operation included, are accepted exactly when the names corroborate
      every refusal. */
  method RunProcessB(ops: seq<Operation>) returns (p: Option<Participant>, records: seq<Record>)
    ensures p.Some? <==> (forall i :: 0 <= i < |ops| ==> EndsCommitted(ops[i]))
                         || exists n :: 0 <= n < |ops| && ClosesAt(ops, n)
    ensures p.Some? ==> RecordsOf(ops, records)
    ensures p.Some? && p.value.interrupted.None? ==>
              |records| == |ops| && (EvidenceConsistent(p.value, records) <==> AllCorroborated(ops, |ops|))
    ensures p.Some? && p.value.interrupted.Some? ==>
              && |records| < |ops| && ClosesAt(ops, |records|)
              && OutcomeFits(ops[|records|], WindowClosed(p.value.interrupted.value))
              && (EvidenceConsistent(p.value, records) <==> AllCorroborated(ops, |records| + 1))
  {
    records := [];
    var refusals: seq<Refusal> := [];
    for i := 0 to |ops|
      invariant |records| == i && RecordsOf(ops, records) && refusals == Flattened(records)
      invariant forall j :: 0 <= j < i ==> EndsCommitted(ops[j])
    {
      var o := ExecuteWithRetry(ops[i]);
      EndingDecides(ops[i], o);
      FirstUncommitted(ops, i);
      if o.WindowClosed? {
        ClosedTotalsAcceptedIff(ops, records, o.record);
        return Some(Totals(refusals + o.record.refusals, Some(o.record))), records;
      }
      if !o.Committed? {
        return None, records;
      }
      RecordsGrow(ops, records, o.record);
      records := records + [o.record];
      refusals := refusals + o.record.refusals;
    }
    TotalsAcceptedIff(ops, records);
    p := Some(Totals(refusals, None));
  }
}
