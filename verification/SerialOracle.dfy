/** The serial oracle of the multi-client matrix: committed operations of several writers,
    their effect on the database, and why replaying the writers' logs one after the other in
    slot order answers the same as the order in which they really committed.
 */
module SerialOracle {
  import opened Basics

  datatype Key = Key(table: string, id: int)
  datatype Row = Row(owner: int, body: string, live: bool)
  datatype Edge = Edge(table: string, source: int, target: int, w: int)
  datatype Db = Db(rows: map<Key, Row>, edges: multiset<Edge>)

  /** One committed transaction, as a writer logs it and the oracle replays it. */
  datatype Op =
    | CreateNode(table: string, keys: seq<int>, owner: int)
    | CreateEdge(table: string, edgeTable: string, source: int, target: int)
    | UpdateNode(table: string, key: int, owner: int)
    | MarkSuperseded(table: string, key: int)

  /** The 96-character body every created node carries. */
  const BODY: string := Repeat('n', 96)

  function Repeat(c: char, n: nat): string {
    if n == 0 then "" else [c] + Repeat(c, n - 1)
  }

  function KeysOf(table: string, ids: seq<int>): set<Key> {
    set id | id in ids :: Key(table, id)
  }

  /** The rows an operation reads or writes. */
  function Footprint(op: Op): set<Key> {
    match op
    case CreateNode(table, keys, _) => KeysOf(table, keys)
    case CreateEdge(table, _, source, target) => {Key(table, source), Key(table, target)}
    case UpdateNode(table, key, _) => {Key(table, key)}
    case MarkSuperseded(table, key) => {Key(table, key)}
  }

  function Created(op: Op): set<Key> {
    if op.CreateNode? then KeysOf(op.table, op.keys) else {}
  }

  /** Creates the rows one by one; the primary key refuses an id the table already holds,
      and a refusal abandons the whole transaction. */
  function InsertRows(rows: map<Key, Row>, table: string, ids: seq<int>, owner: int): Option<map<Key, Row>>
    decreases ids
  {
    if ids == [] then Some(rows)
    else if Key(table, ids[0]) in rows then None
    else InsertRows(rows[Key(table, ids[0]) := Row(owner, BODY, true)], table, ids[1..], owner)
  }

  /** One replayed transaction. A MATCH that finds no row makes no change and is no error. */
  function Apply(db: Db, op: Op): Option<Db> {
    match op
    case CreateNode(table, keys, owner) =>
      (match InsertRows(db.rows, table, keys, owner)
       case None => None
       case Some(rows) => Some(Db(rows, db.edges)))
    case CreateEdge(table, edgeTable, source, target) =>
      if Key(table, source) in db.rows && Key(table, target) in db.rows then
        Some(Db(db.rows, db.edges + multiset{Edge(edgeTable, source, target, 1)}))
      else Some(db)
    case UpdateNode(table, key, owner) =>
      var k := Key(table, key);
      if k in db.rows then Some(Db(db.rows[k := db.rows[k].(owner := owner)], db.edges)) else Some(db)
    case MarkSuperseded(table, key) =>
      var k := Key(table, key);
      if k in db.rows then Some(Db(db.rows[k := db.rows[k].(live := false)], db.edges)) else Some(db)
  }

  function Step(db: Option<Db>, op: Op): Option<Db> {
    if db.None? then None else Apply(db.value, op)
  }

  function Run(db: Option<Db>, ops: seq<Op>): Option<Db> {
    if ops == [] then db else Step(Run(db, ops[..|ops| - 1]), ops[|ops| - 1])
  }

  /** The replay loop: one transaction per logged operation, in list order. */
  method Replay(start: Db, operations: seq<Op>) returns (db: Option<Db>, replayed: nat)
    ensures db == Run(Some(start), operations)
    ensures db.Some? ==> replayed == |operations|
    ensures db.None? ==> replayed < |operations| && Run(Some(start), operations[..replayed]).Some?
                         && Run(Some(start), operations[..replayed + 1]).None?
  {
    db := Some(start);
    replayed := 0;
    while replayed < |operations|
      invariant replayed <= |operations|
      invariant db.Some? && db == Run(Some(start), operations[..replayed])
    {
      var next := Apply(db.value, operations[replayed]);
      assert operations[..replayed + 1][..replayed] == operations[..replayed];
      if next.None? {
        RefusalSticks(Some(start), operations, replayed + 1);
        db := None;
        assert operations[..|operations|] == operations;
        return;
      }
      db := next;
      replayed := replayed + 1;
    }
    assert operations[..|operations|] == operations;
  }

  lemma {:induction false} RefusalSticks(db: Option<Db>, ops: seq<Op>, n: nat)
    requires n <= |ops| && Run(db, ops[..n]).None?
    ensures Run(db, ops).None?
    decreases |ops|
  {
    if n < |ops| {
      assert ops[..|ops| - 1][..n] == ops[..n];
      RefusalSticks(db, ops[..|ops| - 1], n);
    } else {
      assert ops[..n] == ops;
    }
  }

  // ----- What an operation depends on and what it changes

  /** Two row maps that look alike on the keys of `at`. */
  ghost predicate Agree(a: map<Key, Row>, b: map<Key, Row>, at: set<Key>) {
    forall k :: k in at ==> (k in a <==> k in b) && (k in a && k in b ==> a[k] == b[k])
  }

  /** Two row maps that look alike everywhere but on the keys of `off`. */
  ghost predicate AgreeOff(a: map<Key, Row>, b: map<Key, Row>, off: set<Key>) {
    forall k :: k !in off ==> (k in a <==> k in b) && (k in a && k in b ==> a[k] == b[k])
  }

  predicate Distinct(ids: seq<int>) {
    ids == [] || (ids[0] !in ids[1..] && Distinct(ids[1..]))
  }

  /** The one-by-one creation in closed form: it succeeds exactly on distinct fresh ids. */
  lemma {:induction false} InsertRowsExact(rows: map<Key, Row>, table: string, ids: seq<int>, owner: int)
    ensures InsertRows(rows, table, ids, owner).Some? <==> Distinct(ids) && KeysOf(table, ids) !! rows.Keys
    ensures InsertRows(rows, table, ids, owner).Some? ==>
              InsertRows(rows, table, ids, owner).value
              == rows + (map k | k in KeysOf(table, ids) :: Row(owner, BODY, true))
    decreases |ids|
  {
    if ids == [] {
      assert rows + (map k | k in KeysOf(table, ids) :: Row(owner, BODY, true)) == rows;
    } else {
      var k := Key(table, ids[0]);
      var row := Row(owner, BODY, true);
      KeysOfCons(table, ids);
      if k !in rows {
        InsertRowsExact(rows[k := row], table, ids[1..], owner);
        InsertOne(rows, k, row, KeysOf(table, ids[1..]));
      }
    }
  }

  lemma {:induction false} InsertOne(rows: map<Key, Row>, k: Key, row: Row, rest: set<Key>)
    ensures rows[k := row].Keys == rows.Keys + {k}
    ensures rows[k := row] + (map x | x in rest :: row) == rows + (map x | x in {k} + rest :: row)
  {
  }

  lemma {:induction false} KeysOfCons(table: string, ids: seq<int>)
    requires ids != []
    ensures KeysOf(table, ids) == {Key(table, ids[0])} + KeysOf(table, ids[1..])
    ensures Key(table, ids[0]) in KeysOf(table, ids[1..]) <==> ids[0] in ids[1..]
  {
    assert ids == [ids[0]] + ids[1..];
    forall k
      ensures k in KeysOf(table, ids) <==> k in {Key(table, ids[0])} + KeysOf(table, ids[1..])
    {
      assert ids[0] in ids;
    }
  }

  /** The edges an operation adds when it finds these rows. */
  function NewEdges(rows: map<Key, Row>, op: Op): multiset<Edge> {
    if op.CreateEdge? && Key(op.table, op.source) in rows && Key(op.table, op.target) in rows then
      multiset{Edge(op.edgeTable, op.source, op.target, 1)}
    else multiset{}
  }

  lemma {:induction false} ApplyChangesOnlyFootprint(db: Db, op: Op)
    requires Apply(db, op).Some?
    ensures var after := Apply(db, op).value;
            && after.edges == db.edges + NewEdges(db.rows, op)
            && AgreeOff(db.rows, after.rows, Footprint(op))
  {
    if op.CreateNode? {
      InsertRowsExact(db.rows, op.table, op.keys, op.owner);
    }
  }

  lemma {:induction false} ApplyReadsOnlyFootprint(a: Db, b: Db, op: Op)
    requires Agree(a.rows, b.rows, Footprint(op))
    ensures Apply(a, op).Some? <==> Apply(b, op).Some?
    ensures NewEdges(a.rows, op) == NewEdges(b.rows, op)
    ensures Apply(a, op).Some? ==> Agree(Apply(a, op).value.rows, Apply(b, op).value.rows, Footprint(op))
  {
    if op.CreateNode? {
      InsertRowsExact(a.rows, op.table, op.keys, op.owner);
      InsertRowsExact(b.rows, op.table, op.keys, op.owner);
      assert KeysOf(op.table, op.keys) !! a.rows.Keys <==> KeysOf(op.table, op.keys) !! b.rows.Keys;
    }
  }

  /** Operations on different rows commute, refusals included. */
  lemma {:induction false} Commute(db: Db, a: Op, b: Op)
    requires Footprint(a) !! Footprint(b)
    ensures Step(Apply(db, a), b) == Step(Apply(db, b), a)
  {
    var da, dbb := Apply(db, a), Apply(db, b);
    if da.Some? {
      ApplyChangesOnlyFootprint(db, a);
      ApplyReadsOnlyFootprint(db, da.value, b);
    }
    if dbb.Some? {
      ApplyChangesOnlyFootprint(db, b);
      ApplyReadsOnlyFootprint(db, dbb.value, a);
    }
    if da.Some? && dbb.Some? {
      CommuteCommitted(db, a, b);
    }
  }

  lemma {:induction false} CommuteCommitted(db: Db, a: Op, b: Op)
    requires Footprint(a) !! Footprint(b)
    requires Apply(db, a).Some? && Apply(db, b).Some?
    ensures Step(Apply(db, a), b) == Step(Apply(db, b), a)
  {
    var da, d2 := Apply(db, a).value, Apply(db, b).value;
    SecondCommits(db, da, a, b);
    SecondCommits(db, d2, b, a);
    CommutedEffects(db, da, Apply(da, b).value, d2, Apply(d2, a).value, a, b);
  }

  /** What a committed operation does, without saying how. */
  ghost predicate Effect(before: Db, after: Db, op: Op) {
    && after.edges == before.edges + NewEdges(before.rows, op)
    && AgreeOff(before.rows, after.rows, Footprint(op))
  }

  /** The second of two operations on different rows commits after the first as it would alone. */
  lemma {:induction false} SecondCommits(db: Db, da: Db, a: Op, b: Op)
    requires Footprint(a) !! Footprint(b)
    requires Apply(db, a) == Some(da) && Apply(db, b).Some?
    ensures Effect(db, da, a) && Apply(da, b).Some? && Effect(da, Apply(da, b).value, b)
    ensures NewEdges(db.rows, b) == NewEdges(da.rows, b)
    ensures Agree(Apply(db, b).value.rows, Apply(da, b).value.rows, Footprint(b))
  {
    ApplyChangesOnlyFootprint(db, a);
    ApplyReadsOnlyFootprint(db, da, b);
    ApplyChangesOnlyFootprint(da, b);
  }

  lemma {:induction false} CommutedEffects(db: Db, da: Db, dab: Db, d2: Db, dba: Db, a: Op, b: Op)
    requires Footprint(a) !! Footprint(b)
    requires Effect(db, da, a) && Effect(da, dab, b) && Effect(db, d2, b) && Effect(d2, dba, a)
    requires NewEdges(db.rows, b) == NewEdges(da.rows, b) && NewEdges(db.rows, a) == NewEdges(d2.rows, a)
    requires Agree(d2.rows, dab.rows, Footprint(b)) && Agree(da.rows, dba.rows, Footprint(a))
    ensures dab == dba
  {
    MapsMeet(db.rows, da.rows, d2.rows, dab.rows, dba.rows, Footprint(a), Footprint(b));
  }

  lemma {:induction false} MapsMeet(r: map<Key, Row>, ra: map<Key, Row>, rb: map<Key, Row>, rab: map<Key, Row>, rba: map<Key, Row>,
                 fa: set<Key>, fb: set<Key>)
    requires fa !! fb
    requires AgreeOff(r, ra, fa) && AgreeOff(r, rb, fb) && AgreeOff(ra, rab, fb) && AgreeOff(rb, rba, fa)
    requires Agree(ra, rba, fa) && Agree(rb, rab, fb)
    ensures rab == rba
  {
    forall k
      ensures (k in rab <==> k in rba) && (k in rab && k in rba ==> rab[k] == rba[k])
    {
      if k in fa {
      } else if k in fb {
      } else {
      }
    }
  }

  // ----- Interleavings

  datatype Commit = Commit(slot: nat, op: Op)

  function Ops(commits: seq<Commit>): seq<Op> {
    seq(|commits|, i requires 0 <= i < |commits| => commits[i].op)
  }

  /** The operations one writer committed, in its own order. */
  function LogOf(commits: seq<Commit>, slot: nat): seq<Op> {
    if commits == [] then []
    else
      var rest := LogOf(commits[..|commits| - 1], slot);
      var last := commits[|commits| - 1];
      if last.slot == slot then rest + [last.op] else rest
  }

  function Without(commits: seq<Commit>, slot: nat): seq<Commit> {
    if commits == [] then []
    else
      var rest := Without(commits[..|commits| - 1], slot);
      var last := commits[|commits| - 1];
      if last.slot == slot then rest else rest + [last]
  }

  /** The concatenation handed to the replay: every writer's log, in slot order. */
  function SlotOrder(logs: seq<seq<Op>>): seq<Op> {
    if logs == [] then [] else SlotOrder(logs[..|logs| - 1]) + logs[|logs| - 1]
  }

  /** `commits` is a commit order in which writer i committed exactly `logs[i]`. */
  ghost predicate Interleaves(commits: seq<Commit>, logs: seq<seq<Op>>) {
    && (forall i :: 0 <= i < |commits| ==> commits[i].slot < |logs|)
    && (forall s :: 0 <= s < |logs| ==> LogOf(commits, s) == logs[s])
  }

  ghost predicate Apart(a: seq<Op>, b: seq<Op>) {
    forall i, j :: 0 <= i < |a| && 0 <= j < |b| ==> Footprint(a[i]) !! Footprint(b[j])
  }

  ghost predicate PairwiseApart(logs: seq<seq<Op>>) {
    forall s, t :: 0 <= s < t < |logs| ==> Apart(logs[s], logs[t])
  }

  lemma {:induction false} RunAppend(db: Option<Db>, a: seq<Op>, b: seq<Op>)
    ensures Run(db, a + b) == Run(Run(db, a), b)
    decreases |b|
  {
    if b == [] {
      assert a + b == a;
    } else {
      assert (a + b)[..|a + b| - 1] == a + b[..|b| - 1];
      RunAppend(db, a, b[..|b| - 1]);
    }
  }

  lemma {:induction false} CommuteLog(db: Option<Db>, log: seq<Op>, op: Op)
    requires forall i :: 0 <= i < |log| ==> Footprint(log[i]) !! Footprint(op)
    ensures Step(Run(db, log), op) == Run(Step(db, op), log)
    decreases |log|
  {
    if log != [] {
      var front, last := log[..|log| - 1], log[|log| - 1];
      CommuteLog(db, front, op);
      var mid := Run(db, front);
      if mid.Some? {
        Commute(mid.value, last, op);
      }
    }
  }

  /** Every operation of the split commit order comes from the whole one. */
  lemma {:induction false} SplitMembers(commits: seq<Commit>, slot: nat)
    ensures forall op :: op in LogOf(commits, slot) ==> exists i :: 0 <= i < |commits| && commits[i] == Commit(slot, op)
    ensures forall c :: c in Without(commits, slot) ==> c in commits && c.slot != slot
  {
    if commits != [] {
      var front := commits[..|commits| - 1];
      SplitMembers(front, slot);
      forall op | op in LogOf(commits, slot)
        ensures exists i :: 0 <= i < |commits| && commits[i] == Commit(slot, op)
      {
        if op in LogOf(front, slot) {
          var i :| 0 <= i < |front| && front[i] == Commit(slot, op);
          assert commits[i] == Commit(slot, op);
        } else {
          assert commits[|commits| - 1] == Commit(slot, op);
        }
      }
    }
  }

  /** Postponing one writer's whole log to the end of the commit order changes nothing. */
  lemma {:induction false} Postpone(db: Option<Db>, commits: seq<Commit>, slot: nat)
    requires forall i, j :: 0 <= i < |commits| && 0 <= j < |commits| && commits[i].slot == slot != commits[j].slot
                       ==> Footprint(commits[i].op) !! Footprint(commits[j].op)
    ensures Run(db, Ops(commits)) == Run(Run(db, Ops(Without(commits, slot))), LogOf(commits, slot))
    decreases |commits|
  {
    if commits != [] {
      var front, last := commits[..|commits| - 1], commits[|commits| - 1];
      assert Ops(commits)[..|commits| - 1] == Ops(front);
      Postpone(db, front, slot);
      var kept, log := Without(front, slot), LogOf(front, slot);
      if last.slot == slot {
        assert (log + [last.op])[..|log|] == log;
      } else {
        SplitMembers(front, slot);
        forall i | 0 <= i < |log|
          ensures Footprint(log[i]) !! Footprint(last.op)
        {
          assert log[i] in log;
        }
        PostponeLast(db, kept, log, last);
      }
    }
  }

  lemma {:induction false} PostponeLast(db: Option<Db>, kept: seq<Commit>, log: seq<Op>, last: Commit)
    requires forall i :: 0 <= i < |log| ==> Footprint(log[i]) !! Footprint(last.op)
    ensures Step(Run(Run(db, Ops(kept)), log), last.op) == Run(Run(db, Ops(kept + [last])), log)
  {
    CommuteLog(Run(db, Ops(kept)), log, last.op);
    assert Ops(kept + [last])[..|kept|] == Ops(kept);
  }

  lemma {:induction false} WithoutKeepsLogs(commits: seq<Commit>, slot: nat, other: nat)
    requires slot != other
    ensures LogOf(Without(commits, slot), other) == LogOf(commits, other)
    decreases |commits|
  {
    if commits != [] {
      var front, last := commits[..|commits| - 1], commits[|commits| - 1];
      WithoutKeepsLogs(front, slot, other);
      if last.slot != slot {
        assert (Without(front, slot) + [last])[..|Without(front, slot)|] == Without(front, slot);
      }
    }
  }

  lemma {:induction false} InLog(commits: seq<Commit>, i: nat)
    requires i < |commits|
    ensures commits[i].op in LogOf(commits, commits[i].slot)
    decreases |commits|
  {
    if i < |commits| - 1 {
      InLog(commits[..|commits| - 1], i);
    }
  }

  lemma {:induction false} LastWriterApart(commits: seq<Commit>, logs: seq<seq<Op>>, i: nat, j: nat)
    requires Interleaves(commits, logs) && PairwiseApart(logs)
    requires i < |commits| && j < |commits| && commits[i].slot == |logs| - 1 != commits[j].slot
    ensures Footprint(commits[i].op) !! Footprint(commits[j].op)
  {
    InLog(commits, i);
    InLog(commits, j);
    assert Apart(logs[commits[j].slot], logs[commits[i].slot]);
  }

  lemma {:induction false} DropLastWriter(commits: seq<Commit>, logs: seq<seq<Op>>)
    requires Interleaves(commits, logs) && logs != []
    ensures Interleaves(Without(commits, |logs| - 1), logs[..|logs| - 1])
  {
    var n := |logs| - 1;
    var rest := Without(commits, n);
    SplitMembers(commits, n);
    forall i | 0 <= i < |rest|
      ensures rest[i].slot < n
    {
      assert rest[i] in rest;
    }
    forall s | 0 <= s < n
      ensures LogOf(rest, s) == logs[..n][s]
    {
      WithoutKeepsLogs(commits, n, s);
    }
  }

  lemma {:induction false} SomeWriter(commits: seq<Commit>, logs: seq<seq<Op>>)
    requires Interleaves(commits, logs) && commits != []
    ensures logs != []
  {
    assert commits[0].slot < |logs|;
  }

  /** Any commit order of writers with separate rows replays like the slot-order log. */
  lemma {:induction false} SlotOrderReplays(db: Option<Db>, commits: seq<Commit>, logs: seq<seq<Op>>)
    requires Interleaves(commits, logs) && PairwiseApart(logs)
    ensures Run(db, Ops(commits)) == Run(db, SlotOrder(logs))
    decreases |logs|
  {
    if logs == [] {
      if commits != [] {
        SomeWriter(commits, logs);
      }
    } else {
      var n := |logs| - 1;
      forall i, j | 0 <= i < |commits| && 0 <= j < |commits| && commits[i].slot == n != commits[j].slot
        ensures Footprint(commits[i].op) !! Footprint(commits[j].op)
      {
        LastWriterApart(commits, logs, i, j);
      }
      Postpone(db, commits, n);
      DropLastWriter(commits, logs);
      SlotOrderReplays(db, Without(commits, n), logs[..n]);
      RunAppend(db, SlotOrder(logs[..n]), logs[n]);
    }
  }

  // ----- Writers that only touch rows they created

  function CreatedBy(ops: seq<Op>): set<Key> {
    if ops == [] then {} else CreatedBy(ops[..|ops| - 1]) + Created(ops[|ops| - 1])
  }

  ghost predicate MadeBefore(ops: seq<Op>, i: int)
    requires 0 <= i < |ops|
  {
    Footprint(ops[i]) <= CreatedBy(ops[..i + 1])
  }

  /** Every row an operation touches was created by this writer, in this or an earlier operation. */
  ghost predicate SelfMade(ops: seq<Op>) {
    forall i :: 0 <= i < |ops| ==> MadeBefore(ops, i)
  }

  lemma {:induction false} CreatedByGrows(ops: seq<Op>, i: nat)
    requires i <= |ops|
    ensures CreatedBy(ops[..i]) <= CreatedBy(ops)
    decreases |ops|
  {
    if i < |ops| {
      assert ops[..|ops| - 1][..i] == ops[..i];
      CreatedByGrows(ops[..|ops| - 1], i);
    } else {
      assert ops[..i] == ops;
    }
  }

  lemma {:induction false} CreatedByMember(ops: seq<Op>, k: Key) returns (i: nat)
    requires k in CreatedBy(ops)
    ensures i < |ops| && k in Created(ops[i])
    decreases |ops|
  {
    if k in Created(ops[|ops| - 1]) {
      i := |ops| - 1;
    } else {
      i := CreatedByMember(ops[..|ops| - 1], k);
    }
  }

  lemma {:induction false} CreateNeedsFreshRows(db: Db, op: Op)
    requires Apply(db, op).Some?
    ensures Created(op) !! db.rows.Keys
    ensures Apply(db, op).value.rows.Keys == db.rows.Keys + Created(op)
  {
    if op.CreateNode? {
      InsertRowsExact(db.rows, op.table, op.keys, op.owner);
    }
  }

  /** A run that was never refused keeps every row it started with and every row it created. */
  lemma {:induction false} RowsStay(db: Db, ops: seq<Op>)
    requires Run(Some(db), ops).Some?
    ensures Run(Some(db), ops).value.rows.Keys == db.rows.Keys + CreatedBy(ops)
    ensures db.rows.Keys !! CreatedBy(ops)
    decreases |ops|
  {
    if ops != [] {
      var front, last := ops[..|ops| - 1], ops[|ops| - 1];
      RowsStay(db, front);
      CreateNeedsFreshRows(Run(Some(db), front).value, last);
    }
  }

  /** A run that was never refused creates no row twice. */
  lemma {:induction false} CreatedOnce(db: Db, ops: seq<Op>, i: nat, j: nat)
    requires Run(Some(db), ops).Some? && i < j < |ops|
    ensures Created(ops[i]) !! Created(ops[j])
  {
    var before := ops[..j];
    PrefixCommitted(Some(db), ops, j + 1);
    assert ops[..j + 1][..j] == before;
    RowsStay(db, before);
    CreateNeedsFreshRows(Run(Some(db), before).value, ops[j]);
    CreatedByContains(before, i);
  }

  lemma {:induction false} CreatedByContains(ops: seq<Op>, i: nat)
    requires i < |ops|
    ensures Created(ops[i]) <= CreatedBy(ops)
  {
    assert ops[..i + 1][..i] == ops[..i];
    CreatedByGrows(ops, i + 1);
  }

  lemma {:induction false} PrefixCommitted(db: Option<Db>, ops: seq<Op>, n: nat)
    requires n <= |ops| && Run(db, ops).Some?
    ensures Run(db, ops[..n]).Some?
  {
    if Run(db, ops[..n]).None? {
      RefusalSticks(db, ops, n);
    }
  }

  /** The position in the commit order of an operation found in a writer's log. */
  lemma {:induction false} Locate(commits: seq<Commit>, slot: nat, p: nat) returns (i: nat)
    requires p < |LogOf(commits, slot)|
    ensures i < |commits| && commits[i] == Commit(slot, LogOf(commits, slot)[p])
    decreases |commits|
  {
    var front := commits[..|commits| - 1];
    if p < |LogOf(front, slot)| {
      i := Locate(front, slot, p);
    } else {
      i := |commits| - 1;
    }
  }

  lemma {:induction false} CommittedPairIsApart(db: Db, commits: seq<Commit>, s: nat, t: nat)
    requires s != t && SelfMade(LogOf(commits, s)) && SelfMade(LogOf(commits, t))
    requires Run(Some(db), Ops(commits)).Some?
    ensures CreatedBy(LogOf(commits, s)) !! CreatedBy(LogOf(commits, t))
  {
    forall k | k in CreatedBy(LogOf(commits, s)) && k in CreatedBy(LogOf(commits, t))
      ensures false
    {
      var p := CreatedByMember(LogOf(commits, s), k);
      var q := CreatedByMember(LogOf(commits, t), k);
      var x := Locate(commits, s, p);
      var y := Locate(commits, t, q);
      if x < y {
        CreatedOnce(db, Ops(commits), x, y);
      } else {
        CreatedOnce(db, Ops(commits), y, x);
      }
    }
  }

  lemma {:induction false} SelfMadeApart(a: seq<Op>, b: seq<Op>)
    requires SelfMade(a) && SelfMade(b) && CreatedBy(a) !! CreatedBy(b)
    ensures Apart(a, b)
  {
    forall i, j | 0 <= i < |a| && 0 <= j < |b|
      ensures Footprint(a[i]) !! Footprint(b[j])
    {
      assert MadeBefore(a, i) && MadeBefore(b, j);
      CreatedByGrows(a, i + 1);
      CreatedByGrows(b, j + 1);
    }
  }

  /** Writers that touch only their own rows, in a run the primary keys never refused, have
      separate rows -- however many rows each of them made. */
  lemma {:induction false} CommittedWritersAreApart(db: Db, commits: seq<Commit>, logs: seq<seq<Op>>)
    requires Interleaves(commits, logs)
    requires forall s :: 0 <= s < |logs| ==> SelfMade(logs[s])
    requires Run(Some(db), Ops(commits)).Some?
    ensures PairwiseApart(logs)
  {
    forall s, t | 0 <= s < t < |logs|
      ensures Apart(logs[s], logs[t])
    {
      assert LogOf(commits, s) == logs[s] && LogOf(commits, t) == logs[t];
      CommittedPairIsApart(db, commits, s, t);
      SelfMadeApart(logs[s], logs[t]);
    }
  }

  /** The matrix's claim: the concatenation in slot order is a valid serialisation. */
  lemma {:induction false} SlotOrderIsASerialisation(db: Db, commits: seq<Commit>, logs: seq<seq<Op>>)
    requires Interleaves(commits, logs)
    requires forall s :: 0 <= s < |logs| ==> SelfMade(logs[s])
    requires Run(Some(db), Ops(commits)).Some?
    ensures Run(Some(db), SlotOrder(logs)) == Run(Some(db), Ops(commits))
  {
    CommittedWritersAreApart(db, commits, logs);
    SlotOrderReplays(Some(db), commits, logs);
  }
}
