/** The writer loop of the multi-client matrix with its effect ledgers, the merge of those
    ledgers over all writers, and the criteria that compare them with the stored database.
 */
module WriterLedger {
  import opened Basics
  import opened SerialOracle

  const KEYS_PER_SLOT := 1_000_000
  const QUIET_TABLE := "Quiet"

  datatype Stored = Stored(owner: int, body: string)

  /** What one writer expects the database to hold. */
  datatype Ledger = Ledger(
    acknowledged: seq<Key>,
    owner: map<Key, Stored>,
    superseded: seq<Key>,
    edges: seq<Edge>)

  function Tagged(table: string, ids: seq<int>): seq<Key> {
    if ids == [] then [] else [Key(table, ids[0])] + Tagged(table, ids[1..])
  }

  /** What a committed operation adds to the ledger. */
  function Record(l: Ledger, op: Op): Ledger {
    match op
    case CreateNode(table, keys, owner) =>
      l.(acknowledged := l.acknowledged + Tagged(table, keys),
         owner := l.owner + (map k | k in KeysOf(table, keys) :: Stored(owner, BODY)))
    case CreateEdge(_, edgeTable, source, target) =>
      l.(edges := l.edges + [Edge(edgeTable, source, target, 1)])
    case UpdateNode(table, key, owner) =>
      l.(owner := l.owner[Key(table, key) := Stored(owner, BODY)])
    case MarkSuperseded(table, key) =>
      if Key(table, key) in l.superseded then l else l.(superseded := l.superseded + [Key(table, key)])
  }

  function LedgerOf(ops: seq<Op>): Ledger {
    if ops == [] then Ledger([], map[], [], [])
    else Record(LedgerOf(ops[..|ops| - 1]), ops[|ops| - 1])
  }

  /** Ids `first + 1 .. first + n`, as one create_node round makes them. */
  function Ids(first: int, n: nat): (r: seq<int>)
    ensures |r| == n
    ensures forall i :: 0 <= i < n ==> r[i] == first + i + 1
  {
    if n == 0 then [] else Ids(first, n - 1) + [first + n]
  }

  /** How one round of the writer loop went: which transactions committed, and whether the
      window was still open where the loop asks. */
  datatype Round = Round(createOk: bool, edgeOpen: bool, edgeOk: bool,
                         updateOpen: bool, updateOk: bool, supersedeOpen: bool, supersedeOk: bool)

  class Writer {
    const slot: nat
    const rowsPerTxn: nat
    const nodeTable: string
    const edgeTable: string
    var index: nat
    var madeNodes: seq<int>
    var acknowledged: seq<Key>
    var expectedOwner: map<Key, Stored>
    var expectedSuperseded: seq<Key>
    var expectedEdges: seq<Edge>
    var operations: seq<Op>

    constructor (slot: nat, rowsPerTxn: nat, nodeTable: string, edgeTable: string)
      ensures Valid() && operations == [] && index == 0 && madeNodes == []
      ensures this.slot == slot && this.rowsPerTxn == rowsPerTxn
      ensures this.nodeTable == nodeTable && this.edgeTable == edgeTable
    {
      this.slot, this.rowsPerTxn, this.nodeTable, this.edgeTable := slot, rowsPerTxn, nodeTable, edgeTable;
      index, madeNodes, acknowledged, expectedOwner := 0, [], [], map[];
      expectedSuperseded, expectedEdges, operations := [], [], [];
    }

    ghost function Expects(): Ledger
      reads this
    {
      Ledger(acknowledged, expectedOwner, expectedSuperseded, expectedEdges)
    }

    /** The ledgers and the ids made so far are those of the log. */
    ghost predicate Consistent(bound: nat)
      reads this
    {
      Sound(slot, nodeTable, bound, operations, Expects(), madeNodes)
    }

    ghost predicate Valid()
      reads this
    {
      Consistent(index * rowsPerTxn)
    }

    /** A committed create_node transaction, right after the first `bound` ids. */
    method Create(keys: seq<int>, ghost bound: nat)
      requires Consistent(bound) && keys == Ids(slot * KEYS_PER_SLOT + bound, rowsPerTxn)
      modifies this
      ensures Consistent(bound + rowsPerTxn)
      ensures index == old(index) && madeNodes == old(madeNodes) + keys
      ensures operations == old(operations) + [CreateNode(nodeTable, keys, slot)]
    {
      SoundCreate(slot, nodeTable, bound, rowsPerTxn, operations, Expects(), madeNodes);
      acknowledged := acknowledged + Tagged(nodeTable, keys);
      madeNodes := madeNodes + keys;
      expectedOwner := expectedOwner + (map k | k in KeysOf(nodeTable, keys) :: Stored(slot, BODY));
      operations := operations + [CreateNode(nodeTable, keys, slot)];
    }

    /** A committed create_edge transaction between the two newest rows. */
    method Link(ghost bound: nat)
      requires Consistent(bound) && |madeNodes| >= 2
      modifies this
      ensures Consistent(bound)
      ensures index == old(index) && madeNodes == old(madeNodes)
      ensures operations
              == old(operations)
                 + [CreateEdge(nodeTable, edgeTable, madeNodes[|madeNodes| - 2], madeNodes[|madeNodes| - 1])]
    {
      var source, target := madeNodes[|madeNodes| - 2], madeNodes[|madeNodes| - 1];
      SoundStep(slot, nodeTable, bound, operations, Expects(), madeNodes,
                CreateEdge(nodeTable, edgeTable, source, target));
      expectedEdges := expectedEdges + [Edge(edgeTable, source, target, 1)];
      operations := operations + [CreateEdge(nodeTable, edgeTable, source, target)];
    }

    /** A committed update_node transaction on the newest row. */
    method Update(ghost bound: nat)
      requires Consistent(bound) && madeNodes != []
      modifies this
      ensures Consistent(bound)
      ensures index == old(index) && madeNodes == old(madeNodes)
      ensures operations
              == old(operations) + [UpdateNode(nodeTable, madeNodes[|madeNodes| - 1], slot * 1000 + index)]
    {
      var key, owner := madeNodes[|madeNodes| - 1], slot * 1000 + index;
      SoundStep(slot, nodeTable, bound, operations, Expects(), madeNodes, UpdateNode(nodeTable, key, owner));
      expectedOwner := expectedOwner[Key(nodeTable, key) := Stored(owner, BODY)];
      operations := operations + [UpdateNode(nodeTable, key, owner)];
    }

    /** A committed mark_superseded transaction on the oldest row. */
    method Supersede(ghost bound: nat)
      requires Consistent(bound) && madeNodes != []
      modifies this
      ensures Consistent(bound)
      ensures index == old(index) && madeNodes == old(madeNodes)
      ensures operations == old(operations) + [MarkSuperseded(nodeTable, madeNodes[0])]
    {
      SoundStep(slot, nodeTable, bound, operations, Expects(), madeNodes, MarkSuperseded(nodeTable, madeNodes[0]));
      operations := operations + [MarkSuperseded(nodeTable, madeNodes[0])];
      var marked := Key(nodeTable, madeNodes[0]);
      if marked !in expectedSuperseded {
        expectedSuperseded := expectedSuperseded + [marked];
      }
    }

    method CreateIf(ok: bool, keys: seq<int>, ghost bound: nat)
      requires Consistent(bound) && keys == Ids(slot * KEYS_PER_SLOT + bound, rowsPerTxn)
      modifies this
      ensures Consistent(bound + rowsPerTxn)
      ensures index == old(index)
      ensures madeNodes == if ok then old(madeNodes) + keys else old(madeNodes)
      ensures operations == if ok then old(operations) + [CreateNode(nodeTable, keys, slot)] else old(operations)
    {
      if ok {
        Create(keys, bound);
      } else {
        SoundWidens(slot, nodeTable, bound, bound + rowsPerTxn, operations, Expects(), madeNodes);
      }
    }

    /** The first half of a round: create, then link the two newest rows. */
    method CreateAndLink(r: Round, keys: seq<int>, ghost bound: nat)
      requires Consistent(bound) && keys == Ids(slot * KEYS_PER_SLOT + bound, rowsPerTxn)
      modifies this
      ensures Consistent(bound + rowsPerTxn)
      ensures index == old(index)
      ensures madeNodes == if r.createOk then old(madeNodes) + keys else old(madeNodes)
      ensures operations == Linked(old(operations), slot, nodeTable, edgeTable, keys, madeNodes, r)
    {
      CreateIf(r.createOk, keys, bound);
      if r.edgeOpen && |madeNodes| >= 2 && r.edgeOk {
        Link(bound + rowsPerTxn);
      }
    }

    /** The second half of a round: update the newest row, supersede the oldest. */
    method UpdateAndSupersede(r: Round, ghost bound: nat)
      requires Consistent(bound)
      modifies this
      ensures Consistent(bound)
      ensures index == old(index) && madeNodes == old(madeNodes)
      ensures operations == Settled(old(operations), slot, index, nodeTable, madeNodes, r)
    {
      if r.updateOpen && madeNodes != [] {
        if r.updateOk {
          Update(bound);
        }
        if r.supersedeOpen && r.supersedeOk {
          Supersede(bound);
        }
      }
    }

    /** The loop's own variables and the log. */
    function State(): Progress
      reads this
    {
      Progress(index, madeNodes, operations)
    }

    /** One pass of the loop body. */
    method RunRound(r: Round)
      requires Valid()
      modifies this
      ensures Valid()
      ensures State() == AfterRound(slot, rowsPerTxn, nodeTable, edgeTable, old(State()), r)
    {
      ghost var bound := index * rowsPerTxn;
      var keys := Ids(slot * KEYS_PER_SLOT + index * rowsPerTxn, rowsPerTxn);
      CreateAndLink(r, keys, bound);
      UpdateAndSupersede(r, bound + rowsPerTxn);
      RoundIdsFit(index, rowsPerTxn);
      index := index + 1;
      RoundIs(slot, rowsPerTxn, nodeTable, edgeTable, old(State()), r, keys, State());
    }

    /** The whole loop over any sequence of round outcomes: the log is that of the rounds, one
        after the other. */
    method Work(rounds: seq<Round>)
      requires Valid()
      modifies this
      ensures Valid()
      ensures index == old(index) + |rounds|
      ensures State() == AfterRounds(slot, rowsPerTxn, nodeTable, edgeTable, old(State()), rounds)
    {
      for i := 0 to |rounds|
        invariant Valid()
        invariant index == old(index) + i
        invariant State() == AfterRounds(slot, rowsPerTxn, nodeTable, edgeTable, old(State()), rounds[..i])
      {
        RunRound(rounds[i]);
        RoundsGrow(slot, rowsPerTxn, nodeTable, edgeTable, old(State()), rounds, i);
      }
      assert rounds[..|rounds|] == rounds;
    }
  }

  datatype Progress = Progress(index: nat, made: seq<int>, log: seq<Op>)

  /** One round: the ids it would make, the log of its first half, then that of its second. */
  function AfterRound(slot: nat, rowsPerTxn: nat, nodeTable: string, edgeTable: string, p: Progress, r: Round): Progress {
    var keys := Ids(slot * KEYS_PER_SLOT + p.index * rowsPerTxn, rowsPerTxn);
    var made := if r.createOk then p.made + keys else p.made;
    var linked := Linked(p.log, slot, nodeTable, edgeTable, keys, made, r);
    Progress(p.index + 1, made, Settled(linked, slot, p.index, nodeTable, made, r))
  }

  function AfterRounds(slot: nat, rowsPerTxn: nat, nodeTable: string, edgeTable: string, p: Progress,
                       rounds: seq<Round>): Progress {
    if rounds == [] then p
    else
      var n := |rounds| - 1;
      AfterRound(slot, rowsPerTxn, nodeTable, edgeTable,
                 AfterRounds(slot, rowsPerTxn, nodeTable, edgeTable, p, rounds[..n]), rounds[n])
  }

  lemma {:induction false} RoundIs(slot: nat, rowsPerTxn: nat, nodeTable: string, edgeTable: string, p: Progress, r: Round,
                                   keys: seq<int>, q: Progress)
    requires keys == Ids(slot * KEYS_PER_SLOT + p.index * rowsPerTxn, rowsPerTxn) && q.index == p.index + 1
    requires q.made == if r.createOk then p.made + keys else p.made
    requires q.log == Settled(Linked(p.log, slot, nodeTable, edgeTable, keys, q.made, r), slot, p.index, nodeTable, q.made, r)
    ensures q == AfterRound(slot, rowsPerTxn, nodeTable, edgeTable, p, r)
  {
  }

  lemma {:induction false} RoundsGrow(slot: nat, rowsPerTxn: nat, nodeTable: string, edgeTable: string, p: Progress,
                                      rounds: seq<Round>, i: nat)
    requires i < |rounds|
    ensures AfterRounds(slot, rowsPerTxn, nodeTable, edgeTable, p, rounds[..i + 1])
         == AfterRound(slot, rowsPerTxn, nodeTable, edgeTable,
                       AfterRounds(slot, rowsPerTxn, nodeTable, edgeTable, p, rounds[..i]), rounds[i])
  {
    assert rounds[..i + 1][..i] == rounds[..i];
  }

  /** The log after the first half of a round. */
  function Linked(log: seq<Op>, slot: nat, nodeTable: string, edgeTable: string,
                  made: seq<int>, all: seq<int>, r: Round): seq<Op> {
    var created := if r.createOk then log + [CreateNode(nodeTable, made, slot)] else log;
    if r.edgeOpen && |all| >= 2 && r.edgeOk
    then created + [CreateEdge(nodeTable, edgeTable, all[|all| - 2], all[|all| - 1])] else created
  }

  /** The log after the second half of a round. */
  function Settled(log: seq<Op>, slot: nat, index: nat, nodeTable: string, all: seq<int>, r: Round): seq<Op> {
    var updated := if r.updateOpen && all != [] && r.updateOk
                   then log + [UpdateNode(nodeTable, all[|all| - 1], slot * 1000 + index)] else log;
    if r.updateOpen && all != [] && r.supersedeOpen && r.supersedeOk
    then updated + [MarkSuperseded(nodeTable, all[0])] else updated
  }

  /** The ledger restates the log, the log touches only rows it created, and the ids made so
      far are increasing and among the first `bound` ids of the slot. */
  ghost predicate Sound(slot: nat, table: string, bound: nat, ops: seq<Op>, l: Ledger, made: seq<int>) {
    forall c: Clause :: Keeps(c, slot, table, bound, ops, l, made)
  }

  datatype Clause = Restates | TouchesOwnRows | MadeRows | InRange | Increasing

  ghost predicate Keeps(c: Clause, slot: nat, table: string, bound: nat, ops: seq<Op>, l: Ledger, made: seq<int>) {
    match c
    case Restates => l == LedgerOf(ops)
    case TouchesOwnRows => SelfMade(ops)
    case MadeRows => CreatedBy(ops) == KeysOf(table, made)
    case InRange => forall i :: 0 <= i < |made| ==> Makes(slot, bound, made[i])
    case Increasing => forall i, j :: 0 <= i < j < |made| ==> made[i] < made[j]
  }

  lemma {:induction false} SoundCreate(slot: nat, table: string, bound: nat, rows: nat, ops: seq<Op>, l: Ledger, made: seq<int>)
    requires Sound(slot, table, bound, ops, l, made)
    ensures var keys := Ids(slot * KEYS_PER_SLOT + bound, rows);
            var op := CreateNode(table, keys, slot);
            Sound(slot, table, bound + rows, ops + [op], Record(l, op), made + keys)
  {
    var keys := Ids(slot * KEYS_PER_SLOT + bound, rows);
    var op := CreateNode(table, keys, slot);
    assert Keeps(Restates, slot, table, bound, ops, l, made) && Keeps(TouchesOwnRows, slot, table, bound, ops, l, made);
    assert Keeps(MadeRows, slot, table, bound, ops, l, made) && Keeps(InRange, slot, table, bound, ops, l, made);
    assert Keeps(Increasing, slot, table, bound, ops, l, made);
    LogGrows(ops, op);
    KeysOfAppend(table, made, keys);
    MoreIds(slot, bound, rows, made);
    var wider, log, next, all := bound + rows, ops + [op], Record(l, op), made + keys;
    forall c: Clause
      ensures Keeps(c, slot, table, wider, log, next, all)
    {
      match c {
        case Restates =>
        case TouchesOwnRows =>
        case MadeRows =>
        case InRange =>
        case Increasing =>
      }
    }
  }

  lemma {:induction false} MoreIds(slot: nat, bound: nat, rows: nat, made: seq<int>)
    requires forall i :: 0 <= i < |made| ==> Makes(slot, bound, made[i])
    requires forall i, j :: 0 <= i < j < |made| ==> made[i] < made[j]
    ensures var all := made + Ids(slot * KEYS_PER_SLOT + bound, rows);
            && (forall i :: 0 <= i < |all| ==> Makes(slot, bound + rows, all[i]))
            && (forall i, j :: 0 <= i < j < |all| ==> all[i] < all[j])
  {
    var all := made + Ids(slot * KEYS_PER_SLOT + bound, rows);
    forall i | 0 <= i < |all|
      ensures Makes(slot, bound + rows, all[i])
    {
      if i < |made| {
        assert Makes(slot, bound, made[i]);
      }
    }
    forall i, j | 0 <= i < j < |all|
      ensures all[i] < all[j]
    {
      if i < |made| <= j {
        assert Makes(slot, bound, made[i]);
      }
    }
  }

  lemma {:induction false} SoundWidens(slot: nat, table: string, bound: nat, wider: nat, ops: seq<Op>, l: Ledger, made: seq<int>)
    requires Sound(slot, table, bound, ops, l, made) && bound <= wider
    ensures Sound(slot, table, wider, ops, l, made)
  {
    forall c: Clause
      ensures Keeps(c, slot, table, wider, ops, l, made)
    {
      assert Keeps(c, slot, table, bound, ops, l, made);
      if c.InRange? {
        forall i | 0 <= i < |made|
          ensures Makes(slot, wider, made[i])
        {
          assert Makes(slot, bound, made[i]);
        }
      }
    }
  }

  lemma {:induction false} SoundStep(slot: nat, table: string, bound: nat, ops: seq<Op>, l: Ledger, made: seq<int>, op: Op)
    requires Sound(slot, table, bound, ops, l, made)
    requires !op.CreateNode? && Footprint(op) <= KeysOf(table, made)
    ensures Sound(slot, table, bound, ops + [op], Record(l, op), made)
  {
    assert Keeps(Restates, slot, table, bound, ops, l, made) && Keeps(TouchesOwnRows, slot, table, bound, ops, l, made);
    assert Keeps(MadeRows, slot, table, bound, ops, l, made);
    LogGrows(ops, op);
    forall c: Clause
      ensures Keeps(c, slot, table, bound, ops + [op], Record(l, op), made)
    {
      assert Keeps(c, slot, table, bound, ops, l, made);
    }
  }

  lemma {:induction false} RoundIdsFit(index: nat, rows: nat)
    ensures index * rows + rows == (index + 1) * rows
  {
  }

  lemma {:induction false} KeysOfAppend(table: string, a: seq<int>, b: seq<int>)
    ensures KeysOf(table, a + b) == KeysOf(table, a) + KeysOf(table, b)
  {
  }

  /** Appending an operation on rows already created, or a creation, keeps the log self-made. */
  lemma {:induction false} LogGrows(ops: seq<Op>, op: Op)
    requires SelfMade(ops)
    requires op.CreateNode? || Footprint(op) <= CreatedBy(ops)
    ensures SelfMade(ops + [op])
    ensures CreatedBy(ops + [op]) == CreatedBy(ops) + Created(op)
    ensures LedgerOf(ops + [op]) == Record(LedgerOf(ops), op)
  {
    var all := ops + [op];
    assert all[..|all| - 1] == ops;
    forall i | 0 <= i < |all|
      ensures MadeBefore(all, i)
    {
      if i < |ops| {
        assert MadeBefore(ops, i);
        assert all[..i + 1] == ops[..i + 1];
      } else {
        assert all[..i + 1] == all;
      }
    }
  }

  // ----- Key ranges

  /** `id` is among the first `n` ids of a slot. */
  predicate Makes(slot: nat, n: nat, id: int) {
    slot * KEYS_PER_SLOT < id <= slot * KEYS_PER_SLOT + n
  }

  /** The slot ranges `slot * 1_000_000 + n` of two writers stay apart exactly as long as the
      lower slot has not counted through to the higher slot's first id, or the higher slot
      made nothing. In particular a million ids per writer are safe. */
  lemma {:induction false} SlotRangesApartIff(s: nat, t: nat, m: nat, n: nat)
    requires s < t
    ensures (forall id :: !(Makes(s, m, id) && Makes(t, n, id))) <==> m <= (t - s) * KEYS_PER_SLOT || n == 0
    ensures m <= KEYS_PER_SLOT ==> forall id :: !(Makes(s, m, id) && Makes(t, n, id))
  {
    var gap := (t - s) * KEYS_PER_SLOT;
    assert t * KEYS_PER_SLOT == s * KEYS_PER_SLOT + gap;
    if m > gap && n > 0 {
      var id := t * KEYS_PER_SLOT + 1;
      assert Makes(s, m, id) && Makes(t, n, id);
    }
  }

  /** Every id an operation touches lies in the slot's own million. */
  ghost predicate InSlotRange(slot: nat, op: Op) {
    forall k :: k in Footprint(op) ==> slot * KEYS_PER_SLOT < k.id <= (slot + 1) * KEYS_PER_SLOT
  }

  /** The slots, in the order of their logs, are increasing. */
  predicate Ascending(slots: seq<nat>) { forall s, t :: 0 <= s < t < |slots| ==> slots[s] < slots[t] }

  /** Writers inside their own million replay in slot order whatever was refused on the way. */
  lemma {:induction false} RangedWritersReplay(db: Db, commits: seq<Commit>, logs: seq<seq<Op>>, slots: seq<nat>)
    requires Interleaves(commits, logs) && |slots| == |logs| && Ascending(slots)
    requires forall s, i :: 0 <= s < |logs| && 0 <= i < |logs[s]| ==> InSlotRange(slots[s], logs[s][i])
    ensures Run(Some(db), SlotOrder(logs)) == Run(Some(db), Ops(commits))
  {
    forall s, t | 0 <= s < t < |logs|
      ensures Apart(logs[s], logs[t])
    {
      assert (slots[s] + 1) * KEYS_PER_SLOT <= slots[t] * KEYS_PER_SLOT;
      forall i, j | 0 <= i < |logs[s]| && 0 <= j < |logs[t]|
        ensures Footprint(logs[s][i]) !! Footprint(logs[t][j])
      {
        assert InSlotRange(slots[s], logs[s][i]) && InSlotRange(slots[t], logs[t][j]);
      }
    }
    SlotOrderReplays(Some(db), commits, logs);
  }

  /** The log of a sound writer that counted no further than its million stays inside it. */
  lemma {:induction false} SoundStaysInRange(slot: nat, table: string, bound: nat, ops: seq<Op>, l: Ledger, made: seq<int>, i: nat)
    requires Sound(slot, table, bound, ops, l, made) && bound <= KEYS_PER_SLOT && i < |ops|
    ensures InSlotRange(slot, ops[i])
  {
    assert Keeps(TouchesOwnRows, slot, table, bound, ops, l, made) && Keeps(MadeRows, slot, table, bound, ops, l, made);
    assert Keeps(InRange, slot, table, bound, ops, l, made);
    assert MadeBefore(ops, i);
    CreatedByGrows(ops, i + 1);
    forall k | k in Footprint(ops[i])
      ensures slot * KEYS_PER_SLOT < k.id <= (slot + 1) * KEYS_PER_SLOT
    {
      assert k in KeysOf(table, made);
      var j :| 0 <= j < |made| && k == Key(table, made[j]);
      assert Makes(slot, bound, made[j]);
    }
  }

  // ----- Ledgers against the database

  function LedgerRows(owner: map<Key, Stored>, superseded: seq<Key>): map<Key, Row> {
    map k | k in owner :: Row(owner[k].owner, owner[k].body, k !in superseded)
  }

  ghost predicate NoDuplicates<T>(xs: seq<T>) {
    forall i, j :: 0 <= i < j < |xs| ==> xs[i] != xs[j]
  }

  /** A ledger that names only rows it acknowledged, each once. */
  ghost predicate Coherent(l: Ledger, made: set<Key>) {
    && l.owner.Keys == made
    && (forall k :: k in l.owner ==> l.owner[k].body == BODY)
    && (set k | k in l.acknowledged) == made
    && NoDuplicates(l.acknowledged)
    && (forall k :: k in l.superseded ==> k in made)
    && NoDuplicates(l.superseded)
  }

  lemma {:induction false} TaggedExact(table: string, ids: seq<int>)
    requires Distinct(ids)
    ensures NoDuplicates(Tagged(table, ids))
    ensures (set k | k in Tagged(table, ids)) == KeysOf(table, ids)
    decreases |ids|
  {
    if ids != [] {
      TaggedExact(table, ids[1..]);
      KeysOfCons(table, ids);
      var rest := Tagged(table, ids[1..]);
      assert Key(table, ids[0]) !in (set k | k in rest);
      assert Key(table, ids[0]) !in rest;
      assert (set k | k in [Key(table, ids[0])] + rest) == {Key(table, ids[0])} + (set k | k in rest);
    }
  }

  lemma {:induction false} NoDuplicatesAppend<T>(a: seq<T>, b: seq<T>)
    requires NoDuplicates(a) && NoDuplicates(b)
    requires forall x :: x in a ==> x !in b
    ensures NoDuplicates(a + b)
  {
    var all := a + b;
    forall i, j | 0 <= i < j < |all|
      ensures all[i] != all[j]
    {
      if i < |a| <= j {
        assert all[i] in a && all[j] in b;
      }
    }
  }

  lemma {:induction false} RecordCoherent(db: Db, l: Ledger, made: set<Key>, op: Op)
    requires Coherent(l, made) && made <= db.rows.Keys
    requires Apply(db, op).Some?
    requires op.CreateNode? || Footprint(op) <= made
    ensures Coherent(Record(l, op), made + Created(op))
  {
    match op
    case CreateNode(table, keys, owner) =>
      InsertRowsExact(db.rows, table, keys, owner);
      CreateCoherent(l, made, table, keys, owner);
    case MarkSuperseded(table, key) =>
      if Key(table, key) !in l.superseded { NoDuplicatesAppend(l.superseded, [Key(table, key)]); }
    case _ =>
  }

  lemma {:induction false} CreateCoherent(l: Ledger, made: set<Key>, table: string, keys: seq<int>, owner: int)
    requires Coherent(l, made) && Distinct(keys) && KeysOf(table, keys) !! made
    ensures Coherent(Record(l, CreateNode(table, keys, owner)), made + KeysOf(table, keys))
  {
    TaggedExact(table, keys);
    var tags := Tagged(table, keys);
    forall x | x in l.acknowledged
      ensures x !in tags
    {
      assert x in (set k | k in l.acknowledged);
      assert x in made;
      assert x in tags ==> x in (set k | k in tags);
      assert x in tags ==> x in KeysOf(table, keys);
    }
    NoDuplicatesAppend(l.acknowledged, tags);
    assert (set k | k in l.acknowledged + tags) == (set k | k in l.acknowledged) + (set k | k in tags);
  }

  /** Recording an operation tracks applying it. */
  lemma {:induction false} RecordTracks(before: Db, db: Db, l: Ledger, made: set<Key>, op: Op)
    requires Coherent(l, made) && made !! before.rows.Keys
    requires db.rows == before.rows + LedgerRows(l.owner, l.superseded)
    requires db.edges == before.edges + multiset(l.edges)
    requires Apply(db, op).Some?
    requires op.CreateNode? || Footprint(op) <= made
    ensures var after, l' := Apply(db, op).value, Record(l, op);
            && after.rows == before.rows + LedgerRows(l'.owner, l'.superseded)
            && after.edges == before.edges + multiset(l'.edges)
            && Created(op) !! before.rows.Keys
  {
    CreateNeedsFreshRows(db, op);
    match op
    case CreateNode(table, keys, owner) =>
      InsertRowsExact(db.rows, table, keys, owner);
      CreateTracks(before.rows, l, KeysOf(table, keys), made, owner);
    case CreateEdge(table, edgeTable, source, target) =>
      assert Key(table, source) in Footprint(op) && Key(table, target) in Footprint(op);
      assert multiset(l.edges + [Edge(edgeTable, source, target, 1)])
             == multiset(l.edges) + multiset{Edge(edgeTable, source, target, 1)};
    case UpdateNode(table, key, owner) =>
      assert Key(table, key) in Footprint(op);
      UpdateTracks(before.rows, l, Key(table, key), owner);
    case MarkSuperseded(table, key) =>
      assert Key(table, key) in Footprint(op);
      SupersedeTracks(before.rows, l, Key(table, key));
  }

  lemma {:induction false} CreateTracks(base: map<Key, Row>, l: Ledger, added: set<Key>, made: set<Key>, owner: int)
    requires Coherent(l, made) && added !! made
    ensures base + LedgerRows(l.owner, l.superseded) + (map k | k in added :: Row(owner, BODY, true))
            == base + LedgerRows(l.owner + (map k | k in added :: Stored(owner, BODY)), l.superseded)
  {
  }

  lemma {:induction false} UpdateTracks(base: map<Key, Row>, l: Ledger, k: Key, owner: int)
    requires k in l.owner && l.owner[k].body == BODY
    ensures var rows := base + LedgerRows(l.owner, l.superseded);
            rows[k := rows[k].(owner := owner)]
            == base + LedgerRows(l.owner[k := Stored(owner, BODY)], l.superseded)
  {
  }

  lemma {:induction false} SupersedeTracks(base: map<Key, Row>, l: Ledger, k: Key)
    requires k in l.owner
    ensures var rows := base + LedgerRows(l.owner, l.superseded);
            rows[k := rows[k].(live := false)] == base + LedgerRows(l.owner, l.superseded + [k])
    ensures k in l.superseded ==>
              var rows := base + LedgerRows(l.owner, l.superseded); rows[k := rows[k].(live := false)] == rows
  {
  }

  /** One writer's ledger predicts exactly what its log does to the database. */
  lemma {:induction false} LedgerPredicts(db: Db, ops: seq<Op>)
    requires SelfMade(ops) && Run(Some(db), ops).Some?
    ensures var after, l := Run(Some(db), ops).value, LedgerOf(ops);
            && Coherent(l, CreatedBy(ops))
            && CreatedBy(ops) !! db.rows.Keys
            && after.rows == db.rows + LedgerRows(l.owner, l.superseded)
            && after.edges == db.edges + multiset(l.edges)
    decreases |ops|
  {
    if ops == [] {
      assert db.rows + LedgerRows(map[], []) == db.rows;
    } else {
      var front, last := ops[..|ops| - 1], ops[|ops| - 1];
      SelfMadePrefix(ops);
      LedgerPredicts(db, front);
      var mid := Run(Some(db), front).value;
      var l, made := LedgerOf(front), CreatedBy(front);
      assert made <= mid.rows.Keys;
      RecordCoherent(mid, l, made, last);
      RecordTracks(db, mid, l, made, last);
    }
  }

  lemma {:induction false} SelfMadePrefix(ops: seq<Op>)
    requires SelfMade(ops) && ops != []
    ensures SelfMade(ops[..|ops| - 1])
    ensures ops[|ops| - 1].CreateNode? || Footprint(ops[|ops| - 1]) <= CreatedBy(ops[..|ops| - 1])
  {
    var front := ops[..|ops| - 1];
    forall i | 0 <= i < |front|
      ensures MadeBefore(front, i)
    {
      assert MadeBefore(ops, i);
      assert front[..i + 1] == ops[..i + 1];
    }
    assert MadeBefore(ops, |ops| - 1);
    assert ops[..|ops|] == ops;
  }

  // ----- The merged ledger of a whole case

  /** What the case expects of the database: the seeded quiet rows, then every writer's
      ledger folded in slot order. */
  datatype Expectation = Expectation(
    acknowledged: set<Key>,
    owner: map<Key, Stored>,
    superseded: seq<Key>,
    edges: seq<Edge>)

  function QuietRows(seeded: seq<int>): map<Key, Row> {
    map k | k in KeysOf(QUIET_TABLE, seeded) :: Row(0, "q", true)
  }

  /** The database as bootstrap leaves it. */
  function Bootstrapped(seeded: seq<int>): Db {
    Db(QuietRows(seeded), multiset{})
  }

  function Expect(seeded: seq<int>, ledgers: seq<Ledger>): Expectation {
    if ledgers == [] then
      Expectation(KeysOf(QUIET_TABLE, seeded),
                  map k | k in KeysOf(QUIET_TABLE, seeded) :: Stored(0, "q"),
                  [], [])
    else
      Join(Expect(seeded, ledgers[..|ledgers| - 1]), ledgers[|ledgers| - 1])
  }

  function Join(e: Expectation, l: Ledger): Expectation {
    Expectation(e.acknowledged + (set k | k in l.acknowledged), e.owner + l.owner,
                e.superseded + l.superseded, e.edges + l.edges)
  }

  /** The folding loop over the collected writer reports. */
  method MergeReports(seeded: seq<int>, ledgers: seq<Ledger>) returns (e: Expectation)
    ensures e == Expect(seeded, ledgers)
  {
    e := Expectation(KeysOf(QUIET_TABLE, seeded),
                     map k | k in KeysOf(QUIET_TABLE, seeded) :: Stored(0, "q"),
                     [], []);
    for i := 0 to |ledgers|
      invariant e == Expect(seeded, ledgers[..i])
    {
      var l := ledgers[i];
      assert ledgers[..i + 1][..i] == ledgers[..i];
      e := Expectation(e.acknowledged + (set k | k in l.acknowledged), e.owner + l.owner,
                       e.superseded + l.superseded, e.edges + l.edges);
    }
    assert ledgers[..|ledgers|] == ledgers;
  }

  ghost predicate WellFormed(e: Expectation) {
    && e.acknowledged == e.owner.Keys
    && (forall k :: k in e.superseded ==> k in e.owner)
  }

  function Ledgers(logs: seq<seq<Op>>): seq<Ledger> {
    if logs == [] then [] else Ledgers(logs[..|logs| - 1]) + [LedgerOf(logs[|logs| - 1])]
  }

  lemma {:induction false} SerialRunMeetsExpectation(seeded: seq<int>, logs: seq<seq<Op>>)
    requires forall s :: 0 <= s < |logs| ==> SelfMade(logs[s])
    requires Run(Some(Bootstrapped(seeded)), SlotOrder(logs)).Some?
    ensures var after, e := Run(Some(Bootstrapped(seeded)), SlotOrder(logs)).value, Expect(seeded, Ledgers(logs));
            && WellFormed(e)
            && after.rows == LedgerRows(e.owner, e.superseded)
            && after.edges == multiset(e.edges)
    decreases |logs|
  {
    var start := Some(Bootstrapped(seeded));
    if logs == [] {
      var e := Expect(seeded, []);
      assert LedgerRows(e.owner, e.superseded) == QuietRows(seeded);
    } else {
      var front, last := logs[..|logs| - 1], logs[|logs| - 1];
      FrontCommitted(start, logs);
      assert forall s :: 0 <= s < |front| ==> front[s] == logs[s];
      SerialRunMeetsExpectation(seeded, front);
      LastLogMeetsExpectation(Run(start, SlotOrder(front)).value, Expect(seeded, Ledgers(front)), last);
      LedgersFront(seeded, logs);
    }
  }

  lemma {:induction false} FrontCommitted(start: Option<Db>, logs: seq<seq<Op>>)
    requires logs != [] && Run(start, SlotOrder(logs)).Some?
    ensures Run(start, SlotOrder(logs[..|logs| - 1])).Some?
    ensures Run(start, SlotOrder(logs)) == Run(Run(start, SlotOrder(logs[..|logs| - 1])), logs[|logs| - 1])
  {
    var front := SlotOrder(logs[..|logs| - 1]);
    RunAppend(start, front, logs[|logs| - 1]);
    assert SlotOrder(logs)[..|front|] == front;
    PrefixCommitted(start, SlotOrder(logs), |front|);
  }

  lemma {:induction false} LedgersFront(seeded: seq<int>, logs: seq<seq<Op>>)
    requires logs != []
    ensures var e, l := Expect(seeded, Ledgers(logs[..|logs| - 1])), LedgerOf(logs[|logs| - 1]);
            Expect(seeded, Ledgers(logs)) == Join(e, l)
  {
    assert Ledgers(logs)[..|Ledgers(logs)| - 1] == Ledgers(logs[..|logs| - 1]);
  }

  lemma {:induction false} LastLogMeetsExpectation(db: Db, e: Expectation, last: seq<Op>)
    requires WellFormed(e) && SelfMade(last) && Run(Some(db), last).Some?
    requires db.rows == LedgerRows(e.owner, e.superseded) && db.edges == multiset(e.edges)
    ensures var after, e' := Run(Some(db), last).value, Join(e, LedgerOf(last));
            && WellFormed(e')
            && after.rows == LedgerRows(e'.owner, e'.superseded)
            && after.edges == multiset(e'.edges)
  {
    var l := LedgerOf(last);
    LedgerPredicts(db, last);
    assert db.rows.Keys == e.owner.Keys;
    ExpectationGrows(e, l, CreatedBy(last));
    assert multiset(e.edges + l.edges) == multiset(e.edges) + multiset(l.edges);
  }

  lemma {:induction false} ExpectationGrows(e: Expectation, l: Ledger, made: set<Key>)
    requires WellFormed(e) && Coherent(l, made) && made !! e.owner.Keys
    ensures LedgerRows(e.owner + l.owner, e.superseded + l.superseded)
            == LedgerRows(e.owner, e.superseded) + LedgerRows(l.owner, l.superseded)
    ensures forall k :: k in e.superseded + l.superseded ==> k in (e.owner + l.owner)
    ensures e.acknowledged + (set k | k in l.acknowledged) == (e.owner + l.owner).Keys
  {
    RowsJoin(e.owner, e.superseded, l.owner, l.superseded);
  }

  lemma {:induction false} RowsJoin(a: map<Key, Stored>, gone: seq<Key>, b: map<Key, Stored>, more: seq<Key>)
    requires a.Keys !! b.Keys
    requires (forall k :: k in gone ==> k in a) && (forall k :: k in more ==> k in b)
    ensures LedgerRows(a + b, gone + more) == LedgerRows(a, gone) + LedgerRows(b, more)
  {
    var joined, parts := LedgerRows(a + b, gone + more), LedgerRows(a, gone) + LedgerRows(b, more);
    assert joined.Keys == parts.Keys;
    forall k | k in joined
      ensures joined[k] == parts[k]
    {
      assert k in gone + more <==> k in gone || k in more;
    }
  }

  /** The ledgers of the writers, merged over slots, equal the final database after any
      commit order: rows, owner and body, live flags and the edge multiset. */
  lemma {:induction false} LedgersPredictDatabase(seeded: seq<int>, commits: seq<Commit>, logs: seq<seq<Op>>)
    requires Interleaves(commits, logs)
    requires forall s :: 0 <= s < |logs| ==> SelfMade(logs[s])
    requires Run(Some(Bootstrapped(seeded)), Ops(commits)).Some?
    ensures var after, e := Run(Some(Bootstrapped(seeded)), Ops(commits)).value, Expect(seeded, Ledgers(logs));
            && WellFormed(e)
            && after.rows == LedgerRows(e.owner, e.superseded)
            && after.edges == multiset(e.edges)
  {
    SlotOrderIsASerialisation(Bootstrapped(seeded), commits, logs);
    SerialRunMeetsExpectation(seeded, logs);
  }

  // ----- The criteria

  datatype StoredRow = StoredRow(key: Key, row: Row)

  /** What an oracle pass reads back: rows and edges in whatever order the scan returns them. */
  datatype Observation = Observation(rows: seq<StoredRow>, edges: seq<Edge>)

  function StoredKeys(rows: seq<StoredRow>): seq<Key> {
    if rows == [] then [] else StoredKeys(rows[..|rows| - 1]) + [rows[|rows| - 1].key]
  }

  function ObservedOwner(rows: seq<StoredRow>): map<Key, Stored> {
    if rows == [] then map[]
    else
      var last := rows[|rows| - 1];
      ObservedOwner(rows[..|rows| - 1])[last.key := Stored(last.row.owner, last.row.body)]
  }

  function ObservedSuperseded(rows: seq<StoredRow>): set<Key> {
    set r | r in rows && !r.row.live :: r.key
  }

  /** no_acknowledged_row_lost, no_phantom_row, no_duplicate_row, update_node_effect_stored,
      mark_superseded_effect_stored and create_edge_effect_stored. */
  predicate CriteriaPass(e: Expectation, o: Observation) {
    var storedList := StoredKeys(o.rows);
    var stored := set k | k in storedList;
    var superseded := set k | k in e.superseded;
    && e.acknowledged <= stored
    && stored <= e.acknowledged
    && |storedList| == |stored|
    && (forall k :: k in e.owner ==> k in ObservedOwner(o.rows) && ObservedOwner(o.rows)[k] == e.owner[k])
    && superseded == ObservedSuperseded(o.rows)
    && multiset(o.edges) == multiset(e.edges)
  }

  /** The scan lists each row of `rows` once, and the edges with their multiplicity. */
  ghost predicate Lists(o: Observation, rows: map<Key, Row>, edges: multiset<Edge>) {
    && NoDuplicates(StoredKeys(o.rows))
    && (forall k :: k in StoredKeys(o.rows) <==> k in rows)
    && (forall i :: 0 <= i < |o.rows| ==> o.rows[i].key in rows && rows[o.rows[i].key] == o.rows[i].row)
    && multiset(o.edges) == edges
  }

  lemma {:induction false} StoredKeysAt(rows: seq<StoredRow>)
    ensures |StoredKeys(rows)| == |rows|
    ensures forall i :: 0 <= i < |rows| ==> StoredKeys(rows)[i] == rows[i].key
    ensures ObservedOwner(rows).Keys == set k | k in StoredKeys(rows)
    decreases |rows|
  {
    if rows != [] {
      StoredKeysAt(rows[..|rows| - 1]);
    }
  }

  lemma {:induction false} ObservedOwnerAt(rows: seq<StoredRow>, i: nat)
    requires NoDuplicates(StoredKeys(rows)) && i < |rows|
    ensures rows[i].key in ObservedOwner(rows)
    ensures ObservedOwner(rows)[rows[i].key] == Stored(rows[i].row.owner, rows[i].row.body)
    decreases |rows|
  {
    var front := rows[..|rows| - 1];
    StoredKeysAt(rows);
    StoredKeysAt(front);
    if i < |front| {
      assert forall j :: 0 <= j < |front| ==> StoredKeys(front)[j] == StoredKeys(rows)[j];
      ObservedOwnerAt(front, i);
      assert StoredKeys(rows)[i] != StoredKeys(rows)[|rows| - 1];
    }
  }

  lemma {:induction false} CardinalityOfList<T>(xs: seq<T>)
    ensures |set x | x in xs| <= |xs|
    ensures |set x | x in xs| == |xs| <==> NoDuplicates(xs)
    decreases |xs|
  {
    if xs != [] {
      var front, last := xs[..|xs| - 1], xs[|xs| - 1];
      CardinalityOfList(front);
      var s := set x | x in front;
      assert (set x | x in xs) == s + {last};
      if last in front {
        assert (set x | x in xs) == s;
        var i :| 0 <= i < |front| && front[i] == last;
        assert xs[i] == xs[|xs| - 1];
      } else if NoDuplicates(front) {
        forall i, j | 0 <= i < j < |xs|
          ensures xs[i] != xs[j]
        {
          assert xs[i] == front[i];
        }
      }
    }
  }

  /** The six criteria pass exactly when the scan lists the expected database. */
  lemma {:induction false} CriteriaAreExact(e: Expectation, o: Observation)
    requires WellFormed(e)
    ensures CriteriaPass(e, o) <==> Lists(o, LedgerRows(e.owner, e.superseded), multiset(e.edges))
  {
    var list := StoredKeys(o.rows);
    StoredKeysAt(o.rows);
    CardinalityOfList(list);
    var rows := LedgerRows(e.owner, e.superseded);
    if CriteriaPass(e, o) {
      CriteriaSound(e, o);
    }
    if Lists(o, rows, multiset(e.edges)) {
      CriteriaComplete(e, o);
    }
  }

  lemma {:induction false} CriteriaSound(e: Expectation, o: Observation)
    requires WellFormed(e) && CriteriaPass(e, o)
    ensures Lists(o, LedgerRows(e.owner, e.superseded), multiset(e.edges))
  {
    var list := StoredKeys(o.rows);
    StoredKeysAt(o.rows);
    CardinalityOfList(list);
    var stored := set k | k in list;
    assert stored == e.owner.Keys;
    forall k
      ensures k in list <==> k in e.owner
    {
      assert k in list <==> k in stored;
    }
    forall i | 0 <= i < |o.rows|
      ensures o.rows[i].key in e.owner
      ensures LedgerRows(e.owner, e.superseded)[o.rows[i].key] == o.rows[i].row
    {
      assert list[i] == o.rows[i].key;
      ObservedOwnerAt(o.rows, i);
      LiveFlagAt(o.rows, i);
      assert o.rows[i].key in e.superseded <==> o.rows[i].key in (set x | x in e.superseded);
    }
  }

  lemma {:induction false} LiveFlagAt(rows: seq<StoredRow>, i: nat)
    requires NoDuplicates(StoredKeys(rows)) && i < |rows|
    ensures rows[i].key in ObservedSuperseded(rows) <==> !rows[i].row.live
  {
    var k := rows[i].key;
    StoredKeysAt(rows);
    if !rows[i].row.live {
      assert rows[i] in rows;
    }
    if k in ObservedSuperseded(rows) {
      var r :| r in rows && !r.row.live && r.key == k;
      var j :| 0 <= j < |rows| && rows[j] == r;
      assert StoredKeys(rows)[j] == StoredKeys(rows)[i];
    }
  }

  lemma {:induction false} CriteriaComplete(e: Expectation, o: Observation)
    requires WellFormed(e) && Lists(o, LedgerRows(e.owner, e.superseded), multiset(e.edges))
    ensures CriteriaPass(e, o)
  {
    var list := StoredKeys(o.rows);
    StoredKeysAt(o.rows);
    CardinalityOfList(list);
    assert (set k | k in list) == e.owner.Keys;
    forall k | k in e.owner
      ensures k in ObservedOwner(o.rows) && ObservedOwner(o.rows)[k] == e.owner[k]
    {
      var i :| 0 <= i < |list| && list[i] == k;
      ObservedOwnerAt(o.rows, i);
    }
    SupersededListed(e, o);
  }

  lemma {:induction false} SupersededListed(e: Expectation, o: Observation)
    requires WellFormed(e) && Lists(o, LedgerRows(e.owner, e.superseded), multiset(e.edges))
    ensures (set k | k in e.superseded) == ObservedSuperseded(o.rows)
  {
    var list := StoredKeys(o.rows);
    StoredKeysAt(o.rows);
    forall k | k in e.superseded
      ensures k in ObservedSuperseded(o.rows)
    {
      assert k in list;
      var i :| 0 <= i < |list| && list[i] == k;
      assert o.rows[i] in o.rows && !o.rows[i].row.live;
    }
  }

  /** After any commit order, a faithful scan passes every criterion; and the serial replay
      answers with the very same database, so the two scans agree on every answer. */
  lemma {:induction false} HonestRunPasses(seeded: seq<int>, commits: seq<Commit>, logs: seq<seq<Op>>, live: Observation)
    requires Interleaves(commits, logs)
    requires forall s :: 0 <= s < |logs| ==> SelfMade(logs[s])
    requires Run(Some(Bootstrapped(seeded)), Ops(commits)).Some?
    requires var after := Run(Some(Bootstrapped(seeded)), Ops(commits)).value; Lists(live, after.rows, after.edges)
    ensures CriteriaPass(Expect(seeded, Ledgers(logs)), live)
    ensures Run(Some(Bootstrapped(seeded)), SlotOrder(logs)) == Run(Some(Bootstrapped(seeded)), Ops(commits))
  {
    LedgersPredictDatabase(seeded, commits, logs);
    SlotOrderIsASerialisation(Bootstrapped(seeded), commits, logs);
    CriteriaAreExact(Expect(seeded, Ledgers(logs)), live);
  }

  // ----- The same, over the writers themselves

  ghost function Logs(writers: seq<Writer>): (r: seq<seq<Op>>)
    reads writers
    ensures |r| == |writers| && forall s :: 0 <= s < |r| ==> r[s] == writers[s].operations
  {
    if writers == [] then [] else Logs(writers[..|writers| - 1]) + [writers[|writers| - 1].operations]
  }

  ghost function Reports(writers: seq<Writer>): (r: seq<Ledger>)
    reads writers
    ensures |r| == |writers| && forall s :: 0 <= s < |r| ==> r[s] == writers[s].Expects()
  {
    if writers == [] then [] else Reports(writers[..|writers| - 1]) + [writers[|writers| - 1].Expects()]
  }

  ghost function Slots(writers: seq<Writer>): (r: seq<nat>)
    ensures |r| == |writers| && forall s :: 0 <= s < |r| ==> r[s] == writers[s].slot
  {
    if writers == [] then [] else Slots(writers[..|writers| - 1]) + [writers[|writers| - 1].slot]
  }

  ghost predicate AllValid(writers: seq<Writer>)
    reads writers
  {
    forall s :: 0 <= s < |writers| ==> writers[s].Valid()
  }

  lemma {:induction false} LedgersAt(logs: seq<seq<Op>>)
    ensures |Ledgers(logs)| == |logs| && forall s :: 0 <= s < |logs| ==> Ledgers(logs)[s] == LedgerOf(logs[s])
    decreases |logs|
  {
    if logs != [] { LedgersAt(logs[..|logs| - 1]); }
  }

  lemma {:induction false} ValidLogs(writers: seq<Writer>)
    requires AllValid(writers)
    ensures forall s :: 0 <= s < |writers| ==> SelfMade(Logs(writers)[s])
    ensures Ledgers(Logs(writers)) == Reports(writers)
  {
    LedgersAt(Logs(writers));
    forall s | 0 <= s < |writers|
      ensures SelfMade(Logs(writers)[s]) && LedgerOf(Logs(writers)[s]) == Reports(writers)[s]
    {
      var w := writers[s];
      var bound := w.index * w.rowsPerTxn;
      assert w.Valid();
      assert Keeps(TouchesOwnRows, w.slot, w.nodeTable, bound, w.operations, w.Expects(), w.madeNodes);
      assert Keeps(Restates, w.slot, w.nodeTable, bound, w.operations, w.Expects(), w.madeNodes);
    }
  }

  /** Whatever rounds the writers went through: after any commit order of their logs the database
      is exactly the merge of the ledgers they report, and the replay in slot order agrees. */
  lemma {:induction false} WritersPredictDatabase(writers: seq<Writer>, seeded: seq<int>, commits: seq<Commit>)
    requires AllValid(writers) && Interleaves(commits, Logs(writers))
    requires Run(Some(Bootstrapped(seeded)), Ops(commits)).Some?
    ensures var after, e := Run(Some(Bootstrapped(seeded)), Ops(commits)).value, Expect(seeded, Reports(writers));
            && WellFormed(e)
            && after.rows == LedgerRows(e.owner, e.superseded)
            && after.edges == multiset(e.edges)
            && Run(Some(Bootstrapped(seeded)), SlotOrder(Logs(writers))) == Some(after)
  {
    ValidLogs(writers);
    LedgersPredictDatabase(seeded, commits, Logs(writers));
    SlotOrderIsASerialisation(Bootstrapped(seeded), commits, Logs(writers));
  }

  /** Writers of increasing slots that counted no further than their million replay in slot order
      from any database, refusals included. */
  lemma {:induction false} WritersReplay(writers: seq<Writer>, db: Db, commits: seq<Commit>)
    requires AllValid(writers) && Interleaves(commits, Logs(writers)) && Ascending(Slots(writers))
    requires forall s :: 0 <= s < |writers| ==> writers[s].index * writers[s].rowsPerTxn <= KEYS_PER_SLOT
    ensures Run(Some(db), SlotOrder(Logs(writers))) == Run(Some(db), Ops(commits))
  {
    var logs, slots := Logs(writers), Slots(writers);
    forall s, i | 0 <= s < |logs| && 0 <= i < |logs[s]|
      ensures InSlotRange(slots[s], logs[s][i])
    {
      var w := writers[s];
      assert w.Valid();
      SoundStaysInRange(w.slot, w.nodeTable, w.index * w.rowsPerTxn, w.operations, w.Expects(), w.madeNodes, i);
    }
    RangedWritersReplay(db, commits, logs, slots);
  }
}
