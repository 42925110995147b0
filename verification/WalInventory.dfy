/** The WAL-inventory fold of the reader-pin instrument: commanded checkpoints report the
    segments before and after, and the fold classifies every removal against a snapshot LSN.
 */
module WalInventory {
  import opened Basics

  /** A segment as an inventory lists it. */
  datatype Segment = Segment(name: string, first: int, last: int)

  datatype Mark = Mark(before: seq<Segment>, after: seq<Segment>, beforeAt: int, afterAt: int)

  datatype Removal = Removal(name: string, last: int, beforeAt: int, afterAt: int)

  datatype Facts = Facts(
    checkpoints: nat,
    protectedSeen: set<string>,
    preSRemoved: set<string>,
    protectedRemoved: seq<Removal>,
    lastInventory: seq<Segment>)

  function Names(segments: seq<Segment>): set<string> {
    set x | x in segments :: x.name
  }

  /** A name keeps its first place in the listing and takes its latest span. */
  function Put(spans: seq<Segment>, x: Segment): seq<Segment> {
    if spans == [] then [x]
    else if spans[0].name == x.name then [x] + spans[1..]
    else [spans[0]] + Put(spans[1..], x)
  }

  function Spans(rows: seq<Segment>): seq<Segment> {
    if rows == [] then [] else Put(Spans(rows[..|rows| - 1]), rows[|rows| - 1])
  }

  /** Two inventories that follow each other, and the checkpoint that reported the second. */
  datatype Change = Change(older: seq<Segment>, newer: seq<Segment>, mark: Mark)

  function Seen(c: Change, snapshot: int): set<string> {
    set x | x in c.older && x.last >= snapshot :: x.name
  }

  function RemovedBelow(c: Change, snapshot: int): set<string> {
    set x | x in c.older && x.name !in Names(c.newer) && x.last < snapshot :: x.name
  }

  function LostFrom(older: seq<Segment>, newer: seq<Segment>, mark: Mark, snapshot: int): seq<Removal> {
    if older == [] then []
    else
      var rest := LostFrom(older[..|older| - 1], newer, mark, snapshot);
      var x := older[|older| - 1];
      if x.name !in Names(newer) && x.last >= snapshot
      then rest + [Removal(x.name, x.last, mark.beforeAt, mark.afterAt)] else rest
  }

  function Lost(c: Change, snapshot: int): seq<Removal> {
    LostFrom(c.older, c.newer, c.mark, snapshot)
  }

  /** What a run of comparisons has found so far. */
  datatype Tally = Tally(seen: set<string>, below: set<string>, lost: seq<Removal>)

  function Plus(a: Tally, b: Tally): Tally {
    Tally(a.seen + b.seen, a.below + b.below, a.lost + b.lost)
  }

  function Classified(c: Change, snapshot: int): Tally {
    Tally(Seen(c, snapshot), RemovedBelow(c, snapshot), Lost(c, snapshot))
  }

  const NOTHING := Tally({}, {}, [])

  function Fold(changes: seq<Change>, snapshot: int): Tally {
    if changes == [] then NOTHING else Plus(Classified(changes[0], snapshot), Fold(changes[1..], snapshot))
  }

  /** The comparisons one mark adds: carry to before, then before to after. */
  function MarkChanges(previous: Option<seq<Segment>>, m: Mark): seq<Change> {
    var step := Change(Spans(m.before), Spans(m.after), m);
    if previous.Some? then [Change(previous.value, Spans(m.before), m), step] else [step]
  }

  function Changes(previous: Option<seq<Segment>>, marks: seq<Mark>): seq<Change>
    decreases |marks|
  {
    if marks == [] then []
    else MarkChanges(previous, marks[0]) + Changes(Some(Spans(marks[0].after)), marks[1..])
  }

  /** The carry joins the comparison only when it lists something. */
  function Previous(carry: seq<Segment>): Option<seq<Segment>> {
    if carry == [] then None else Some(Spans(carry))
  }

  function LastInventory(marks: seq<Mark>, carry: seq<Segment>): seq<Segment> {
    if marks == [] then carry else marks[|marks| - 1].after
  }

  function Found(previous: Option<seq<Segment>>, marks: seq<Mark>, snapshot: int): Tally {
    Fold(Changes(previous, marks), snapshot)
  }

  function Analysis(marks: seq<Mark>, snapshot: int, carry: seq<Segment>): Facts {
    var found := Found(Previous(carry), marks, snapshot);
    Facts(|marks|, found.seen, found.below, found.lost, LastInventory(marks, carry))
  }

  /** One inner loop of the fold: every segment of the older inventory is classified. */
  method Classify(c: Change, snapshot: int, tally: Tally) returns (tally': Tally)
    ensures tally' == Plus(tally, Classified(c, snapshot))
  {
    var seen, below, lost := tally.seen, tally.below, tally.lost;
    for i := 0 to |c.older|
      invariant seen == tally.seen + Seen(c.(older := c.older[..i]), snapshot)
      invariant below == tally.below + RemovedBelow(c.(older := c.older[..i]), snapshot)
      invariant lost == tally.lost + LostFrom(c.older[..i], c.newer, c.mark, snapshot)
    {
      var x := c.older[i];
      ghost var grown := c.older[..i + 1];
      assert grown == c.older[..i] + [x];
      assert grown[..|grown| - 1] == c.older[..i];
      if x.last >= snapshot {
        seen := seen + {x.name};
      }
      if x.name !in Names(c.newer) {
        if x.last < snapshot {
          below := below + {x.name};
        } else {
          lost := lost + [Removal(x.name, x.last, c.mark.beforeAt, c.mark.afterAt)];
        }
      }
    }
    assert c.older[..|c.older|] == c.older;
    assert c.(older := c.older[..|c.older|]) == c;
    tally' := Tally(seen, below, lost);
  }

  /** One pass of the outer loop. */
  method Compare(previous: Option<seq<Segment>>, m: Mark, snapshot: int, tally: Tally) returns (tally': Tally)
    ensures tally' == Plus(tally, Fold(MarkChanges(previous, m), snapshot))
  {
    tally' := tally;
    ghost var step := Change(Spans(m.before), Spans(m.after), m);
    FoldOne(step, snapshot);
    if previous.Some? {
      var first := Change(previous.value, Spans(m.before), m);
      assert MarkChanges(previous, m) == [first] + [step];
      FoldCons(first, [step], snapshot);
      PlusAssoc(tally, Classified(first, snapshot), Classified(step, snapshot));
      tally' := Classify(first, snapshot, tally');
    }
    tally' := Classify(Change(Spans(m.before), Spans(m.after), m), snapshot, tally');
  }

  /** `analyse`: the fold over the marks, carrying the previous inventory along. */
  method Analyse(marks: seq<Mark>, snapshot: int, carry: seq<Segment>) returns (facts: Facts)
    ensures facts == Analysis(marks, snapshot, carry)
  {
    var tally := NOTHING;
    var previous := Previous(carry);
    ghost var all := Fold(Changes(previous, marks), snapshot);
    PlusNothing(all);
    for i := 0 to |marks|
      invariant Plus(tally, Fold(Changes(previous, marks[i..]), snapshot)) == all
    {
      ghost var rest := Changes(Some(Spans(marks[i].after)), marks[i + 1..]);
      assert marks[i..][1..] == marks[i + 1..];
      assert Changes(previous, marks[i..]) == MarkChanges(previous, marks[i]) + rest;
      FoldAppend(MarkChanges(previous, marks[i]), rest, snapshot);
      PlusAssoc(tally, Fold(MarkChanges(previous, marks[i]), snapshot), Fold(rest, snapshot));
      tally := Compare(previous, marks[i], snapshot, tally);
      previous := Some(Spans(marks[i].after));
    }
    PlusNothing(tally);
    facts := Facts(|marks|, tally.seen, tally.below, tally.lost,
                   if marks != [] then marks[|marks| - 1].after else carry);
  }

  lemma {:induction false} PlusAssoc(a: Tally, b: Tally, c: Tally)
    ensures Plus(Plus(a, b), c) == Plus(a, Plus(b, c))
  {
  }

  lemma {:induction false} PlusNothing(a: Tally)
    ensures Plus(NOTHING, a) == a && Plus(a, NOTHING) == a
  {
  }

  lemma {:induction false} FoldCons(c: Change, rest: seq<Change>, snapshot: int)
    ensures Fold([c] + rest, snapshot) == Plus(Classified(c, snapshot), Fold(rest, snapshot))
  {
    assert ([c] + rest)[1..] == rest;
  }

  lemma {:induction false} FoldOne(c: Change, snapshot: int)
    ensures Fold([c], snapshot) == Classified(c, snapshot)
  {
    assert [c] == [c] + [];
    FoldCons(c, [], snapshot);
    PlusNothing(Classified(c, snapshot));
  }

  lemma {:induction false} FoldAppend(a: seq<Change>, b: seq<Change>, snapshot: int)
    ensures Fold(a + b, snapshot) == Plus(Fold(a, snapshot), Fold(b, snapshot))
    decreases |a|
  {
    if a == [] {
      assert a + b == b;
      PlusNothing(Fold(b, snapshot));
    } else {
      FoldAppend(a[1..], b, snapshot);
      assert a + b == [a[0]] + (a[1..] + b);
      FoldCons(a[0], a[1..] + b, snapshot);
      PlusAssoc(Classified(a[0], snapshot), Fold(a[1..], snapshot), Fold(b, snapshot));
    }
  }

  /** The inventory in force after some marks. */
  function After(previous: Option<seq<Segment>>, marks: seq<Mark>): Option<seq<Segment>> {
    if marks == [] then previous else Some(Spans(marks[|marks| - 1].after))
  }

  lemma {:induction false} AfterTail(previous: Option<seq<Segment>>, marks: seq<Mark>)
    requires marks != []
    ensures After(Some(Spans(marks[0].after)), marks[1..]) == After(previous, marks)
  {
  }

  lemma {:induction false} Regroup<T>(a: seq<T>, b: seq<T>, c: seq<T>)
    ensures a + b + c == a + (b + c)
  {
  }

  lemma {:induction false} ChangesAppend(previous: Option<seq<Segment>>, a: seq<Mark>, b: seq<Mark>)
    ensures Changes(previous, a + b) == Changes(previous, a) + Changes(After(previous, a), b)
    decreases |a|
  {
    if a == [] {
      assert a + b == b;
    } else {
      var after := Some(Spans(a[0].after));
      assert (a + b)[0] == a[0] && (a + b)[1..] == a[1..] + b;
      ChangesAppend(after, a[1..], b);
      AfterTail(previous, a);
      Regroup(MarkChanges(previous, a[0]), Changes(after, a[1..]), Changes(After(previous, a), b));
    }
  }

  /** An empty inventory compares like no inventory at all. */
  lemma {:induction false} EmptyCarryIsNone(marks: seq<Mark>, snapshot: int)
    ensures Fold(Changes(Some([]), marks), snapshot) == Fold(Changes(None, marks), snapshot)
  {
    if marks != [] {
      var m := marks[0];
      var first := Change([], Spans(m.before), m);
      assert Changes(Some([]), marks) == [first] + Changes(None, marks);
      FoldCons(first, Changes(None, marks), snapshot);
      assert Classified(first, snapshot) == NOTHING;
      PlusNothing(Fold(Changes(None, marks), snapshot));
    }
  }

  function Combine(a: Facts, b: Facts): Facts {
    Facts(a.checkpoints + b.checkpoints, a.protectedSeen + b.protectedSeen, a.preSRemoved + b.preSRemoved,
          a.protectedRemoved + b.protectedRemoved, b.lastInventory)
  }

  /** The inventory in force is handed on by its rows, or not at all when it has none. */
  lemma {:induction false} HandedOver(a: seq<Mark>, b: seq<Mark>, snapshot: int, carry: seq<Segment>)
    ensures Found(Previous(LastInventory(a, carry)), b, snapshot) == Found(After(Previous(carry), a), b, snapshot)
  {
    var handed := LastInventory(a, carry);
    if handed == [] && a != [] {
      assert After(Previous(carry), a) == Some([]);
      EmptyCarryIsNone(b, snapshot);
    } else {
      assert Previous(handed) == After(Previous(carry), a);
    }
  }

  lemma {:induction false} FoldedInPhases(a: seq<Mark>, b: seq<Mark>, snapshot: int, previous: Option<seq<Segment>>)
    ensures Found(previous, a + b, snapshot)
         == Plus(Found(previous, a, snapshot), Found(After(previous, a), b, snapshot))
  {
    ChangesAppend(previous, a, b);
    FoldAppend(Changes(previous, a), Changes(After(previous, a), b), snapshot);
  }

  /** Splitting the marks into phases, each carried from the last inventory of the one before,
      loses nothing: no removal hides at a phase boundary. */
  lemma {:induction false} PhasesCompose(a: seq<Mark>, b: seq<Mark>, snapshot: int, carry: seq<Segment>)
    ensures var first := Analysis(a, snapshot, carry);
            Analysis(a + b, snapshot, carry) == Combine(first, Analysis(b, snapshot, first.lastInventory))
  {
    FoldedInPhases(a, b, snapshot, Previous(carry));
    HandedOver(a, b, snapshot, carry);
    LastOfPhases(a, b, carry);
  }

  lemma {:induction false} LastOfPhases(a: seq<Mark>, b: seq<Mark>, carry: seq<Segment>)
    ensures LastInventory(a + b, carry) == LastInventory(b, LastInventory(a, carry))
  {
    if b == [] {
      assert a + b == a;
    }
  }

  // ----- Retention

  ghost predicate Grows(older: seq<Segment>, newer: seq<Segment>) {
    forall x, y :: x in older && y in newer && x.name == y.name ==> x.last <= y.last
  }

  /** A segment's last LSN never decreases from one compared inventory to the next. */
  ghost predicate NeverDecreases(changes: seq<Change>) {
    forall i :: 0 <= i < |changes| ==> Grows(changes[i].older, changes[i].newer)
  }

  /** `name` is still listed and still needed by the snapshot. */
  ghost predicate Kept(name: string, inventory: seq<Segment>, snapshot: int) {
    exists x :: x in inventory && x.name == name && x.last >= snapshot
  }

  lemma {:induction false} NothingLost(older: seq<Segment>, newer: seq<Segment>, mark: Mark, snapshot: int)
    requires LostFrom(older, newer, mark, snapshot) == []
    ensures forall x :: x in older && x.last >= snapshot ==> x.name in Names(newer)
    decreases |older|
  {
    if older != [] {
      var front := older[..|older| - 1];
      NothingLost(front, newer, mark, snapshot);
      assert older == front + [older[|older| - 1]];
    }
  }

  lemma {:induction false} KeptAcross(c: Change, snapshot: int, name: string)
    requires Lost(c, snapshot) == [] && Grows(c.older, c.newer) && Kept(name, c.older, snapshot)
    ensures Kept(name, c.newer, snapshot)
  {
    NothingLost(c.older, c.newer, c.mark, snapshot);
    var x :| x in c.older && x.name == name && x.last >= snapshot;
    var y :| y in c.newer && y.name == name;
  }

  /** Each compared inventory is the one the next comparison starts from. */
  ghost predicate Linked(changes: seq<Change>) {
    forall i :: 0 <= i < |changes| - 1 ==> changes[i].newer == changes[i + 1].older
  }

  lemma {:induction false} ChangesLinked(previous: Option<seq<Segment>>, marks: seq<Mark>)
    ensures Linked(Changes(previous, marks))
    ensures marks != [] ==> Changes(previous, marks) != []
    ensures marks != [] && previous.Some? ==> Changes(previous, marks)[0].older == previous.value
    ensures marks != [] ==> Changes(previous, marks)[|Changes(previous, marks)| - 1].newer == Spans(marks[|marks| - 1].after)
    decreases |marks|
  {
    if marks != [] {
      ChangesLinked(Some(Spans(marks[0].after)), marks[1..]);
    }
  }

  lemma {:induction false} SeenIsKept(changes: seq<Change>, snapshot: int, kept: set<string>)
    requires changes != [] && Linked(changes) && NeverDecreases(changes) && Fold(changes, snapshot).lost == []
    requires forall name :: name in kept ==> Kept(name, changes[0].older, snapshot)
    ensures forall name :: name in kept || name in Fold(changes, snapshot).seen ==> Kept(name, changes[|changes| - 1].newer, snapshot)
    decreases |changes|
  {
    var c, rest := changes[0], changes[1..];
    assert changes == [c] + rest;
    FoldCons(c, rest, snapshot);
    var now := kept + Seen(c, snapshot);
    forall name | name in now
      ensures Kept(name, c.newer, snapshot)
    {
      KeptAcross(c, snapshot, name);
    }
    if rest != [] {
      SeenIsKept(rest, snapshot, now);
    }
  }

  lemma {:induction false} PutKeepsRows(spans: seq<Segment>, x: Segment)
    ensures forall y :: y in Put(spans, x) ==> y == x || y in spans
    decreases |spans|
  {
    if spans != [] && spans[0].name != x.name {
      PutKeepsRows(spans[1..], x);
    }
  }

  lemma {:induction false} SpansAreRows(rows: seq<Segment>)
    ensures forall y :: y in Spans(rows) ==> y in rows
    decreases |rows|
  {
    if rows != [] {
      SpansAreRows(rows[..|rows| - 1]);
      PutKeepsRows(Spans(rows[..|rows| - 1]), rows[|rows| - 1]);
    }
  }

  /** If last LSNs never decrease and the fold reports no protected removal, then every
      segment it ever saw protected is still in the last inventory, still protected. */
  lemma {:induction false} ProtectedSegmentsSurvive(marks: seq<Mark>, snapshot: int, carry: seq<Segment>)
    requires NeverDecreases(Changes(Previous(carry), marks))
    requires Analysis(marks, snapshot, carry).protectedRemoved == []
    ensures var facts := Analysis(marks, snapshot, carry);
            forall name :: name in facts.protectedSeen ==> Kept(name, facts.lastInventory, snapshot)
  {
    if marks != [] {
      var changes := Changes(Previous(carry), marks);
      ChangesLinked(Previous(carry), marks);
      SeenIsKept(changes, snapshot, {});
      var last := marks[|marks| - 1].after;
      SpansAreRows(last);
      forall name | name in Fold(changes, snapshot).seen
        ensures Kept(name, last, snapshot)
      {
        assert Kept(name, Spans(last), snapshot);
      }
    }
  }

  /** A segment whose last LSN shrinks below the snapshot can vanish unreported. */
  lemma {:induction false} ShrinkingLsnHidesARemoval()
    ensures var a := [Segment("a", 1, 10)];
            var shrunk := [Segment("a", 1, 3)];
            var facts := Analysis([Mark(a, shrunk, 0, 1), Mark(shrunk, [], 2, 3)], 5, []);
            facts.protectedRemoved == [] && "a" in facts.protectedSeen && facts.lastInventory == []
  {
    var a := [Segment("a", 1, 10)];
    var shrunk := [Segment("a", 1, 3)];
    var m, n := Mark(a, shrunk, 0, 1), Mark(shrunk, [], 2, 3);
    var marks := [m, n];
    assert Spans(a) == a by { assert a[..0] == []; }
    assert Spans(shrunk) == shrunk by { assert shrunk[..0] == []; }
    var c1, c2, c3 := Change(a, shrunk, m), Change(shrunk, shrunk, n), Change(shrunk, [], n);
    assert marks[1..] == [n] && [n][1..] == [];
    assert Changes(Some(shrunk), [n]) == [c2, c3];
    assert Changes(None, marks) == [c1] + [c2, c3];
    FoldCons(c1, [c2, c3], 5);
    assert [c2, c3] == [c2] + [c3];
    FoldCons(c2, [c3], 5);
    FoldOne(c3, 5);
    assert a[..0] == [] && shrunk[..0] == [];
    assert shrunk[0].name in Names(shrunk) && a[0].name in Names(shrunk);
    assert a[0] in a && "a" in Seen(c1, 5);
    assert Lost(c1, 5) == [] && Lost(c2, 5) == [] && Lost(c3, 5) == [];
  }
}
