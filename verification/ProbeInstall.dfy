/** Installing and uninstalling the section phase probe: methods of product classes are
    replaced by measuring wrappers and put back in reverse order.
 */
module ProbeInstall {
  import opened Basics

  datatype Attribute = Attribute(owner: string, name: string)
  datatype Impl = Original(id: nat) | Measured(original: Impl)

  /** The attributes each class holds itself, and the order in which a lookup on a class
      visits it and its bases. */
  type Table = map<Attribute, Impl>
  type Resolution = map<string, seq<string>>

  /** `getattr` on a class: the first class of its resolution order that holds the name. */
  function Lookup(table: Table, classes: seq<string>, name: string): Option<Impl> {
    if classes == [] then None
    else if Attribute(classes[0], name) in table then Some(table[Attribute(classes[0], name)])
    else Lookup(table, classes[1..], name)
  }

  function Get(table: Table, order: Resolution, a: Attribute): Option<Impl> {
    if a.owner in order then Lookup(table, order[a.owner], a.name) else None
  }

  /** A class comes first in its own resolution order. */
  ghost predicate OwnFirst(order: Resolution) {
    forall c :: c in order ==> order[c] != [] && order[c][0] == c
  }

  datatype Saved = Saved(attribute: Attribute, original: Impl)
  datatype Setup = Setup(table: Table, restore: seq<Saved>)

  /** The tables after the first n targets, or None if one of them could not be resolved. */
  function After(table: Table, order: Resolution, targets: seq<Attribute>, n: nat): Option<Setup>
    requires n <= |targets|
  {
    if n == 0 then Some(Setup(table, []))
    else
      var s := After(table, order, targets, n - 1);
      if s.None? then None
      else
        var found := Get(s.value.table, order, targets[n - 1]);
        if found.None? then None
        else Some(Setup(s.value.table[targets[n - 1] := Measured(found.value)],
                        s.value.restore + [Saved(targets[n - 1], found.value)]))
  }

  /** Target `n` is the first whose module fails to import or that cannot be resolved. */
  ghost predicate FailsAt(table: Table, order: Resolution, targets: seq<Attribute>, broken: nat -> bool, n: nat) {
    && n < |targets| && After(table, order, targets, n).Some? && (forall m: nat :: m < n ==> !broken(m))
    && (broken(n) || Get(After(table, order, targets, n).value.table, order, targets[n]).None?)
  }

  /** Putting saved originals back, last one first. */
  function Undo(table: Table, restore: seq<Saved>): Table
    decreases |restore|
  {
    if restore == [] then table
    else
      var last := restore[|restore| - 1];
      Undo(table[last.attribute := last.original], restore[..|restore| - 1])
  }

  class Probe {
    var table: Table
    var restore: seq<Saved>

    constructor (table: Table)
      ensures this.table == table && restore == []
    {
      this.table, restore := table, [];
    }

    /** `uninstall`: undoes every saved replacement, newest first, and forgets them. */
    method Uninstall()
      modifies this
      ensures table == Undo(old(table), old(restore)) && restore == []
    {
      var i := |restore|;
      assert restore[..i] == restore;
      while i > 0
        invariant 0 <= i <= |restore| && restore == old(restore)
        invariant Undo(table, restore[..i]) == Undo(old(table), old(restore))
      {
        i := i - 1;
        assert restore[..i + 1][..i] == restore[..i];
        table := table[restore[i].attribute := restore[i].original];
      }
      restore := [];
    }

    /** `install`: refuses a second installation; a target that cannot be resolved, or whose
        module fails to import (`broken`), undoes everything installed so far. It fails exactly
        when there is such a target, at the first one. */
    method Install(order: Resolution, targets: seq<Attribute>, broken: nat -> bool) returns (ok: bool)
      requires OwnFirst(order)
      modifies this
      ensures old(restore) != [] ==> !ok && table == old(table) && restore == old(restore)
      ensures old(restore) == [] && ok ==> After(old(table), order, targets, |targets|) == Some(Setup(table, restore))
      ensures old(restore) == [] ==> (ok <==> forall n: nat :: !FailsAt(old(table), order, targets, broken, n))
      ensures old(restore) == [] && !ok ==>
                && restore == []
                && exists n: nat :: FailsAt(old(table), order, targets, broken, n)
                       && table == Undo(After(old(table), order, targets, n).value.table,
                                        After(old(table), order, targets, n).value.restore)
    {
      if restore != [] {
        return false;
      }
      for n := 0 to |targets|
        invariant After(old(table), order, targets, n) == Some(Setup(table, restore))
        invariant forall m: nat :: m < n ==> !broken(m) && !FailsAt(old(table), order, targets, broken, m)
      {
        var found := Get(table, order, targets[n]);
        if broken(n) || found.None? {
          assert FailsAt(old(table), order, targets, broken, n);
          Uninstall();
          return false;
        }
        restore := restore + [Saved(targets[n], found.value)];
        table := table[targets[n] := Measured(found.value)];
      }
      ok := true;
    }
  }

  /** Every class a base inherits from, a class inherits from too. */
  ghost predicate BasesInherited(order: Resolution) {
    forall c, b :: c in order && b in order[c] ==> b in order && forall x :: x in order[b] ==> x in order[c]
  }

  lemma {:induction false} LookupFindsIff(table: Table, classes: seq<string>, name: string)
    ensures Lookup(table, classes, name).Some? <==> exists c :: c in classes && Attribute(c, name) in table
    decreases |classes|
  {
    if classes != [] {
      LookupFindsIff(table, classes[1..], name);
      assert forall c :: c in classes <==> c == classes[0] || c in classes[1..];
    }
  }

  /** Patching a target that resolves makes nothing else resolve, and nothing stop resolving. */
  lemma {:induction false} PatchResolvesSame(table: Table, order: Resolution, target: Attribute, impl: Impl, a: Attribute)
    requires BasesInherited(order) && Get(table, order, target).Some?
    ensures Get(table[target := impl], order, a).Some? <==> Get(table, order, a).Some?
  {
    if a.owner in order {
      LookupFindsIff(table, order[a.owner], a.name);
      LookupFindsIff(table[target := impl], order[a.owner], a.name);
      LookupFindsIff(table, order[target.owner], target.name);
      if Get(table[target := impl], order, a).Some? {
        var c :| c in order[a.owner] && Attribute(c, a.name) in table[target := impl];
        if Attribute(c, a.name) == target {
          var base :| base in order[c] && Attribute(base, a.name) in table;
          assert base in order[a.owner];
        }
      }
    }
  }

  lemma {:induction false} ResolvesThroughout(table: Table, order: Resolution, targets: seq<Attribute>, n: nat, a: Attribute)
    requires BasesInherited(order) && n <= |targets| && After(table, order, targets, n).Some?
    ensures Get(After(table, order, targets, n).value.table, order, a).Some? <==> Get(table, order, a).Some?
    decreases n
  {
    if n > 0 {
      ResolvesThroughout(table, order, targets, n - 1, a);
      var before := After(table, order, targets, n - 1).value.table;
      PatchResolvesSame(before, order, targets[n - 1], Measured(Get(before, order, targets[n - 1]).value), a);
    }
  }

  /** Whether and where an installation fails can be told before it starts: at the first target
      that is broken or does not resolve in the table as it is. */
  lemma {:induction false} FailureIsForeseeable(table: Table, order: Resolution, targets: seq<Attribute>,
                                                broken: nat -> bool, n: nat)
    requires BasesInherited(order)
    ensures FailsAt(table, order, targets, broken, n)
       <==> && n < |targets| && (broken(n) || Get(table, order, targets[n]).None?)
            && forall m: nat :: m < n ==> !broken(m) && Get(table, order, targets[m]).Some?
  {
    if n < |targets| {
      AfterIff(table, order, targets, n);
      if After(table, order, targets, n).Some? {
        ResolvesThroughout(table, order, targets, n, targets[n]);
      }
    }
  }

  lemma {:induction false} AfterIff(table: Table, order: Resolution, targets: seq<Attribute>, n: nat)
    requires BasesInherited(order) && n <= |targets|
    ensures After(table, order, targets, n).Some? <==> forall m: nat :: m < n ==> Get(table, order, targets[m]).Some?
    decreases n
  {
    if n > 0 {
      AfterIff(table, order, targets, n - 1);
      if After(table, order, targets, n - 1).Some? {
        ResolvesThroughout(table, order, targets, n - 1, targets[n - 1]);
      }
    }
  }

  lemma {:induction false} TargetsStayHeld(table: Table, order: Resolution, targets: seq<Attribute>, n: nat)
    requires n <= |targets| && After(table, order, targets, n).Some?
    ensures var s := After(table, order, targets, n).value;
            table.Keys <= s.table.Keys && forall i :: 0 <= i < n ==> targets[i] in s.table
    decreases n
  {
    if n > 0 {
      TargetsStayHeld(table, order, targets, n - 1);
    }
  }

  lemma {:induction false} UndoKeepsKeys(table: Table, restore: seq<Saved>)
    ensures table.Keys <= Undo(table, restore).Keys
    decreases |restore|
  {
    if restore != [] {
      var last := restore[|restore| - 1];
      UndoKeepsKeys(table[last.attribute := last.original], restore[..|restore| - 1]);
    }
  }

  /** If every target is the class's own attribute, undoing restores the table exactly,
      repeated targets and any failing prefix included. */
  lemma {:induction false} OwnTargetsAreRestored(table: Table, order: Resolution, targets: seq<Attribute>, n: nat)
    requires OwnFirst(order) && n <= |targets| && After(table, order, targets, n).Some?
    requires forall i :: 0 <= i < n ==> targets[i] in table
    ensures var s := After(table, order, targets, n).value; Undo(s.table, s.restore) == table
    decreases n
  {
    if n > 0 {
      OwnTargetsAreRestored(table, order, targets, n - 1);
      TargetsStayHeld(table, order, targets, n - 1);
      var before, s := After(table, order, targets, n - 1).value, After(table, order, targets, n).value;
      var target := targets[n - 1];
      var found := Get(before.table, order, target);
      assert Attribute(target.owner, target.name) == target;
      assert found.value == before.table[target];
      assert s.restore[..|s.restore| - 1] == before.restore;
      assert s.table[target := found.value] == before.table;
    }
  }

  /** Uninstalling restores the method table to its state before the installation exactly
      when every target replaced was held by its class itself and not inherited. */
  lemma {:induction false} UninstallRestoresIff(table: Table, order: Resolution, targets: seq<Attribute>, n: nat)
    requires OwnFirst(order) && n <= |targets| && After(table, order, targets, n).Some?
    ensures var s := After(table, order, targets, n).value;
            Undo(s.table, s.restore) == table <==> forall i :: 0 <= i < n ==> targets[i] in table
  {
    var s := After(table, order, targets, n).value;
    if forall i :: 0 <= i < n ==> targets[i] in table {
      OwnTargetsAreRestored(table, order, targets, n);
    } else {
      TargetsStayHeld(table, order, targets, n);
      UndoKeepsKeys(s.table, s.restore);
      var i :| 0 <= i < n && targets[i] !in table;
      assert targets[i] in Undo(s.table, s.restore);
    }
  }

  /** Classes without bases, as all the probed ones are: a target that resolves is the class's
      own, so any installation, complete or cut short, is undone exactly. */
  lemma {:induction false} BaselessTargetsAreRestored(table: Table, order: Resolution, targets: seq<Attribute>, n: nat)
    requires (forall c :: c in order ==> order[c] == [c]) && n <= |targets| && After(table, order, targets, n).Some?
    ensures var s := After(table, order, targets, n).value; Undo(s.table, s.restore) == table
  {
    BaselessTargetsAreOwn(table, order, targets, n);
    OwnTargetsAreRestored(table, order, targets, n);
  }

  lemma {:induction false} BaselessTargetsAreOwn(table: Table, order: Resolution, targets: seq<Attribute>, n: nat)
    requires (forall c :: c in order ==> order[c] == [c]) && n <= |targets| && After(table, order, targets, n).Some?
    ensures forall i :: 0 <= i < n ==> targets[i] in table
    ensures After(table, order, targets, n).value.table.Keys == table.Keys
    decreases n
  {
    if n > 0 {
      BaselessTargetsAreOwn(table, order, targets, n - 1);
      var before, target := After(table, order, targets, n - 1).value, targets[n - 1];
      assert order[target.owner][1..] == [];
      assert Lookup(before.table, [], target.name) == None;
      assert Attribute(target.owner, target.name) == target;
    }
  }

  /** Not so for a list of targets with inheritance, which the instrument does not ship: with a
      base class and a subclass both targeted for an inherited method, even the resolved method
      would stay measured after uninstalling. */
  lemma {:induction false} InheritedMethodStaysMeasured()
    ensures var table: Table := map[Attribute("Base", "m") := Original(0)];
            var order: Resolution := map["Base" := ["Base"], "Sub" := ["Sub", "Base"]];
            var targets := [Attribute("Base", "m"), Attribute("Sub", "m")];
            var s := After(table, order, targets, 2);
            && OwnFirst(order) && s.Some?
            && Get(table, order, Attribute("Sub", "m")) == Some(Original(0))
            && Get(Undo(s.value.table, s.value.restore), order, Attribute("Sub", "m")) == Some(Measured(Original(0)))
  {
    var base, sub := Attribute("Base", "m"), Attribute("Sub", "m");
    var table: Table := map[base := Original(0)];
    var order: Resolution := map["Base" := ["Base"], "Sub" := ["Sub", "Base"]];
    var targets := [base, sub];
    assert "Sub" != "Base";
    assert Lookup(table, ["Base"], "m") == Some(Original(0));
    assert ["Sub", "Base"][1..] == ["Base"];
    assert Lookup(table, ["Sub", "Base"], "m") == Lookup(table, ["Base"], "m");
    var one := table[base := Measured(Original(0))];
    assert After(table, order, targets, 0) == Some(Setup(table, []));
    assert targets[0] == base && targets[1] == sub;
    assert Get(table, order, base) == Some(Original(0));
    assert [] + [Saved(base, Original(0))] == [Saved(base, Original(0))];
    assert After(table, order, targets, 1) == Some(Setup(one, [Saved(base, Original(0))]));
    assert Lookup(one, ["Base"], "m") == Some(Measured(Original(0)));
    assert Lookup(one, ["Sub", "Base"], "m") == Lookup(one, ["Base"], "m");
    assert Get(one, order, sub) == Some(Measured(Original(0)));
    var two := one[sub := Measured(Measured(Original(0)))];
    var restore := [Saved(base, Original(0)), Saved(sub, Measured(Original(0)))];
    assert [Saved(base, Original(0))] + [Saved(sub, Measured(Original(0)))] == restore;
    assert After(table, order, targets, 2) == Some(Setup(two, restore));
    assert restore[..1] == [Saved(base, Original(0))] && restore[..1][..0] == [];
    var half := two[sub := Measured(Original(0))];
    assert Undo(two, restore) == Undo(half, restore[..1]);
    assert Undo(half, restore[..1]) == Undo(half[base := Original(0)], []);
  }
}
