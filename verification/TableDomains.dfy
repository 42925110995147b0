/** Fixture schema inference: the table-domain fixpoint of MATCH patterns and the endpoint
    pairs it keeps correlated for later writes.
 */
module TableDomains {
  import opened Basics
  datatype Direction = Outgoing | Incoming | Undirected

  type Pair = (string, string)

  datatype Node = Node(labels: seq<string>, variable: Option<string>)
  datatype Edge = Edge(types: seq<string>, direction: Direction, variable: Option<string>, ranged: bool)
  datatype Path = Path(nodes: seq<Node>, edges: seq<Edge>)

  ghost predicate WellFormed(path: Path) { |path.nodes| == |path.edges| + 1 }

  function Flip(pairs: set<Pair>): set<Pair> { set p | p in pairs :: (p.1, p.0) }

  /** Endpoint tables of every relationship type the pattern edge may match. */
  function Listed(edge: Edge, endpoints: map<string, set<Pair>>): set<Pair> {
    set name, p | name in endpoints && (edge.types == [] || name in edge.types) && p in endpoints[name] :: p
  }

  /** The table pairs an edge may connect, read from left to right. */
  function Connects(edge: Edge, endpoints: map<string, set<Pair>>): set<Pair> {
    match edge.direction
    case Outgoing => Listed(edge, endpoints)
    case Incoming => Flip(Listed(edge, endpoints))
    case Undirected => Listed(edge, endpoints) + Flip(Listed(edge, endpoints))
  }

  /** A self-loop variable leaves only pairs of equal tables. */
  function Candidates(path: Path, i: nat, endpoints: map<string, set<Pair>>): set<Pair>
    requires i < |path.edges| && i + 1 < |path.nodes|
  {
    var all := Connects(path.edges[i], endpoints);
    var left, right := path.nodes[i].variable, path.nodes[i + 1].variable;
    if left.Some? && left == right then set p | p in all && p.0 == p.1 else all
  }

  // ----- Families of table domains

  type Family = seq<set<string>>

  ghost predicate Below(a: Family, b: Family) {
    |a| == |b| && forall i :: 0 <= i < |a| ==> a[i] <= b[i]
  }

  function Sources(pairs: set<Pair>, left: set<string>, right: set<string>): set<string> {
    set p | p in pairs && p.0 in left && p.1 in right :: p.0
  }

  function Targets(pairs: set<Pair>, left: set<string>, right: set<string>): set<string> {
    set p | p in pairs && p.0 in left && p.1 in right :: p.1
  }

  /** Every table of either end has a partner at the other end. */
  ghost predicate ArcConsistent(d: Family, i: nat, pairs: set<Pair>)
    requires i + 1 < |d|
  {
    d[i] <= Sources(pairs, d[i], d[i + 1]) && d[i + 1] <= Targets(pairs, d[i], d[i + 1])
  }

  ghost predicate ArcsConsistent(d: Family, arcs: seq<set<Pair>>, n: nat)
    requires n <= |arcs| && |arcs| + 1 == |d|
  {
    forall i :: 0 <= i < n ==> ArcConsistent(d, i, arcs[i])
  }

  predicate SameVariable(nodes: seq<Node>, i: nat, j: nat)
    requires i < |nodes| && j < |nodes|
  {
    nodes[i].variable.Some? && nodes[i].variable == nodes[j].variable
  }

  ghost predicate Shared(d: Family, nodes: seq<Node>)
    requires |d| == |nodes|
  {
    forall i, j :: 0 <= i < |d| && 0 <= j < |d| && SameVariable(nodes, i, j) ==> d[i] == d[j]
  }

  /** Arc-consistent along the path and equal on repeated variables. */
  ghost predicate Consistent(d: Family, nodes: seq<Node>, arcs: seq<set<Pair>>) {
    |d| == |nodes| == |arcs| + 1 && ArcsConsistent(d, arcs, |arcs|) && Shared(d, nodes)
  }

  /** One constraint of the inner loop. */
  function CutArc(d: Family, i: nat, pairs: set<Pair>): (r: Family)
    requires i + 1 < |d|
    ensures |r| == |d|
  {
    d[i := d[i] * Sources(pairs, d[i], d[i + 1])][i + 1 := d[i + 1] * Targets(pairs, d[i], d[i + 1])]
  }

  lemma {:induction false} CutArcShrinks(d: Family, i: nat, pairs: set<Pair>)
    requires i + 1 < |d|
    ensures Below(CutArc(d, i, pairs), d)
    ensures CutArc(d, i, pairs) == d <==> ArcConsistent(d, i, pairs)
  {
    var r := CutArc(d, i, pairs);
    assert r[i] == d[i] * Sources(pairs, d[i], d[i + 1]);
    assert r[i + 1] == d[i + 1] * Targets(pairs, d[i], d[i + 1]);
    if ArcConsistent(d, i, pairs) {
      assert r[i] == d[i] && r[i + 1] == d[i + 1];
    }
  }

  lemma {:induction false} CutArcKeeps(e: Family, d: Family, i: nat, pairs: set<Pair>)
    requires i + 1 < |d| && Below(e, d) && ArcConsistent(e, i, pairs)
    ensures Below(e, CutArc(d, i, pairs))
  {
    forall x | x in e[i]
      ensures x in Sources(pairs, d[i], d[i + 1])
    {
      assert x in Sources(pairs, e[i], e[i + 1]);
      var p :| p in pairs && p.0 in e[i] && p.1 in e[i + 1] && p.0 == x;
      assert p.1 in d[i + 1];
    }
    var later := e[i + 1];
    forall x | x in later
      ensures x in Targets(pairs, d[i], d[i + 1])
    {
      assert x in Targets(pairs, e[i], e[i + 1]);
      var p :| p in pairs && p.0 in e[i] && p.1 in e[i + 1] && p.1 == x;
      assert p.0 in d[i];
    }
  }

  lemma {:induction false} BelowTransitive(a: Family, b: Family, c: Family)
    requires Below(a, b) && Below(b, c)
    ensures Below(a, c)
    ensures a == c ==> a == b
  {
    if a == c {
      forall i | 0 <= i < |a|
        ensures a[i] == b[i]
      {
      }
    }
  }

  function Size(d: Family): nat { if d == [] then 0 else |d[0]| + Size(d[1..]) }

  lemma {:induction false} SmallerFamily(a: Family, b: Family)
    requires Below(a, b)
    ensures Size(a) <= Size(b)
    ensures a != b ==> Size(a) < Size(b)
    decreases |a|
  {
    if a != [] {
      SmallerFamily(a[1..], b[1..]);
      assert b[0] == a[0] + (b[0] - a[0]);
      if a[0] == b[0] && a[1..] == b[1..] {
        assert a == [a[0]] + a[1..] && b == [b[0]] + b[1..];
      } else if a[0] != b[0] {
        assert b[0] - a[0] != {};
      }
    }
  }

  /** Nothing consistent below `start` has been cut away. */
  ghost predicate KeepsConsistent(start: Family, d: Family, nodes: seq<Node>, arcs: seq<set<Pair>>) {
    forall e :: Consistent(e, nodes, arcs) && Below(e, start) ==> Below(e, d)
  }

  /** The greatest consistent family below `start`. */
  ghost predicate Greatest(d: Family, start: Family, nodes: seq<Node>, arcs: seq<set<Pair>>) {
    Consistent(d, nodes, arcs) && Below(d, start) && KeepsConsistent(start, d, nodes, arcs)
  }

  /** The loop over the edge constraints. */
  method CutArcs(d: Family, nodes: seq<Node>, arcs: seq<set<Pair>>, ghost start: Family) returns (r: Family)
    requires |d| == |nodes| == |arcs| + 1 && KeepsConsistent(start, d, nodes, arcs)
    ensures Below(r, d) && KeepsConsistent(start, r, nodes, arcs)
    ensures r == d <==> ArcsConsistent(d, arcs, |arcs|)
  {
    r := d;
    for i := 0 to |arcs|
      invariant Below(r, d) && KeepsConsistent(start, r, nodes, arcs)
      invariant r == d <==> ArcsConsistent(d, arcs, i)
    {
      ghost var before := r;
      r := CutArc(r, i, arcs[i]);
      CutArcShrinks(before, i, arcs[i]);
      BelowTransitive(r, before, d);
      forall e | Consistent(e, nodes, arcs) && Below(e, start)
        ensures Below(e, r)
      {
        CutArcKeeps(e, before, i, arcs[i]);
      }
    }
  }

  /** The domain at `i` lies within those of its variable at the first `n` positions. */
  ghost predicate WithinAll(d: Family, nodes: seq<Node>, i: nat, n: nat)
    requires i < |d| == |nodes| && n <= |d|
  {
    forall j :: 0 <= j < n && SameVariable(nodes, i, j) ==> d[i] <= d[j]
  }

  lemma {:induction false} SharedStep(d: Family, before: Family, r: Family, i: nat, j: nat)
    requires i < |d| && j < |d| && Below(before, d) && r == before[i := before[i] * before[j]]
    ensures r == d <==> before == d && d[i] <= d[j]
  {
    if r == d {
      forall k | 0 <= k < |d|
        ensures before[k] == d[k]
      {
        assert r[k] <= before[k] <= d[k];
      }
      assert d[i] == d[i] * d[j];
    }
    if before == d && d[i] <= d[j] {
      assert d[i] * d[j] == d[i];
    }
  }

  /** The loop that intersects the domains of one position's variable. */
  method ShareAt(d: Family, i: nat, nodes: seq<Node>, arcs: seq<set<Pair>>, ghost start: Family) returns (r: Family)
    requires |d| == |nodes| == |arcs| + 1 && i < |d| && KeepsConsistent(start, d, nodes, arcs)
    ensures Below(r, d) && KeepsConsistent(start, r, nodes, arcs)
    ensures r == d <==> WithinAll(d, nodes, i, |d|)
  {
    r := d;
    for j := 0 to |nodes|
      invariant Below(r, d) && KeepsConsistent(start, r, nodes, arcs)
      invariant r == d <==> WithinAll(d, nodes, i, j)
    {
      if SameVariable(nodes, i, j) {
        ghost var before := r;
        r := r[i := r[i] * r[j]];
        assert Below(r, before);
        BelowTransitive(r, before, d);
        forall e | Consistent(e, nodes, arcs) && Below(e, start)
          ensures Below(e, r)
        {
          assert e[i] == e[j];
        }
        SharedStep(d, before, r, i, j);
      }
    }
  }

  lemma {:induction false} WithinIsShared(d: Family, nodes: seq<Node>)
    requires |d| == |nodes|
    ensures Shared(d, nodes) <==> forall i :: 0 <= i < |d| ==> WithinAll(d, nodes, i, |d|)
  {
    if forall i :: 0 <= i < |d| ==> WithinAll(d, nodes, i, |d|) {
      forall i, j | 0 <= i < |d| && 0 <= j < |d| && SameVariable(nodes, i, j)
        ensures d[i] == d[j]
      {
        assert SameVariable(nodes, j, i);
        assert WithinAll(d, nodes, i, |d|) && WithinAll(d, nodes, j, |d|);
      }
    }
  }

  method ShareVariables(d: Family, nodes: seq<Node>, arcs: seq<set<Pair>>, ghost start: Family) returns (r: Family)
    requires |d| == |nodes| == |arcs| + 1 && KeepsConsistent(start, d, nodes, arcs)
    ensures Below(r, d) && KeepsConsistent(start, r, nodes, arcs)
    ensures r == d <==> Shared(d, nodes)
  {
    r := d;
    for i := 0 to |nodes|
      invariant Below(r, d) && KeepsConsistent(start, r, nodes, arcs)
      invariant r == d <==> forall k :: 0 <= k < i ==> WithinAll(d, nodes, k, |d|)
    {
      if nodes[i].variable.Some? {
        ghost var before := r;
        r := ShareAt(r, i, nodes, arcs, start);
        BelowTransitive(r, before, d);
      }
    }
    WithinIsShared(d, nodes);
  }

  /** The domain loop. It terminates because a pass that changes anything makes the family
      smaller, and it ends in the greatest consistent family below the initial domains. */
  method Refine(start: Family, nodes: seq<Node>, arcs: seq<set<Pair>>) returns (d: Family)
    requires |start| == |nodes| == |arcs| + 1
    ensures Greatest(d, start, nodes, arcs)
  {
    d := start;
    var changed := true;
    while changed
      invariant Below(d, start) && KeepsConsistent(start, d, nodes, arcs)
      invariant !changed ==> Consistent(d, nodes, arcs)
      decreases Size(d), changed
    {
      var before := d;
      var cut := CutArcs(before, nodes, arcs, start);
      d := ShareVariables(cut, nodes, arcs, start);
      changed := before != d;
      BelowTransitive(d, cut, before);
      BelowTransitive(d, before, start);
      SmallerFamily(d, before);
    }
  }

  // ----- Bindings across clauses

  predicate Admissible(path: Path, tables: set<string>, aliases: map<string, set<string>>, edgeAliases: set<string>) {
    && (forall i :: 0 <= i < |path.nodes| ==> NodeAdmissible(path.nodes[i], tables, edgeAliases))
    && (forall i :: 0 <= i < |path.edges| ==> EdgeAdmissible(path.edges[i], aliases))
  }

  predicate NodeAdmissible(node: Node, tables: set<string>, edgeAliases: set<string>) {
    && |node.labels| <= 1
    && (node.labels != [] ==> node.labels[0] in tables)
    && (node.variable.Some? ==> node.variable.value !in edgeAliases)
  }

  predicate EdgeAdmissible(edge: Edge, aliases: map<string, set<string>>) {
    !edge.ranged && (edge.variable.Some? ==> edge.variable.value !in aliases)
  }

  function InitialDomain(node: Node, tables: set<string>, aliases: map<string, set<string>>): set<string> {
    var named := if node.labels == [] then tables else {node.labels[0]};
    if node.variable.Some? && node.variable.value in aliases then named * aliases[node.variable.value] else named
  }

  /** The endpoint pairs kept for (l, r) and for (r, l) mirror each other. */
  ghost predicate Mirrored(pairs: map<Pair, set<Pair>>) {
    forall k :: k in pairs ==> (k.1, k.0) in pairs && pairs[(k.1, k.0)] == Flip(pairs[k])
  }

  /** `sigma` gives every variable bound so far a table the bindings allow. */
  ghost predicate Allowed(sigma: map<string, string>, aliases: map<string, set<string>>, pairs: map<Pair, set<Pair>>) {
    && (forall v :: v in aliases ==> v in sigma && sigma[v] in aliases[v])
    && (forall k :: k in pairs ==> k.0 in sigma && k.1 in sigma && (sigma[k.0], sigma[k.1]) in pairs[k])
  }

  ghost predicate NodeMatches(node: Node, table: string, tables: set<string>, sigma: map<string, string>) {
    && table in tables
    && (node.labels != [] ==> table == node.labels[0])
    && (node.variable.Some? ==> node.variable.value in sigma && sigma[node.variable.value] == table)
  }

  ghost predicate EdgeMatches(a: seq<string>, path: Path, i: nat, endpoints: map<string, set<Pair>>)
    requires i < |path.edges| && i + 1 < |a|
  {
    (a[i], a[i + 1]) in Connects(path.edges[i], endpoints)
  }

  /** `a` puts the path's nodes on declared tables that match labels, variables and edges. */
  ghost predicate Matches(a: seq<string>, path: Path, tables: set<string>, endpoints: map<string, set<Pair>>,
                          sigma: map<string, string>)
  {
    && |a| == |path.nodes| == |path.edges| + 1
    && (forall i :: 0 <= i < |a| ==> NodeMatches(path.nodes[i], a[i], tables, sigma))
    && (forall i :: 0 <= i < |path.edges| ==> EdgeMatches(a, path, i, endpoints))
  }

  function Singletons(a: seq<string>): (r: Family)
    ensures |r| == |a| && forall i :: 0 <= i < |a| ==> r[i] == {a[i]}
  {
    if a == [] then [] else Singletons(a[..|a| - 1]) + [{a[|a| - 1]}]
  }

  function Arcs(path: Path, endpoints: map<string, set<Pair>>, n: nat): (r: seq<set<Pair>>)
    requires n <= |path.edges| && |path.nodes| == |path.edges| + 1
    ensures |r| == n && forall i :: 0 <= i < n ==> r[i] == Candidates(path, i, endpoints)
  {
    if n == 0 then [] else Arcs(path, endpoints, n - 1) + [Candidates(path, n - 1, endpoints)]
  }

  function InitialDomains(nodes: seq<Node>, tables: set<string>, aliases: map<string, set<string>>): (r: Family)
    ensures |r| == |nodes| && forall i :: 0 <= i < |nodes| ==> r[i] == InitialDomain(nodes[i], tables, aliases)
  {
    if nodes == [] then []
    else InitialDomains(nodes[..|nodes| - 1], tables, aliases) + [InitialDomain(nodes[|nodes| - 1], tables, aliases)]
  }

  /** The pairs of an edge admit what the edge itself admits between the nodes' tables. */
  lemma {:induction false} MatchedPairIsCandidate(a: seq<string>, path: Path, i: nat, tables: set<string>,
                                                  endpoints: map<string, set<Pair>>, sigma: map<string, string>)
    requires WellFormed(path) && Matches(a, path, tables, endpoints, sigma) && i < |path.edges|
    ensures (a[i], a[i + 1]) in Candidates(path, i, endpoints)
  {
    assert EdgeMatches(a, path, i, endpoints);
    assert NodeMatches(path.nodes[i], a[i], tables, sigma);
    assert NodeMatches(path.nodes[i + 1], a[i + 1], tables, sigma);
  }

  lemma {:induction false} SingletonArc(a: seq<string>, e: Family, i: nat, pairs: set<Pair>)
    requires e == Singletons(a) && i + 1 < |a| && (a[i], a[i + 1]) in pairs
    ensures ArcConsistent(e, i, pairs)
  {
    var p := (a[i], a[i + 1]);
    assert p.0 in e[i] && p.1 in e[i + 1];
    assert p.0 in Sources(pairs, e[i], e[i + 1]);
    assert p.1 in Targets(pairs, e[i], e[i + 1]);
  }

  /** A matching assignment is a consistent family of singletons below the initial domains. */
  lemma {:induction false} MatchIsConsistent(a: seq<string>, path: Path, tables: set<string>,
                                             endpoints: map<string, set<Pair>>, sigma: map<string, string>,
                                             aliases: map<string, set<string>>)
    requires WellFormed(path) && Matches(a, path, tables, endpoints, sigma)
    requires forall v :: v in aliases && v in sigma ==> sigma[v] in aliases[v]
    ensures Consistent(Singletons(a), path.nodes, Arcs(path, endpoints, |path.edges|))
    ensures Below(Singletons(a), InitialDomains(path.nodes, tables, aliases))
  {
    MatchFollowsArcs(a, path, tables, endpoints, sigma);
    MatchFitsNodes(a, path, tables, endpoints, sigma, aliases);
  }

  lemma {:induction false} MatchFollowsArcs(a: seq<string>, path: Path, tables: set<string>,
                                            endpoints: map<string, set<Pair>>, sigma: map<string, string>)
    requires WellFormed(path) && Matches(a, path, tables, endpoints, sigma)
    ensures Consistent(Singletons(a), path.nodes, Arcs(path, endpoints, |path.edges|))
  {
    var e, arcs := Singletons(a), Arcs(path, endpoints, |path.edges|);
    forall i | 0 <= i < |arcs|
      ensures ArcConsistent(e, i, arcs[i])
    {
      MatchedPairIsCandidate(a, path, i, tables, endpoints, sigma);
      SingletonArc(a, e, i, arcs[i]);
    }
    forall i, j | 0 <= i < |e| && 0 <= j < |e| && SameVariable(path.nodes, i, j)
      ensures e[i] == e[j]
    {
      assert NodeMatches(path.nodes[i], a[i], tables, sigma);
      assert NodeMatches(path.nodes[j], a[j], tables, sigma);
    }
  }

  lemma {:induction false} MatchFitsNodes(a: seq<string>, path: Path, tables: set<string>,
                                          endpoints: map<string, set<Pair>>, sigma: map<string, string>,
                                          aliases: map<string, set<string>>)
    requires WellFormed(path) && Matches(a, path, tables, endpoints, sigma)
    requires forall v :: v in aliases && v in sigma ==> sigma[v] in aliases[v]
    ensures Below(Singletons(a), InitialDomains(path.nodes, tables, aliases))
  {
    var e, d := Singletons(a), InitialDomains(path.nodes, tables, aliases);
    forall i | 0 <= i < |e|
      ensures e[i] <= d[i]
    {
      assert NodeMatches(path.nodes[i], a[i], tables, sigma);
      assert d[i] == InitialDomain(path.nodes[i], tables, aliases);
    }
  }

  // ----- Updating the bindings

  /** The alias loop after the fixpoint. */
  function Alias(nodes: seq<Node>, d: Family, aliases: map<string, set<string>>): map<string, set<string>>
    requires |nodes| == |d|
  {
    if nodes == [] then aliases
    else
      var n := |nodes| - 1;
      var rest := Alias(nodes[..n], d[..n], aliases);
      if nodes[n].variable.Some? then rest[nodes[n].variable.value := d[n]] else rest
  }

  lemma {:induction false} AliasesAllow(nodes: seq<Node>, d: Family, aliases: map<string, set<string>>,
                                        a: seq<string>, sigma: map<string, string>)
    requires |nodes| == |d| == |a| && Below(Singletons(a), d)
    requires forall i :: 0 <= i < |a| && nodes[i].variable.Some? ==>
               nodes[i].variable.value in sigma && sigma[nodes[i].variable.value] == a[i]
    requires forall v :: v in aliases ==> v in sigma && sigma[v] in aliases[v]
    ensures forall v :: v in Alias(nodes, d, aliases) ==> v in sigma && sigma[v] in Alias(nodes, d, aliases)[v]
    decreases |nodes|
  {
    if nodes != [] {
      var n := |nodes| - 1;
      assert Below(Singletons(a[..n]), d[..n]) by {
        forall i | 0 <= i < n
          ensures Singletons(a[..n])[i] <= d[..n][i]
        {
          assert Singletons(a)[i] <= d[i];
        }
      }
      AliasesAllow(nodes[..n], d[..n], aliases, a[..n], sigma);
      assert Singletons(a)[n] <= d[n];
    }
  }

  /** The candidate pairs of edge i between the final domains. */
  function Joint(path: Path, i: nat, endpoints: map<string, set<Pair>>, d: Family): set<Pair>
    requires i < |path.edges| && i + 1 < |path.nodes| == |d|
  {
    set p | p in Candidates(path, i, endpoints) && p.0 in d[i] && p.1 in d[i + 1]
  }

  /** The pairs of one edge that survive the final domains and any earlier correlation. */
  function Compatible(pairs: map<Pair, set<Pair>>, key: Pair, joint: set<Pair>): set<Pair> {
    if key in pairs then joint * pairs[key] else joint
  }

  /** The two assignments that record an edge's pairs in both directions. */
  function Correlate(pairs: map<Pair, set<Pair>>, key: Pair, compatible: set<Pair>): map<Pair, set<Pair>> {
    pairs[key := compatible][(key.1, key.0) := Flip(compatible)]
  }

  lemma {:induction false} FlipTwice(pairs: set<Pair>)
    ensures Flip(Flip(pairs)) == pairs
  {
    forall p
      ensures p in Flip(Flip(pairs)) <==> p in pairs
    {
      if p in pairs {
        assert (p.1, p.0) in Flip(pairs);
      }
    }
  }

  lemma {:induction false} CorrelateKeepsMirror(pairs: map<Pair, set<Pair>>, key: Pair, compatible: set<Pair>)
    requires Mirrored(pairs)
    requires key.0 == key.1 ==> forall p :: p in compatible ==> p.0 == p.1
    ensures Mirrored(Correlate(pairs, key, compatible))
  {
    var r := Correlate(pairs, key, compatible);
    FlipTwice(compatible);
    if key.0 == key.1 {
      assert Flip(compatible) == compatible by {
        forall p
          ensures p in Flip(compatible) <==> p in compatible
        {
          if p in compatible {
            assert (p.1, p.0) == p;
          }
        }
      }
    }
    forall k | k in r
      ensures (k.1, k.0) in r && r[(k.1, k.0)] == Flip(r[k])
    {
      var flipped := (key.1, key.0);
      if k != key && k != flipped {
        assert k in pairs;
        assert (k.1, k.0) != key && (k.1, k.0) != flipped;
      }
    }
  }

  /** Edge i of the path goes from the variable k.0 to the variable k.1. */
  predicate Joins(path: Path, i: nat, k: Pair)
    requires i + 1 < |path.nodes|
  {
    path.nodes[i].variable == Some(k.0) && path.nodes[i + 1].variable == Some(k.1)
  }

  /** `p` is a pair edge i can have between the variables of `k`, in whichever direction it
      joins them. */
  ghost predicate Supports(path: Path, i: nat, endpoints: map<string, set<Pair>>, d: Family, k: Pair, p: Pair)
    requires i < |path.edges| && i + 1 < |path.nodes| == |d|
  {
    && (Joins(path, i, k) ==> p in Joint(path, i, endpoints, d))
    && (Joins(path, i, (k.1, k.0)) ==> (p.1, p.0) in Joint(path, i, endpoints, d))
  }

  ghost predicate Touches(path: Path, i: nat, k: Pair)
    requires i + 1 < |path.nodes|
  {
    Joins(path, i, k) || Joins(path, i, (k.1, k.0))
  }

  ghost predicate Keyed(path: Path, n: nat, before: map<Pair, set<Pair>>, k: Pair)
    requires WellFormed(path) && n <= |path.edges|
  {
    k in before || exists i: nat :: i < n && Touches(path, i, k)
  }

  ghost predicate Survives(path: Path, n: nat, endpoints: map<string, set<Pair>>, d: Family, before: map<Pair, set<Pair>>,
                           k: Pair, p: Pair)
    requires WellFormed(path) && n <= |path.edges| && |d| == |path.nodes|
  {
    (k in before ==> p in before[k]) && forall i: nat :: i < n ==> Supports(path, i, endpoints, d, k, p)
  }

  ghost predicate IntersectedAt(path: Path, n: nat, endpoints: map<string, set<Pair>>, d: Family,
                                before: map<Pair, set<Pair>>, after: map<Pair, set<Pair>>, k: Pair)
    requires WellFormed(path) && n <= |path.edges| && |d| == |path.nodes|
  {
    && (k in after <==> Keyed(path, n, before, k))
    && (k in after ==> forall p :: p in after[k] <==> Survives(path, n, endpoints, d, before, k, p))
  }

  /** `after` holds a key exactly when `before` did or one of the first `n` edges joins its two
      variables, and for it exactly the pairs that `before` and every such edge admit. */
  ghost predicate Intersected(path: Path, n: nat, endpoints: map<string, set<Pair>>, d: Family,
                              before: map<Pair, set<Pair>>, after: map<Pair, set<Pair>>)
    requires WellFormed(path) && n <= |path.edges| && |d| == |path.nodes|
  {
    forall k :: IntersectedAt(path, n, endpoints, d, before, after, k)
  }

  lemma {:induction false} FlipAt(pairs: set<Pair>, p: Pair)
    ensures p in Flip(pairs) <==> (p.1, p.0) in pairs
  {
    if (p.1, p.0) in pairs {
      assert p == ((p.1, p.0).1, (p.1, p.0).0);
    }
  }

  lemma {:induction false} MirroredAt(pairs: map<Pair, set<Pair>>, k: Pair, p: Pair)
    requires Mirrored(pairs)
    ensures k in pairs <==> (k.1, k.0) in pairs
    ensures k in pairs ==> (p in pairs[k] <==> (p.1, p.0) in pairs[(k.1, k.0)])
  {
    var swapped := (k.1, k.0);
    assert k == (swapped.1, swapped.0);
    if k in pairs {
      FlipAt(pairs[swapped], p);
      assert pairs[k] == Flip(pairs[swapped]);
    }
  }

  /** What one recorded edge does to one key. */
  lemma {:induction false} CorrelateAt(path: Path, i: nat, endpoints: map<string, set<Pair>>, d: Family,
                                       pairs: map<Pair, set<Pair>>, key: Pair, k: Pair, p: Pair)
    requires WellFormed(path) && i < |path.edges| && |d| == |path.nodes| && Joins(path, i, key) && Mirrored(pairs)
    ensures var r := Correlate(pairs, key, Compatible(pairs, key, Joint(path, i, endpoints, d)));
            && (k in r <==> k in pairs || Touches(path, i, k))
            && (k in r ==> (p in r[k] <==> (k in pairs ==> p in pairs[k]) && Supports(path, i, endpoints, d, k, p)))
  {
    var joint := Joint(path, i, endpoints, d);
    var compatible, flipped := Compatible(pairs, key, joint), (key.1, key.0);
    FlipAt(compatible, p);
    MirroredAt(pairs, k, p);
    assert Joins(path, i, k) <==> k == key;
    assert Joins(path, i, (k.1, k.0)) <==> k == flipped;
    if key.0 == key.1 {
      LoopIsDiagonal(path, i, endpoints, key);
    }
  }

  /** An edge from a variable to itself only has pairs of equal tables. */
  lemma {:induction false} LoopIsDiagonal(path: Path, i: nat, endpoints: map<string, set<Pair>>, key: Pair)
    requires WellFormed(path) && i < |path.edges| && Joins(path, i, key) && key.0 == key.1
    ensures forall p :: p in Candidates(path, i, endpoints) ==> p.0 == p.1
  {
  }

  lemma {:induction false} IntersectedGrows(path: Path, i: nat, endpoints: map<string, set<Pair>>, d: Family, key: Pair,
                                            start: map<Pair, set<Pair>>, pairs: map<Pair, set<Pair>>)
    requires WellFormed(path) && i < |path.edges| && |d| == |path.nodes| && Joins(path, i, key) && Mirrored(pairs)
    requires Intersected(path, i, endpoints, d, start, pairs)
    ensures Intersected(path, i + 1, endpoints, d, start, Correlate(pairs, key, Compatible(pairs, key, Joint(path, i, endpoints, d))))
  {
    var r, next := Correlate(pairs, key, Compatible(pairs, key, Joint(path, i, endpoints, d))), i + 1;
    forall k
      ensures IntersectedAt(path, next, endpoints, d, start, r, k)
    {
      assert IntersectedAt(path, i, endpoints, d, start, pairs, k);
      KeyedGrows(path, i, start, k);
      CorrelateAt(path, i, endpoints, d, pairs, key, k, k);
      if k in r {
        forall p
          ensures p in r[k] <==> Survives(path, next, endpoints, d, start, k, p)
        {
          CorrelateAt(path, i, endpoints, d, pairs, key, k, p);
          SurvivesGrows(path, i, endpoints, d, start, pairs, k, p);
        }
      }
    }
  }

  lemma {:induction false} KeyedGrows(path: Path, i: nat, start: map<Pair, set<Pair>>, k: Pair)
    requires WellFormed(path) && i < |path.edges|
    ensures Keyed(path, i + 1, start, k) <==> Keyed(path, i, start, k) || Touches(path, i, k)
  {
    if Keyed(path, i, start, k) && k !in start {
      var j: nat :| j < i && Touches(path, j, k);
      assert j < i + 1 && Touches(path, j, k);
    }
  }

  lemma {:induction false} SurvivesGrows(path: Path, i: nat, endpoints: map<string, set<Pair>>, d: Family,
                                         start: map<Pair, set<Pair>>, pairs: map<Pair, set<Pair>>, k: Pair, p: Pair)
    requires WellFormed(path) && i < |path.edges| && |d| == |path.nodes|
    requires IntersectedAt(path, i, endpoints, d, start, pairs, k)
    ensures Survives(path, i + 1, endpoints, d, start, k, p)
            <==> (k in pairs ==> p in pairs[k]) && Supports(path, i, endpoints, d, k, p)
  {
    if k !in pairs {
      forall j: nat | j < i
        ensures Supports(path, j, endpoints, d, k, p)
      {
        assert !Touches(path, j, k);
      }
    }
  }

  /** An edge without two variables says nothing about any key. */
  lemma {:induction false} IntersectedSkips(path: Path, i: nat, endpoints: map<string, set<Pair>>, d: Family,
                                            start: map<Pair, set<Pair>>, pairs: map<Pair, set<Pair>>)
    requires WellFormed(path) && i < |path.edges| && |d| == |path.nodes|
    requires path.nodes[i].variable.None? || path.nodes[i + 1].variable.None?
    requires Intersected(path, i, endpoints, d, start, pairs)
    ensures Intersected(path, i + 1, endpoints, d, start, pairs)
  {
    var next := i + 1;
    forall k
      ensures IntersectedAt(path, next, endpoints, d, start, pairs, k)
    {
      assert IntersectedAt(path, i, endpoints, d, start, pairs, k);
      KeyedGrows(path, i, start, k);
      if k in pairs {
        forall p
          ensures p in pairs[k] <==> Survives(path, next, endpoints, d, start, k, p)
        {
          SurvivesGrows(path, i, endpoints, d, start, pairs, k, p);
        }
      }
    }
  }

  lemma {:induction false} NothingIntersected(path: Path, endpoints: map<string, set<Pair>>, d: Family, pairs: map<Pair, set<Pair>>)
    requires WellFormed(path) && |d| == |path.nodes|
    ensures Intersected(path, 0, endpoints, d, pairs, pairs)
  {
    forall k
      ensures IntersectedAt(path, 0, endpoints, d, pairs, pairs, k)
    {
    }
  }

  // ----- What the recorded pairs are worth

  /** Every edge of the path between two variables has their key recorded, with only pairs the
      edge itself can connect. */
  ghost predicate Connectable(pairs: map<Pair, set<Pair>>, path: Path, endpoints: map<string, set<Pair>>)
    requires WellFormed(path)
  {
    forall i: nat, k :: i < |path.edges| && Joins(path, i, k) ==> ConnectableAt(pairs, path, i, endpoints, k)
  }

  ghost predicate ConnectableAt(pairs: map<Pair, set<Pair>>, path: Path, i: nat, endpoints: map<string, set<Pair>>, k: Pair)
    requires WellFormed(path) && i < |path.edges|
  {
    && k in pairs && pairs[k] <= Candidates(path, i, endpoints)
    && (k.1, k.0) in pairs && pairs[(k.1, k.0)] <= Flip(Candidates(path, i, endpoints))
  }

  /** Recording a path makes it connectable. */
  lemma {:induction false} RecordedIsConnectable(path: Path, endpoints: map<string, set<Pair>>, d: Family,
                                                 before: map<Pair, set<Pair>>, after: map<Pair, set<Pair>>)
    requires WellFormed(path) && |d| == |path.nodes| && Intersected(path, |path.edges|, endpoints, d, before, after)
    ensures Connectable(after, path, endpoints)
  {
    forall i: nat, k | i < |path.edges| && Joins(path, i, k)
      ensures ConnectableAt(after, path, i, endpoints, k)
    {
      var candidates, swapped := Candidates(path, i, endpoints), (k.1, k.0);
      assert Touches(path, i, k) && Touches(path, i, swapped);
      assert IntersectedAt(path, |path.edges|, endpoints, d, before, after, k);
      assert IntersectedAt(path, |path.edges|, endpoints, d, before, after, swapped);
      forall p | p in after[k]
        ensures p in candidates
      {
        assert Supports(path, i, endpoints, d, k, p);
      }
      forall p | p in after[swapped]
        ensures p in Flip(candidates)
      {
        assert Supports(path, i, endpoints, d, swapped, p);
        FlipAt(candidates, p);
      }
    }
  }

  /** Later paths only take pairs away, so what an earlier path established stays. */
  lemma {:induction false} ConnectableStays(path: Path, endpoints: map<string, set<Pair>>, d: Family,
                                            before: map<Pair, set<Pair>>, after: map<Pair, set<Pair>>,
                                            earlier: Path, endpoints': map<string, set<Pair>>)
    requires WellFormed(path) && |d| == |path.nodes| && Intersected(path, |path.edges|, endpoints, d, before, after)
    requires WellFormed(earlier) && Connectable(before, earlier, endpoints')
    ensures Connectable(after, earlier, endpoints')
  {
    forall i: nat, k | i < |earlier.edges| && Joins(earlier, i, k)
      ensures ConnectableAt(after, earlier, i, endpoints', k)
    {
      assert ConnectableAt(before, earlier, i, endpoints', k);
      OnlyTakesAway(path, endpoints, d, before, after, k);
      OnlyTakesAway(path, endpoints, d, before, after, (k.1, k.0));
    }
  }

  lemma {:induction false} OnlyTakesAway(path: Path, endpoints: map<string, set<Pair>>, d: Family,
                                         before: map<Pair, set<Pair>>, after: map<Pair, set<Pair>>, k: Pair)
    requires WellFormed(path) && |d| == |path.nodes| && Intersected(path, |path.edges|, endpoints, d, before, after)
    requires k in before
    ensures k in after && after[k] <= before[k]
    ensures (forall i: nat :: i < |path.edges| ==> !Touches(path, i, k)) ==> after[k] == before[k]
  {
    assert IntersectedAt(path, |path.edges|, endpoints, d, before, after, k);
    forall p | p in after[k]
      ensures p in before[k]
    {
      assert Survives(path, |path.edges|, endpoints, d, before, k, p);
    }
    if forall i: nat :: i < |path.edges| ==> !Touches(path, i, k) {
      forall p | p in before[k]
        ensures p in after[k]
      {
        forall i: nat | i < |path.edges|
          ensures Supports(path, i, endpoints, d, k, p)
        {
          assert !Touches(path, i, k);
        }
        assert Survives(path, |path.edges|, endpoints, d, before, k, p);
      }
    }
  }

  /** The variable bindings a statement has proved so far. */
  class Bindings {
    var aliases: map<string, set<string>>
    var pairs: map<Pair, set<Pair>>
    var edgeAliases: set<string>

    constructor ()
      ensures aliases == map[] && pairs == map[] && edgeAliases == {}
    {
      aliases, pairs, edgeAliases := map[], map[], {};
    }

    /** The final loop: every edge between two named nodes records its surviving pairs. */
    method RecordPairs(path: Path, d: Family, endpoints: map<string, set<Pair>>)
      requires WellFormed(path) && |d| == |path.nodes| && Mirrored(pairs)
      modifies this`pairs
      ensures Mirrored(pairs)
      ensures Intersected(path, |path.edges|, endpoints, d, old(pairs), pairs)
    {
      NothingIntersected(path, endpoints, d, pairs);
      for i := 0 to |path.edges|
        invariant Mirrored(pairs)
        invariant Intersected(path, i, endpoints, d, old(pairs), pairs)
      {
        var left, right := path.nodes[i].variable, path.nodes[i + 1].variable;
        if left.Some? && right.Some? {
          var key := (left.value, right.value);
          var compatible := Compatible(pairs, key, Joint(path, i, endpoints, d));
          IntersectedGrows(path, i, endpoints, d, key, old(pairs), pairs);
          CorrelateKeepsMirror(pairs, key, compatible);
          pairs := Correlate(pairs, key, compatible);
        } else {
          IntersectedSkips(path, i, endpoints, d, old(pairs), pairs);
        }
      }
    }

    /** One path of a MATCH clause. A refused path leaves the proved bindings as they were;
        an admitted one loses no assignment of tables that the path can match, and keeps the
        pairs of both directions mirrored. */
    method MatchPath(path: Path, tables: set<string>, endpoints: map<string, set<Pair>>) returns (ok: bool)
      requires WellFormed(path) && Mirrored(pairs)
      modifies this
      ensures Mirrored(pairs)
      ensures ok <==> Admissible(path, tables, old(aliases), old(edgeAliases))
      ensures !ok ==> aliases == old(aliases) && pairs == old(pairs) && edgeAliases == old(edgeAliases)
      ensures ok ==> edgeAliases == old(edgeAliases) + EdgeNames(path.edges)
      ensures ok ==> KeepsMatches(path, tables, endpoints, old(aliases), old(pairs), aliases, pairs)
      ensures ok ==> NarrowedTo(path, tables, endpoints, old(aliases), old(pairs), aliases, pairs)
    {
      ok := Admissible(path, tables, aliases, edgeAliases);
      if !ok {
        return;
      }
      edgeAliases := edgeAliases + EdgeNames(path.edges);
      var arcs := Arcs(path, endpoints, |path.edges|);
      var start := InitialDomains(path.nodes, tables, aliases);
      var d := Refine(start, path.nodes, arcs);
      ghost var before, beforePairs := aliases, pairs;
      aliases := Alias(path.nodes, d, aliases);
      RecordPairs(path, d, endpoints);
      PairsAreKept(path, endpoints, d, beforePairs, pairs);
      PathKeepsMatches(path, tables, endpoints, d, before, beforePairs, pairs);
      assert NarrowedTo(path, tables, endpoints, before, beforePairs, aliases, pairs);
    }

    /** A whole MATCH clause: its paths in order, up to the first that the bindings so far do
        not admit. What any path of the statement established about the pairs, in this clause
        or an earlier one, still holds at its end. */
    method MatchClause(paths: seq<Path>, optional: bool, tables: set<string>, endpoints: map<string, set<Pair>>)
      returns (ok: bool, ghost done: nat)
      requires (forall path :: path in paths ==> WellFormed(path)) && Mirrored(pairs)
      modifies this
      ensures Mirrored(pairs)
      ensures done <= |paths| && (ok <==> !optional && done == |paths|)
      ensures optional ==> done == 0 && aliases == old(aliases) && pairs == old(pairs) && edgeAliases == old(edgeAliases)
      ensures !ok && !optional ==> !Admissible(paths[done], tables, aliases, edgeAliases)
      ensures forall m :: 0 <= m < done ==> Connectable(pairs, paths[m], endpoints)
      ensures Holds(old(pairs), pairs)
    {
      if optional {
        return false, 0;
      }
      for n := 0 to |paths|
        invariant Mirrored(pairs)
        invariant forall m :: 0 <= m < n ==> Connectable(pairs, paths[m], endpoints)
        invariant Holds(old(pairs), pairs)
      {
        ghost var aliases', pairs' := aliases, pairs;
        ok := MatchPath(paths[n], tables, endpoints);
        if !ok {
          return false, n;
        }
        PathHolds(paths[n], tables, endpoints, aliases', pairs', aliases, pairs);
      }
      return true, |paths|;
    }
  }

  /** No table assignment that the path matches and the old bindings allowed is lost. */
  ghost predicate KeepsMatches(path: Path, tables: set<string>, endpoints: map<string, set<Pair>>,
                               aliases: map<string, set<string>>, pairs: map<Pair, set<Pair>>,
                               aliases': map<string, set<string>>, pairs': map<Pair, set<Pair>>)
  {
    forall a, sigma :: Matches(a, path, tables, endpoints, sigma) && Allowed(sigma, aliases, pairs)
                       ==> Allowed(sigma, aliases', pairs')
  }

  /** The new aliases are the greatest consistent domains below the initial ones, and the new
      pairs are the old ones intersected with what the edges connect between those domains. */
  ghost predicate NarrowedTo(path: Path, tables: set<string>, endpoints: map<string, set<Pair>>,
                             aliases: map<string, set<string>>, pairs: map<Pair, set<Pair>>,
                             aliases': map<string, set<string>>, pairs': map<Pair, set<Pair>>)
    requires WellFormed(path)
  {
    exists d :: && Greatest(d, InitialDomains(path.nodes, tables, aliases), path.nodes, Arcs(path, endpoints, |path.edges|))
                && aliases' == Alias(path.nodes, d, aliases)
                && Intersected(path, |path.edges|, endpoints, d, pairs, pairs')
  }

  /** Every path connectable before is still connectable. */
  ghost predicate Holds(before: map<Pair, set<Pair>>, after: map<Pair, set<Pair>>) {
    forall path, endpoints :: WellFormed(path) && Connectable(before, path, endpoints) ==> Connectable(after, path, endpoints)
  }

  lemma {:induction false} PathHolds(path: Path, tables: set<string>, endpoints: map<string, set<Pair>>,
                                     aliases: map<string, set<string>>, pairs: map<Pair, set<Pair>>,
                                     aliases': map<string, set<string>>, pairs': map<Pair, set<Pair>>)
    requires WellFormed(path) && NarrowedTo(path, tables, endpoints, aliases, pairs, aliases', pairs')
    ensures Connectable(pairs', path, endpoints) && Holds(pairs, pairs')
  {
    var d :| && Greatest(d, InitialDomains(path.nodes, tables, aliases), path.nodes, Arcs(path, endpoints, |path.edges|))
             && Intersected(path, |path.edges|, endpoints, d, pairs, pairs');
    RecordedIsConnectable(path, endpoints, d, pairs, pairs');
    forall earlier, endpoints' | WellFormed(earlier) && Connectable(pairs, earlier, endpoints')
      ensures Connectable(pairs', earlier, endpoints')
    {
      ConnectableStays(path, endpoints, d, pairs, pairs', earlier, endpoints');
    }
  }

  lemma {:induction false} PathKeepsMatches(path: Path, tables: set<string>, endpoints: map<string, set<Pair>>, d: Family,
                                            aliases: map<string, set<string>>, pairs: map<Pair, set<Pair>>,
                                            pairs': map<Pair, set<Pair>>)
    requires WellFormed(path)
    requires Greatest(d, InitialDomains(path.nodes, tables, aliases), path.nodes, Arcs(path, endpoints, |path.edges|))
    requires PairsKept(path, endpoints, d, pairs, pairs')
    ensures KeepsMatches(path, tables, endpoints, aliases, pairs, Alias(path.nodes, d, aliases), pairs')
  {
    forall a, sigma | Matches(a, path, tables, endpoints, sigma) && Allowed(sigma, aliases, pairs)
      ensures Allowed(sigma, Alias(path.nodes, d, aliases), pairs')
    {
      MatchStaysBelow(a, path, tables, endpoints, sigma, aliases, d);
      AliasesKeep(path, d, aliases, a, tables, endpoints, sigma);
      assert PairsAllow(sigma, pairs);
    }
  }

  lemma {:induction false} MatchStaysBelow(a: seq<string>, path: Path, tables: set<string>,
                                           endpoints: map<string, set<Pair>>, sigma: map<string, string>,
                                           aliases: map<string, set<string>>, d: Family)
    requires WellFormed(path) && Matches(a, path, tables, endpoints, sigma)
    requires forall v :: v in aliases && v in sigma ==> sigma[v] in aliases[v]
    requires Greatest(d, InitialDomains(path.nodes, tables, aliases), path.nodes, Arcs(path, endpoints, |path.edges|))
    ensures Below(Singletons(a), d)
  {
    MatchIsConsistent(a, path, tables, endpoints, sigma, aliases);
  }

  function EdgeNames(edges: seq<Edge>): set<string> {
    set e | e in edges && e.variable.Some? :: e.variable.value
  }

  ghost predicate PairsAllow(sigma: map<string, string>, pairs: map<Pair, set<Pair>>) {
    forall k :: k in pairs ==> k.0 in sigma && k.1 in sigma && (sigma[k.0], sigma[k.1]) in pairs[k]
  }

  /** Every table assignment the path matches inside `d` is still allowed by the new pairs. */
  ghost predicate PairsKept(path: Path, endpoints: map<string, set<Pair>>, d: Family,
                            before: map<Pair, set<Pair>>, after: map<Pair, set<Pair>>)
  {
    forall a, tables, sigma ::
      Matches(a, path, tables, endpoints, sigma) && Below(Singletons(a), d) && PairsAllow(sigma, before)
      ==> PairsAllow(sigma, after)
  }

  lemma {:induction false} AliasesKeep(path: Path, d: Family, aliases: map<string, set<string>>, a: seq<string>,
                                       tables: set<string>, endpoints: map<string, set<Pair>>, sigma: map<string, string>)
    requires WellFormed(path) && |d| == |path.nodes| && Matches(a, path, tables, endpoints, sigma)
    requires Below(Singletons(a), d)
    requires forall v :: v in aliases ==> v in sigma && sigma[v] in aliases[v]
    ensures forall v :: v in Alias(path.nodes, d, aliases) ==> v in sigma && sigma[v] in Alias(path.nodes, d, aliases)[v]
  {
    forall i | 0 <= i < |a| && path.nodes[i].variable.Some?
      ensures path.nodes[i].variable.value in sigma && sigma[path.nodes[i].variable.value] == a[i]
    {
      assert NodeMatches(path.nodes[i], a[i], tables, sigma);
    }
    AliasesAllow(path.nodes, d, aliases, a, sigma);
  }

  /** A pair of tables the path's nodes match is admitted by every edge that joins them. */
  lemma {:induction false} MatchSupports(a: seq<string>, path: Path, i: nat, tables: set<string>,
                                         endpoints: map<string, set<Pair>>, sigma: map<string, string>, d: Family, k: Pair)
    requires WellFormed(path) && Matches(a, path, tables, endpoints, sigma) && i < |path.edges|
    requires |d| == |path.nodes| && Below(Singletons(a), d) && Touches(path, i, k)
    ensures k.0 in sigma && k.1 in sigma && Supports(path, i, endpoints, d, k, (sigma[k.0], sigma[k.1]))
  {
    assert NodeMatches(path.nodes[i], a[i], tables, sigma);
    assert NodeMatches(path.nodes[i + 1], a[i + 1], tables, sigma);
    MatchedPairIsCandidate(a, path, i, tables, endpoints, sigma);
    assert Singletons(a)[i] <= d[i] && Singletons(a)[i + 1] <= d[i + 1];
    assert (a[i], a[i + 1]) in Joint(path, i, endpoints, d);
  }

  lemma {:induction false} MatchSurvives(a: seq<string>, path: Path, tables: set<string>, endpoints: map<string, set<Pair>>,
                                         sigma: map<string, string>, d: Family, before: map<Pair, set<Pair>>, k: Pair)
    requires WellFormed(path) && Matches(a, path, tables, endpoints, sigma)
    requires |d| == |path.nodes| && Below(Singletons(a), d) && PairsAllow(sigma, before)
    requires Keyed(path, |path.edges|, before, k)
    ensures k.0 in sigma && k.1 in sigma
    ensures Survives(path, |path.edges|, endpoints, d, before, k, (sigma[k.0], sigma[k.1]))
  {
    if k !in before {
      var j: nat :| j < |path.edges| && Touches(path, j, k);
      MatchSupports(a, path, j, tables, endpoints, sigma, d, k);
    }
    var p := (sigma[k.0], sigma[k.1]);
    forall i: nat | i < |path.edges|
      ensures Supports(path, i, endpoints, d, k, p)
    {
      if Touches(path, i, k) {
        MatchSupports(a, path, i, tables, endpoints, sigma, d, k);
      }
    }
  }

  lemma {:induction false} PairsAreKept(path: Path, endpoints: map<string, set<Pair>>, d: Family,
                                        before: map<Pair, set<Pair>>, after: map<Pair, set<Pair>>)
    requires WellFormed(path) && |d| == |path.nodes| && Intersected(path, |path.edges|, endpoints, d, before, after)
    ensures PairsKept(path, endpoints, d, before, after)
  {
    forall a, tables, sigma | Matches(a, path, tables, endpoints, sigma) && Below(Singletons(a), d) && PairsAllow(sigma, before)
      ensures PairsAllow(sigma, after)
    {
      forall k | k in after
        ensures k.0 in sigma && k.1 in sigma && (sigma[k.0], sigma[k.1]) in after[k]
      {
        assert IntersectedAt(path, |path.edges|, endpoints, d, before, after, k);
        MatchSurvives(a, path, tables, endpoints, sigma, d, before, k);
      }
    }
  }

  // ----- Writes

  /** The endpoint pairs a CREATE of one relationship adds to its type. */
  function Admitted(pairs: map<Pair, set<Pair>>, left: Option<string>, right: Option<string>,
                    leftTables: set<string>, rightTables: set<string>, direction: Direction): set<Pair> {
    var between := if left.Some? && right.Some? && (left.value, right.value) in pairs
                   then set p | p in pairs[(left.value, right.value)] && p.0 in leftTables && p.1 in rightTables
                   else set x, y | x in leftTables && y in rightTables :: (x, y);
    if direction == Incoming then Flip(between) else between
  }

  /** The pair of tables a written edge has at the left and right of its pattern. */
  function Between(p: Pair, direction: Direction): Pair { if direction == Incoming then (p.1, p.0) else p }

  /** No table pair a bound write can really connect is missing from the inferred endpoints,
      and a correlated write admits only pairs the MATCH proved. */
  lemma {:induction false} WritesKeepCorrelation(pairs: map<Pair, set<Pair>>, left: string, right: string,
                                                 leftTables: set<string>, rightTables: set<string>,
                                                 direction: Direction, sigma: map<string, string>)
    requires PairsAllow(sigma, pairs) && direction != Undirected
    requires left in sigma && right in sigma && sigma[left] in leftTables && sigma[right] in rightTables
    ensures var written := Between((sigma[left], sigma[right]), direction);
            written in Admitted(pairs, Some(left), Some(right), leftTables, rightTables, direction)
    ensures (left, right) in pairs && Mirrored(pairs) ==>
              Admitted(pairs, Some(left), Some(right), leftTables, rightTables, direction)
              <= (if direction == Incoming then pairs[(right, left)] else pairs[(left, right)])
  {
    var p := (sigma[left], sigma[right]);
    if direction == Incoming {
      assert (p.1, p.0) in Admitted(pairs, Some(left), Some(right), leftTables, rightTables, direction);
    }
  }

  /** A write between two variables that some edge of the path joins, in either direction, adds
      only pairs that edge can connect; it never becomes the product of the two domains. */
  lemma {:induction false} CorrelatedWriteIsConnected(pairs: map<Pair, set<Pair>>, path: Path, i: nat,
                                                      endpoints: map<string, set<Pair>>, left: string, right: string,
                                                      leftTables: set<string>, rightTables: set<string>,
                                                      direction: Direction, p: Pair)
    requires WellFormed(path) && i < |path.edges| && Connectable(pairs, path, endpoints) && direction != Undirected
    requires p in Admitted(pairs, Some(left), Some(right), leftTables, rightTables, direction)
    ensures Joins(path, i, (left, right)) ==> Between(p, direction) in Candidates(path, i, endpoints)
    ensures Joins(path, i, (right, left)) ==> Between(Between(p, direction), Incoming) in Candidates(path, i, endpoints)
  {
    var k, swapped, q := (left, right), (right, left), Between(p, direction);
    if Joins(path, i, k) {
      assert ConnectableAt(pairs, path, i, endpoints, k);
      assert q in pairs[k];
    }
    if Joins(path, i, swapped) {
      assert ConnectableAt(pairs, path, i, endpoints, swapped);
      assert q in pairs[k];
      FlipAt(Candidates(path, i, endpoints), q);
    }
  }
}
