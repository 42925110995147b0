/** The generous exact ground truth of the recall benchmark: every record whose distance is
    at most the k-th smallest counts as a right answer, so ties can never cost recall.
 */
module GroundTruth {
  import opened Basics
  import opened Sorting

  /** A record with its score. */
  datatype Scored<+S> = Scored(score: S, index: nat)

  predicate ScoredLe(a: Scored<real>, b: Scored<real>) {
    a.score < b.score || (a.score == b.score && a.index <= b.index)
  }

  datatype Truth = Truth(ordered: seq<Scored<real>>, cut: real, members: set<nat>)

  function Numbered(scores: seq<real>): (r: seq<Scored<real>>)
    ensures |r| == |scores|
    ensures forall i :: 0 <= i < |r| ==> r[i] == Scored(scores[i], i)
  {
    if scores == [] then []
    else Numbered(scores[..|scores| - 1]) + [Scored(scores[|scores| - 1], |scores| - 1)]
  }

  /** `ground_truth` of one query, given the query's distance to every record; it refuses k < 1. */
  function GroundTruthOf(scores: seq<real>, k: int): Option<Truth> {
    if k <= 0 then None
    else
      var ordered := Sort(Numbered(scores), ScoredLe);
      var cut := if ordered == [] then 0.0 else ordered[(if k < |ordered| then k else |ordered|) - 1].score;
      Some(Truth(ordered, cut, set s | s in ordered && s.score <= cut :: s.index))
  }

  /** The records strictly closer to the query than record i. */
  function Closer(scores: seq<real>, i: nat): set<nat>
    requires i < |scores|
  {
    set j | 0 <= j < |scores| && scores[j] < scores[i]
  }

  // ----- The sorted list as a permutation of the records

  ghost predicate DistinctIndices<S>(xs: seq<Scored<S>>) {
    forall i, j :: 0 <= i < j < |xs| ==> xs[i].index != xs[j].index
  }

  function Indices<S(==)>(xs: seq<Scored<S>>): set<nat> { set s | s in xs :: s.index }

  lemma {:induction false} IndicesCount(xs: seq<Scored<real>>)
    requires DistinctIndices(xs)
    ensures |Indices(xs)| == |xs|
    decreases |xs|
  {
    if xs == [] {
      assert Indices(xs) == {};
    } else {
      var front, last := xs[..|xs| - 1], xs[|xs| - 1];
      IndicesCount(front);
      assert xs == front + [last];
      assert Indices(xs) == Indices(front) + {last.index};
      assert last.index !in Indices(front);
    }
  }

  /** What the sort leaves to rely on: in order, one entry per record, each with its score. */
  ghost predicate Ranks(ordered: seq<Scored<real>>, scores: seq<real>) {
    && |ordered| == |scores|
    && SortedBy(ordered, ScoredLe)
    && DistinctIndices(ordered)
    && (forall s :: s in ordered ==> s.index < |scores| && s.score == scores[s.index])
    && (forall i :: 0 <= i < |scores| ==> Scored(scores[i], i) in ordered)
  }

  lemma {:induction false} ScoredLeIsTotal()
    ensures TotalPreorder(ScoredLe)
  {
  }

  lemma {:induction false} SameEntryTwice(xs: seq<Scored<real>>, ys: seq<Scored<real>>, i: nat, j: nat)
    requires multiset(xs) == multiset(ys) && DistinctIndices(ys) && i < j < |xs|
    ensures xs[i] != xs[j]
  {
    if xs[i] == xs[j] {
      var x := xs[i];
      assert xs == xs[..j] + [xs[j]] + xs[j + 1..];
      assert x in xs[..j];
      assert multiset(xs)[x] >= 2;
      OnceEach(ys, x);
    }
  }

  lemma {:induction false} OnceEach(ys: seq<Scored<real>>, x: Scored<real>)
    requires DistinctIndices(ys)
    ensures multiset(ys)[x] <= 1
    decreases |ys|
  {
    if ys != [] {
      var front := ys[..|ys| - 1];
      OnceEach(front, x);
      assert ys == front + [ys[|ys| - 1]];
      assert x == ys[|ys| - 1] ==> x !in front by {
        assert forall i :: 0 <= i < |front| ==> front[i] == ys[i] && ys[i].index != ys[|ys| - 1].index;
      }
    }
  }

  lemma {:induction false} NumberedEntries(scores: seq<real>)
    ensures DistinctIndices(Numbered(scores))
    ensures forall s :: s in Numbered(scores) ==> s.index < |scores| && s.score == scores[s.index]
    ensures forall i :: 0 <= i < |scores| ==> Scored(scores[i], i) in Numbered(scores)
  {
    var numbered := Numbered(scores);
    assert forall i :: 0 <= i < |scores| ==> numbered[i] == Scored(scores[i], i);
  }

  lemma {:induction false} ReorderedIsDistinct(xs: seq<Scored<real>>, ys: seq<Scored<real>>, scores: seq<real>)
    requires multiset(xs) == multiset(ys) && DistinctIndices(ys)
    requires forall s :: s in ys ==> s.index < |scores| && s.score == scores[s.index]
    ensures DistinctIndices(xs)
  {
    forall i, j | 0 <= i < j < |xs|
      ensures xs[i].index != xs[j].index
    {
      SameEntryTwice(xs, ys, i, j);
      assert xs[i] in multiset(xs) && xs[j] in multiset(xs);
      assert xs[i] in ys && xs[j] in ys;
    }
  }

  lemma {:induction false} SortRanks(scores: seq<real>)
    ensures Ranks(Sort(Numbered(scores), ScoredLe), scores)
  {
    var numbered := Numbered(scores);
    ScoredLeIsTotal();
    SortOrders(numbered, ScoredLe);
    SortMembers(numbered, ScoredLe);
    NumberedEntries(scores);
    ReorderedIsDistinct(Sort(numbered, ScoredLe), numbered, scores);
  }

  lemma {:induction false} PrefixDistinct(xs: seq<Scored<real>>, m: nat)
    requires DistinctIndices(xs) && m <= |xs|
    ensures |Indices(xs[..m])| == m
  {
    IndicesCount(xs[..m]);
  }

  /** A record is a generous member exactly when fewer than k records are strictly closer. */
  lemma {:induction false} MemberIffFewerThanKCloser(scores: seq<real>, k: int, i: nat)
    requires k >= 1 && i < |scores|
    ensures i in GroundTruthOf(scores, k).value.members <==> |Closer(scores, i)| < k
  {
    var truth := GroundTruthOf(scores, k).value;
    var ordered := truth.ordered;
    SortRanks(scores);
    var m := if k < |ordered| then k else |ordered|;
    var entry := Scored(scores[i], i);
    assert entry in ordered;
    assert i in truth.members <==> scores[i] <= truth.cut by {
      if i in truth.members {
        var s :| s in ordered && s.score <= truth.cut && s.index == i;
      }
    }
    if scores[i] <= truth.cut {
      CloserAreEarly(scores, ordered, m, i);
    } else {
      EarlyAreCloser(scores, ordered, m, i);
    }
  }

  lemma {:induction false} CloserAreEarly(scores: seq<real>, ordered: seq<Scored<real>>, m: nat, i: nat)
    requires Ranks(ordered, scores) && i < |scores| && 1 <= m <= |ordered|
    requires scores[i] <= ordered[m - 1].score
    ensures |Closer(scores, i)| < m
  {
    var early := Indices(ordered[..m - 1]);
    PrefixDistinct(ordered, m - 1);
    forall j | j in Closer(scores, i)
      ensures j in early
    {
      var entry := Scored(scores[j], j);
      assert entry in ordered;
      var p :| 0 <= p < |ordered| && ordered[p] == entry;
      assert p < m - 1;
      assert ordered[..m - 1][p] == entry;
    }
    SubsetSize(Closer(scores, i), early);
  }

  lemma {:induction false} EarlyAreCloser(scores: seq<real>, ordered: seq<Scored<real>>, m: nat, i: nat)
    requires Ranks(ordered, scores) && i < |scores| && 1 <= m <= |ordered|
    requires scores[i] > ordered[m - 1].score
    ensures |Closer(scores, i)| >= m && m < |ordered|
  {
    var early := Indices(ordered[..m]);
    PrefixDistinct(ordered, m);
    forall j | j in early
      ensures j in Closer(scores, i)
    {
      var s :| s in ordered[..m] && s.index == j;
      var p :| 0 <= p < m && ordered[..m][p] == s;
      assert ordered[p] in ordered;
      assert ordered[p].score <= ordered[m - 1].score;
    }
    SubsetSize(early, Closer(scores, i));
    assert Scored(scores[i], i) in ordered;
    var q :| 0 <= q < |ordered| && ordered[q] == Scored(scores[i], i);
    assert q >= m;
  }

  lemma {:induction false} MembersAreRecords(scores: seq<real>, k: int)
    requires k >= 1
    ensures forall i :: i in GroundTruthOf(scores, k).value.members ==> i < |scores|
  {
    SortRanks(scores);
  }

  // ----- Recall

  function Top(answer: seq<nat>, k: nat): seq<nat> { if k < |answer| then answer[..k] else answer }

  function Elements(xs: seq<nat>): set<nat> { set x | x in xs }

  function Hits(answer: seq<nat>, truth: Truth, k: nat): nat {
    |Elements(Top(answer, k)) * truth.members|
  }

  function RecallAtK(answer: seq<nat>, truth: Truth, k: int): Option<real> {
    if k <= 0 then None else Some(Hits(answer, truth, k) as real / k as real)
  }

  ghost predicate Distinct(xs: seq<nat>) {
    forall i, j :: 0 <= i < j < |xs| ==> xs[i] != xs[j]
  }

  lemma {:induction false} ListSize(xs: seq<nat>)
    ensures |Elements(xs)| <= |xs|
    ensures |Elements(xs)| == |xs| <==> Distinct(xs)
    decreases |xs|
  {
    if xs != [] {
      var front, last := xs[..|xs| - 1], xs[|xs| - 1];
      ListSize(front);
      assert Elements(xs) == Elements(front) + {last};
      if last in front {
        assert Elements(xs) == Elements(front);
        var i :| 0 <= i < |front| && front[i] == last;
        assert xs[i] == xs[|xs| - 1];
      } else if Distinct(front) {
        forall i, j | 0 <= i < j < |xs|
          ensures xs[i] != xs[j]
        {
          assert xs[i] == front[i];
        }
      }
    }
  }

  lemma {:induction false} FullHitsIff(answer: seq<nat>, truth: Truth, k: nat)
    requires k >= 1
    ensures Hits(answer, truth, k) <= k
    ensures Hits(answer, truth, k) == k
            <==> |answer| >= k && Distinct(answer[..k]) && forall i :: i in answer[..k] ==> i in truth.members
  {
    var top := Top(answer, k);
    var all := Elements(top);
    var hit := all * truth.members;
    ListSize(top);
    SubsetSize(hit, all);
    if |hit| == k {
      assert |top| == k && |all| == k;
      assert answer[..k] == top;
      FullSubset(hit, all);
      forall i | i in answer[..k]
        ensures i in truth.members
      {
        assert i in all;
      }
    }
    if |answer| >= k && Distinct(answer[..k]) && forall i :: i in answer[..k] ==> i in truth.members {
      assert answer[..k] == top;
      assert hit == all;
    }
  }

  lemma {:induction false} Fraction(n: nat, k: nat)
    requires n <= k && k >= 1
    ensures 0.0 <= n as real / k as real <= 1.0
    ensures n as real / k as real == 1.0 <==> n == k
  {
    var q := n as real / k as real;
    assert q * k as real == n as real;
  }

  /** Recall is between 0 and 1, and it is 1 exactly when the answer starts with k distinct
      generous members. */
  lemma {:induction false} PerfectRecallIff(answer: seq<nat>, truth: Truth, k: int)
    requires k >= 1
    ensures var r := RecallAtK(answer, truth, k).value;
            && 0.0 <= r <= 1.0
            && (r == 1.0 <==> |answer| >= k && Distinct(answer[..k]) && forall i :: i in answer[..k] ==> i in truth.members)
  {
    FullHitsIff(answer, truth, k);
    Fraction(Hits(answer, truth, k), k);
  }

  lemma {:induction false} FullSubset(a: set<nat>, b: set<nat>)
    requires a <= b && |a| == |b|
    ensures a == b
  {
    assert b == a + (b - a);
  }

  /** A k-element answer that no outsider beats, ties broken in any way. */
  ghost predicate ExactTopK(answer: seq<nat>, scores: seq<real>, k: nat) {
    && |answer| == k && Distinct(answer)
    && (forall i :: i in answer ==> i < |scores|)
    && (forall i, o: nat :: i in answer && o < |scores| && o !in answer ==> scores[i] <= scores[o])
  }

  /** Any exact top-k answer has recall exactly 1, whatever the tie-breaking. */
  lemma {:induction false} ExactAnswerHasPerfectRecall(answer: seq<nat>, scores: seq<real>, k: nat)
    requires k >= 1 && ExactTopK(answer, scores, k)
    ensures RecallAtK(answer, GroundTruthOf(scores, k).value, k) == Some(1.0)
  {
    var truth := GroundTruthOf(scores, k).value;
    assert answer[..k] == answer;
    var all := Elements(answer);
    ListSize(answer);
    forall i | i in answer
      ensures i in truth.members
    {
      assert Closer(scores, i) <= all - {i};
      SubsetSize(Closer(scores, i), all - {i});
      MemberIffFewerThanKCloser(scores, k, i);
    }
    PerfectRecallIff(answer, truth, k);
  }

  /** A larger k admits every record a smaller k admits. */
  lemma {:induction false} MembersGrowWithK(scores: seq<real>, k: nat, k': nat)
    requires 1 <= k <= k'
    ensures GroundTruthOf(scores, k).value.members <= GroundTruthOf(scores, k').value.members
  {
    MembersAreRecords(scores, k);
    forall i | i in GroundTruthOf(scores, k).value.members
      ensures i in GroundTruthOf(scores, k').value.members
    {
      MemberIffFewerThanKCloser(scores, k, i);
      MemberIffFewerThanKCloser(scores, k', i);
    }
  }

  // ----- Overlap of two truths

  /** Every member is a record the truth scored. */
  predicate Grounded(t: Truth) { t.members <= Indices(t.ordered) }

  /** `generous_overlap`; it refuses k < 1 and members no oracle scored. */
  function GenerousOverlap(pre: Truth, post: Truth, k: int): Option<real> {
    if k < 1 || !Grounded(pre) || !Grounded(post) then None
    else
      var common := |pre.members * post.members|;
      Some((if common < k then common else k) as real / k as real)
  }

  /** Symmetric, within [0, 1], and 1 exactly when the generous bands share k records. */
  lemma {:induction false} OverlapIsSymmetric(pre: Truth, post: Truth, k: int)
    ensures GenerousOverlap(pre, post, k) == GenerousOverlap(post, pre, k)
    ensures GenerousOverlap(pre, post, k).Some? ==>
              var o := GenerousOverlap(pre, post, k).value;
              0.0 <= o <= 1.0 && (o == 1.0 <==> |pre.members * post.members| >= k)
  {
    assert pre.members * post.members == post.members * pre.members;
    if GenerousOverlap(pre, post, k).Some? {
      var n := |pre.members * post.members|;
      Fraction(if n < k then n else k, k);
    }
  }

  /** A truth computed by `ground_truth` always passes the overlap's own check. */
  lemma {:induction false} ComputedTruthIsGrounded(scores: seq<real>, k: int)
    requires k >= 1
    ensures Grounded(GroundTruthOf(scores, k).value)
  {
    var t := GroundTruthOf(scores, k).value;
    forall i | i in t.members
      ensures i in Indices(t.ordered)
    {
      var s :| s in t.ordered && s.score <= t.cut && s.index == i;
    }
  }

  // ----- Comparing an accelerated oracle with the canonical one

  datatype Verdict = Agreed | UnusableTolerance | MembersDiffer | CanonicalTwice | FastTwice | OtherRecords | TooFar(index: nat) | NotFinite(index: nat)

  /** A distance as an oracle reports it. */
  datatype Distance = Finite(value: real) | NonFinite

  /** A truth as the comparison receives it. */
  datatype Judged = Judged(ordered: seq<Scored<Distance>>, members: set<nat>)

  function Abs(x: real): real { if x < 0.0 then -x else x }
  function MaxOne(x: real): real { if x > 1.0 then x else 1.0 }

  /** Both distances are finite and relatively close. */
  predicate Within(score: Distance, other: Distance, eps: real) {
    score.Finite? && other.Finite? && Abs(other.value - score.value) / MaxOne(Abs(score.value)) <= eps
  }

  /** What two truths can agree on. */
  datatype Aspect = SameMembers | ListedOnce | SameRecords | SameDistances

  ghost predicate AgreeOn(aspect: Aspect, canonical: Judged, fast: Judged, eps: real) {
    match aspect
    case SameMembers => canonical.members == fast.members
    case ListedOnce => DistinctIndices(canonical.ordered) && DistinctIndices(fast.ordered)
    case SameRecords => Indices(canonical.ordered) == Indices(fast.ordered)
    case SameDistances => forall s, t :: Close(canonical, fast, s, t, eps)
  }

  ghost predicate Agree(canonical: Judged, fast: Judged, eps: real) {
    forall aspect: Aspect :: AgreeOn(aspect, canonical, fast, eps)
  }

  /** Entries of the two truths for the same record are within the tolerance. */
  ghost predicate Close(canonical: Judged, fast: Judged, s: Scored<Distance>, t: Scored<Distance>, eps: real) {
    s in canonical.ordered && t in fast.ordered && s.index == t.index ==> Within(s.score, t.score, eps)
  }

  function IndexList<S>(xs: seq<Scored<S>>): (r: seq<nat>)
    ensures |r| == |xs| && forall i :: 0 <= i < |xs| ==> r[i] == xs[i].index
  {
    if xs == [] then [] else IndexList(xs[..|xs| - 1]) + [xs[|xs| - 1].index]
  }

  lemma {:induction false} IndexListSize<S>(xs: seq<Scored<S>>)
    ensures Elements(IndexList(xs)) == Indices(xs)
    ensures |IndexList(xs)| == |Elements(IndexList(xs))| <==> DistinctIndices(xs)
  {
    var list := IndexList(xs);
    ListSize(list);
    assert Distinct(list) <==> DistinctIndices(xs) by {
      if Distinct(list) {
        forall i, j | 0 <= i < j < |xs|
          ensures xs[i].index != xs[j].index
        {
          assert list[i] != list[j];
        }
      }
    }
    forall i
      ensures i in list <==> i in Indices(xs)
    {
      if i in list {
        var p :| 0 <= p < |list| && list[p] == i;
        assert xs[p] in xs;
      }
      if i in Indices(xs) {
        var s :| s in xs && s.index == i;
        var p :| 0 <= p < |xs| && xs[p] == s;
        assert list[p] == i;
      }
    }
  }

  /** The score the last entry of a record carries, as a dictionary keeps it. */
  function ScoreOf(xs: seq<Scored<Distance>>, index: nat): Distance
    requires index in Indices(xs)
  {
    var last := xs[|xs| - 1];
    if last.index == index then last.score
    else
      assert xs == xs[..|xs| - 1] + [last];
      ScoreOf(xs[..|xs| - 1], index)
  }

  lemma {:induction false} ScoreOfEntry(xs: seq<Scored<Distance>>, s: Scored<Distance>)
    requires DistinctIndices(xs) && s in xs
    ensures s.index in Indices(xs) && ScoreOf(xs, s.index) == s.score
    decreases |xs|
  {
    var front := xs[..|xs| - 1];
    if xs[|xs| - 1].index != s.index {
      assert s in front;
      ScoreOfEntry(front, s);
    } else {
      var i :| 0 <= i < |xs| && xs[i] == s;
      assert i == |xs| - 1;
    }
  }

  /** Entry `n` of the canonical truth has a close partner: every entry the other truth has for
      its record is within the tolerance. */
  ghost predicate CloseAt(canonical: Judged, fast: Judged, eps: real, n: nat)
    requires n < |canonical.ordered|
  {
    forall t :: Close(canonical, fast, canonical.ordered[n], t, eps)
  }

  ghost predicate FiniteAt(canonical: Judged, fast: Judged, n: nat)
    requires n < |canonical.ordered|
  {
    var s := canonical.ordered[n];
    s.score.Finite? && forall t :: t in fast.ordered && t.index == s.index ==> t.score.Finite?
  }

  /** Entry `n` is the first without a close partner, and it is about record `index`. */
  ghost predicate FirstApart(canonical: Judged, fast: Judged, eps: real, n: nat, index: nat) {
    && n < |canonical.ordered| && canonical.ordered[n].index == index && !CloseAt(canonical, fast, eps, n)
    && forall m: nat :: m < n ==> CloseAt(canonical, fast, eps, m)
  }

  ghost predicate Comparable(canonical: Judged, fast: Judged) {
    && canonical.members == fast.members && DistinctIndices(canonical.ordered) && DistinctIndices(fast.ordered)
    && Indices(canonical.ordered) == Indices(fast.ordered)
  }

  /** What each verdict says: the first thing on which the two truths disagree. */
  ghost predicate Names(v: Verdict, canonical: Judged, fast: Judged, eps: real) {
    if eps < 0.0 then v == UnusableTolerance
    else if canonical.members != fast.members then v == MembersDiffer
    else if !DistinctIndices(canonical.ordered) then v == CanonicalTwice
    else if !DistinctIndices(fast.ordered) then v == FastTwice
    else if Indices(canonical.ordered) != Indices(fast.ordered) then v == OtherRecords
    else match v
      case Agreed => Agree(canonical, fast, eps)
      case TooFar(i) => exists n: nat :: FirstApart(canonical, fast, eps, n, i) && FiniteAt(canonical, fast, n)
      case NotFinite(i) => exists n: nat :: FirstApart(canonical, fast, eps, n, i) && !FiniteAt(canonical, fast, n)
      case _ => false
  }

  /** `compare_truths`: refuses a negative tolerance; agrees exactly when membership, the scored
      records and every distance of the whole subset agree, which a distance that is not finite
      never does; otherwise it names the first disagreement. */
  method CompareTruths(canonical: Judged, fast: Judged, eps: real) returns (v: Verdict)
    ensures v.UnusableTolerance? <==> eps < 0.0
    ensures v.Agreed? <==> eps >= 0.0 && Agree(canonical, fast, eps)
    ensures Names(v, canonical, fast, eps)
  {
    if eps < 0.0 {
      return UnusableTolerance;
    }
    v := CompareRecords(canonical, fast, eps);
    if v.Agreed? {
      v := CompareDistances(canonical, fast, eps);
    }
  }

  method CompareRecords(canonical: Judged, fast: Judged, ghost eps: real) returns (v: Verdict)
    requires eps >= 0.0
    ensures v.Agreed? <==> Comparable(canonical, fast)
    ensures !v.Agreed? ==> !Agree(canonical, fast, eps) && Names(v, canonical, fast, eps)
    ensures !v.UnusableTolerance?
  {
    if canonical.members != fast.members {
      assert !AgreeOn(SameMembers, canonical, fast, eps);
      return MembersDiffer;
    }
    var canonicalIds, fastIds := IndexList(canonical.ordered), IndexList(fast.ordered);
    IndexListSize(canonical.ordered);
    IndexListSize(fast.ordered);
    if |canonicalIds| != |Elements(canonicalIds)| {
      assert !AgreeOn(ListedOnce, canonical, fast, eps);
      return CanonicalTwice;
    }
    if |fastIds| != |Elements(fastIds)| {
      assert !AgreeOn(ListedOnce, canonical, fast, eps);
      return FastTwice;
    }
    if Indices(fast.ordered) != Elements(canonicalIds) {
      assert !AgreeOn(SameRecords, canonical, fast, eps);
      return OtherRecords;
    }
    return Agreed;
  }

  method CompareDistances(canonical: Judged, fast: Judged, eps: real) returns (v: Verdict)
    requires Comparable(canonical, fast) && eps >= 0.0
    ensures v.Agreed? <==> Agree(canonical, fast, eps)
    ensures !v.UnusableTolerance?
    ensures Names(v, canonical, fast, eps)
  {
    for n := 0 to |canonical.ordered|
      invariant forall m: nat :: m < n ==> CloseAt(canonical, fast, eps, m)
    {
      var s := canonical.ordered[n];
      assert s in canonical.ordered;
      var other := ScoreOf(fast.ordered, s.index);
      DictionaryDecides(canonical, fast, eps, n);
      if !Within(s.score, other, eps) {
        assert FirstApart(canonical, fast, eps, n, s.index);
        FarIsDisagreement(canonical, fast, eps, n);
        return if s.score.Finite? && other.Finite? then TooFar(s.index) else NotFinite(s.index);
      }
    }
    AllClose(canonical, fast, eps);
    return Agreed;
  }

  /** With each record listed once, the dictionary's entry is the only partner. */
  lemma {:induction false} DictionaryDecides(canonical: Judged, fast: Judged, eps: real, n: nat)
    requires Comparable(canonical, fast) && n < |canonical.ordered|
    ensures var s := canonical.ordered[n];
            && s.index in Indices(fast.ordered)
            && (CloseAt(canonical, fast, eps, n) <==> Within(s.score, ScoreOf(fast.ordered, s.index), eps))
            && (FiniteAt(canonical, fast, n) <==> s.score.Finite? && ScoreOf(fast.ordered, s.index).Finite?)
  {
    var s := canonical.ordered[n];
    assert s in canonical.ordered;
    EntryWithScore(fast.ordered, s.index);
    var partner := Scored(ScoreOf(fast.ordered, s.index), s.index);
    assert Close(canonical, fast, s, partner, eps) <==> Within(s.score, partner.score, eps);
    forall t | t in fast.ordered && t.index == s.index
      ensures t == partner
    {
      ScoreOfEntry(fast.ordered, t);
    }
  }

  lemma {:induction false} FarIsDisagreement(canonical: Judged, fast: Judged, eps: real, n: nat)
    requires n < |canonical.ordered| && !CloseAt(canonical, fast, eps, n)
    ensures !Agree(canonical, fast, eps)
  {
    var t :| !Close(canonical, fast, canonical.ordered[n], t, eps);
    assert !AgreeOn(SameDistances, canonical, fast, eps);
  }

  lemma {:induction false} AllClose(canonical: Judged, fast: Judged, eps: real)
    requires Comparable(canonical, fast)
    requires forall n: nat :: n < |canonical.ordered| ==> CloseAt(canonical, fast, eps, n)
    ensures Agree(canonical, fast, eps)
  {
    forall s, t
      ensures Close(canonical, fast, s, t, eps)
    {
      if s in canonical.ordered {
        var n :| 0 <= n < |canonical.ordered| && canonical.ordered[n] == s;
        assert CloseAt(canonical, fast, eps, n);
      }
    }
    forall aspect: Aspect
      ensures AgreeOn(aspect, canonical, fast, eps)
    {
    }
  }

  /** There is only one verdict two truths can get. */
  lemma {:induction false} VerdictIsDetermined(v: Verdict, w: Verdict, canonical: Judged, fast: Judged, eps: real)
    requires Names(v, canonical, fast, eps) && Names(w, canonical, fast, eps)
    ensures v == w
  {
    if eps >= 0.0 && Comparable(canonical, fast) {
      if v.TooFar? || v.NotFinite? {
        var n: nat :| FirstApart(canonical, fast, eps, n, v.index) && (v.TooFar? <==> FiniteAt(canonical, fast, n));
        FarIsDisagreement(canonical, fast, eps, n);
        var m: nat :| FirstApart(canonical, fast, eps, m, w.index) && (w.TooFar? <==> FiniteAt(canonical, fast, m));
        assert m == n;
      } else if w.TooFar? || w.NotFinite? {
        var m: nat :| FirstApart(canonical, fast, eps, m, w.index) && (w.TooFar? <==> FiniteAt(canonical, fast, m));
        FarIsDisagreement(canonical, fast, eps, m);
      }
    }
  }

  lemma {:induction false} EntryWithScore(xs: seq<Scored<Distance>>, index: nat)
    requires DistinctIndices(xs) && index in Indices(xs)
    ensures Scored(ScoreOf(xs, index), index) in xs
  {
    var s :| s in xs && s.index == index;
    ScoreOfEntry(xs, s);
  }

  function Finitely(ordered: seq<Scored<real>>): (r: seq<Scored<Distance>>)
    ensures |r| == |ordered| && forall i :: 0 <= i < |r| ==> r[i] == Scored(Finite(ordered[i].score), ordered[i].index)
  {
    if ordered == [] then []
    else
      var last := ordered[|ordered| - 1];
      Finitely(ordered[..|ordered| - 1]) + [Scored(Finite(last.score), last.index)]
  }

  /** The ground truth over finite distances, as the comparison receives it. */
  function JudgedTruth(scores: seq<real>, k: int): Judged
    requires k >= 1
  {
    var truth := GroundTruthOf(scores, k).value;
    Judged(Finitely(truth.ordered), truth.members)
  }

  function Truths(distances: seq<seq<real>>, k: int): (r: seq<Judged>)
    requires k >= 1
    ensures |r| == |distances|
  {
    if distances == [] then []
    else Truths(distances[..|distances| - 1], k) + [JudgedTruth(distances[|distances| - 1], k)]
  }

  lemma {:induction false} TruthsAt(distances: seq<seq<real>>, k: int, q: nat)
    requires k >= 1 && q < |distances|
    ensures Truths(distances, k)[q] == JudgedTruth(distances[q], k)
    decreases |distances|
  {
    if q < |distances| - 1 { TruthsAt(distances[..|distances| - 1], k, q); }
  }

  ghost predicate AgreeAt(canonical: seq<Judged>, accelerated: seq<Judged>, eps: real, q: nat)
    requires q < |canonical| == |accelerated|
  {
    Agree(canonical[q], accelerated[q], eps)
  }

  /** The two truths agree on each of the first `n` queries. */
  ghost predicate AgreeUpTo(canonical: seq<Judged>, accelerated: seq<Judged>, eps: real, n: nat)
    requires n <= |canonical| == |accelerated|
  {
    forall q: nat :: q < n ==> AgreeAt(canonical, accelerated, eps, q)
  }

  /** Query `q` gets the verdict `v`, and all queries before it agree. */
  ghost predicate DecidedAt(canonical: seq<Judged>, accelerated: seq<Judged>, eps: real, q: nat, v: Verdict)
    requires q < |canonical| == |accelerated|
  {
    && AgreeUpTo(canonical, accelerated, eps, q)
    && Names(v, canonical[q], accelerated[q], eps)
    && (v.Agreed? <==> AgreeAt(canonical, accelerated, eps, q))
  }

  method CompareQueries(canonical: seq<Judged>, accelerated: seq<Judged>, eps: real) returns (v: Verdict, queries: nat)
    requires |canonical| == |accelerated| && canonical != [] && eps >= 0.0
    ensures 1 <= queries <= |canonical| && DecidedAt(canonical, accelerated, eps, queries - 1, v)
    ensures v.Agreed? ==> queries == |canonical|
  {
    v, queries := Agreed, 0;
    while queries < |canonical| && v.Agreed?
      invariant queries <= |canonical|
      invariant if queries == 0 then v == Agreed else DecidedAt(canonical, accelerated, eps, queries - 1, v)
      decreases |canonical| - queries
    {
      NextQuery(canonical, accelerated, eps, queries, v);
      v := CompareTruths(canonical[queries], accelerated[queries], eps);
      queries := queries + 1;
    }
  }

  lemma {:induction false} NextQuery(canonical: seq<Judged>, accelerated: seq<Judged>, eps: real, n: nat, v: Verdict)
    requires n <= |canonical| == |accelerated| && v.Agreed?
    requires n > 0 ==> DecidedAt(canonical, accelerated, eps, n - 1, v)
    ensures AgreeUpTo(canonical, accelerated, eps, n)
  {
  }

  ghost predicate OraclesAgreeOn(scores: seq<real>, others: seq<real>, k: int, eps: real)
    requires k >= 1
  {
    Agree(JudgedTruth(scores, k), JudgedTruth(others, k), eps)
  }

  /** The two ground truths of every query agree. */
  ghost predicate OraclesAgree(canonical: seq<seq<real>>, accelerated: seq<seq<real>>, k: int, eps: real)
    requires k >= 1 && |canonical| == |accelerated|
  {
    forall q :: 0 <= q < |canonical| ==> OraclesAgreeOn(canonical[q], accelerated[q], k, eps)
  }

  /** Agreement over the truths is agreement of the two ground truths of each query. */
  lemma {:induction false} TruthsAgree(canonical: seq<seq<real>>, accelerated: seq<seq<real>>, k: int, eps: real)
    requires k >= 1 && |canonical| == |accelerated|
    ensures AgreeUpTo(Truths(canonical, k), Truths(accelerated, k), eps, |canonical|)
       <==> OraclesAgree(canonical, accelerated, k, eps)
  {
    forall q: nat | q < |canonical|
      ensures AgreeAt(Truths(canonical, k), Truths(accelerated, k), eps, q)
         <==> OraclesAgreeOn(canonical[q], accelerated[q], k, eps)
    {
      TruthsAt(canonical, k, q);
      TruthsAt(accelerated, k, q);
    }
  }

  datatype Differential = Refused | Checked(agreed: bool, queries: nat, first: Verdict)

  datatype Finding = Overall | Counted | FirstNamed

  ghost predicate Reports(f: Finding, d: Differential, canonical: seq<seq<real>>, accelerated: seq<seq<real>>, k: int, eps: real)
    requires d.Checked? && k >= 1 && |canonical| == |accelerated|
  {
    match f
    case Overall => d.agreed <==> OraclesAgree(canonical, accelerated, k, eps)
    case Counted => 1 <= d.queries <= |canonical| && (d.agreed ==> d.queries == |canonical|)
    case FirstNamed =>
      && 1 <= d.queries <= |canonical| && (d.agreed <==> d.first.Agreed?)
      && DecidedAt(Truths(canonical, k), Truths(accelerated, k), eps, d.queries - 1, d.first)
  }

  /** The report is true: the oracles agree exactly when the two ground truths of every query do,
      and the last query counted is the first whose truths disagree, in the way it says. */
  ghost predicate ReportIsTrue(d: Differential, canonical: seq<seq<real>>, accelerated: seq<seq<real>>, k: int, eps: real)
    requires d.Checked? && k >= 1 && |canonical| == |accelerated|
  {
    forall f: Finding :: Reports(f, d, canonical, accelerated, k, eps)
  }

  /** The differential over the frozen queries, given the distances of both oracles from each
      query to every one of the corpus's `records`. It refuses a vacuous comparison and otherwise
      reports truly whether and where the oracles first disagree. */
  method CompareOracles(canonical: seq<seq<real>>, accelerated: seq<seq<real>>, records: nat, k: int, eps: real)
    returns (d: Differential)
    requires |canonical| == |accelerated|
    requires forall q :: 0 <= q < |canonical| ==> |canonical[q]| == |accelerated[q]| == records
    ensures d.Refused? <==> eps < 0.0 || records == 0 || canonical == [] || k <= 0
    ensures d.Checked? ==> ReportIsTrue(d, canonical, accelerated, k, eps)
  {
    if eps < 0.0 || records == 0 || canonical == [] || k <= 0 {
      return Refused;
    }
    var v, queries := CompareQueries(Truths(canonical, k), Truths(accelerated, k), eps);
    d := Checked(v.Agreed?, queries, v);
    QueriesReportTruly(d, canonical, accelerated, k, eps);
  }

  lemma {:induction false} QueriesReportTruly(d: Differential, canonical: seq<seq<real>>, accelerated: seq<seq<real>>, k: int,
                                              eps: real)
    requires d.Checked? && k >= 1 && |canonical| == |accelerated| && (d.agreed <==> d.first.Agreed?)
    requires 1 <= d.queries <= |canonical| && (d.agreed ==> d.queries == |canonical|)
    requires DecidedAt(Truths(canonical, k), Truths(accelerated, k), eps, d.queries - 1, d.first)
    ensures ReportIsTrue(d, canonical, accelerated, k, eps)
  {
    LastDecides(Truths(canonical, k), Truths(accelerated, k), eps, d.queries, d.first);
    TruthsAgree(canonical, accelerated, k, eps);
    forall f: Finding
      ensures Reports(f, d, canonical, accelerated, k, eps)
    {
      match f
      case Overall =>
      case Counted =>
      case FirstNamed =>
    }
  }

  lemma {:induction false} LastDecides(canonical: seq<Judged>, accelerated: seq<Judged>, eps: real, queries: nat, v: Verdict)
    requires 1 <= queries <= |canonical| == |accelerated| && (v.Agreed? ==> queries == |canonical|)
    requires DecidedAt(canonical, accelerated, eps, queries - 1, v)
    ensures v.Agreed? <==> AgreeUpTo(canonical, accelerated, eps, |canonical|)
  {
  }
}
