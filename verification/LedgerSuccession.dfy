/** The versioned conformance ledger: freezing a reviewed first profile, expanding it twice by
    explicit decisions, and verifying any version against its source and its ancestors.
 */
module LedgerSuccession {
  import opened Basics

  datatype Result<+T> = Ok(value: T) | Refused

  /** The architectural boundaries a counterexample can witness. */
  datatype Rule = UnlabeledCreate | Multilabel | FiniteArithmetic | NestedStorage | OtherRule(name: string)

  datatype Evidence = Evidence(rule: Rule, step: int, counterexample: string, expectedError: string)

  datatype RootCause = NoCause | NotDiagnosed | InitialExecutionPending | DeclaredModelDivergence
                     | ExpansionExecutionPending | MultilabelExecutionPending | DeclaredNestedStorageDivergence

  datatype Profile = Required(authority: Option<string>) | Divergent(decision: string, evidence: seq<Evidence>)

  /** The observed conformance of a case; `Unrecognised` stands for any other text. */
  datatype Outcome = Passed | Failed | NotRun | AdaptedPassed | Unrecognised

  /** A case of the report with what the tool derives from its source: checksum, expected
      contract, observed status and the counterexamples its source itself proves. `readable`
      says every step is of a known family, `ownable` that its capability has an owner. */
  datatype Case = Case(id: string, uri: string, checksum: string, expected: string, status: Outcome,
                       candidates: seq<Evidence>, readable: bool, ownable: bool)

  datatype Fixture = Fixture(query: string, sha: string)

  datatype Report = Report(revision: string, fixtures: map<string, Fixture>, cases: seq<Case>, caseCount: int,
                           featureSha: map<string, string>)

  /** A ledger entry; `about` stands for ownership, step families and historical observations,
      which no later version touches. */
  datatype Entry = Entry(id: string, checksum: string, source: string, expected: string, about: Case,
                         profile: Profile, rootCause: RootCause)

  datatype ProfileId = V1 | V2 | V3
  datatype Status = Draft | FrozenCheckpointA | FrozenModelExpansion | FrozenMultilabel

  datatype Change = Change(id: string, checksum: string, previous: Profile, current: Profile)
  datatype Ancestor = Ancestor(profileId: ProfileId, digest: string)
  datatype Counts = Counts(required: nat, divergent: nat)

  datatype Ledger = Ledger(
    schema: int, profileId: ProfileId, status: Status, revision: string,
    fixtures: map<string, string>, caseCount: int, entries: seq<Entry>,
    decision: Option<string>, nestedDecision: Option<string>,
    predecessor: Option<Ancestor>, changes: seq<Change>, counts: Option<Counts>)

  /** The two hash functions in use: of a fixture's query text and of a ledger's canonical form. */
  datatype Hashing = Hashing(text: string -> string, ledger: Ledger -> string)

  datatype Reviewed = Reviewed(id: string, checksum: string, evidence: seq<Evidence>)
  datatype Review = Review(revision: string, cases: seq<Reviewed>)

  const NESTED_CASE := "clauses/set/Set1.feature#0010"
  const NESTED_CHECKSUM := "101a110fe6773e7cc0e3d04f65833ad656e14105c34ed0cd677212689b4564fd"
  const NESTED_EVIDENCE := Evidence(NestedStorage, 1,
                                    "CREATE (a)\nSET a.maplist = [{num: 1}]", "TypeError/runtime/InvalidPropertyType")

  predicate Space(c: char) {
    var n := c as int;
    || 9 <= n <= 13 || 28 <= n <= 32 || n == 0x85 || n == 0xA0 || n == 0x1680
    || 0x2000 <= n <= 0x200A || n == 0x2028 || n == 0x2029 || n == 0x202F || n == 0x205F || n == 0x3000
  }

  predicate Blank(s: string) { forall c :: c in s ==> Space(c) }

  function Tally(entries: seq<Entry>): Counts {
    if entries == [] then Counts(0, 0)
    else
      var t := Tally(entries[..|entries| - 1]);
      if entries[|entries| - 1].profile.Required? then t.(required := t.required + 1) else t.(divergent := t.divergent + 1)
  }

  predicate UniqueCases(cases: seq<Case>) {
    forall i, j :: 0 <= i < j < |cases| ==> cases[i].id != cases[j].id
  }

  predicate UniqueEntries(entries: seq<Entry>) {
    forall i, j :: 0 <= i < j < |entries| ==> entries[i].id != entries[j].id
  }

  predicate UniqueReviews(cases: seq<Reviewed>) {
    forall i, j :: 0 <= i < j < |cases| ==> cases[i].id != cases[j].id
  }

  // ----- Building and freezing

  predicate Buildable(c: Case, report: Report) {
    c.readable && c.ownable && c.status != Unrecognised && c.uri in report.featureSha
  }

  function FreshEntry(c: Case, report: Report): Entry
    requires Buildable(c, report)
  {
    Entry(c.id, c.checksum, report.featureSha[c.uri], c.expected, c, Required(None),
          if c.status == Passed then NoCause else NotDiagnosed)
  }

  function FreshEntries(cases: seq<Case>, report: Report): (r: seq<Entry>)
    requires forall c :: c in cases ==> Buildable(c, report)
    ensures |r| == |cases| && forall i :: 0 <= i < |cases| ==> r[i] == FreshEntry(cases[i], report)
  {
    if cases == [] then [] else FreshEntries(cases[..|cases| - 1], report) + [FreshEntry(cases[|cases| - 1], report)]
  }

  function FixtureHashes(report: Report): map<string, string> {
    map name | name in report.fixtures :: report.fixtures[name].sha
  }

  predicate BuildsFrom(report: Report) {
    && UniqueCases(report.cases) && (forall c :: c in report.cases ==> Buildable(c, report))
    && |report.cases| == report.caseCount
  }

  function BuildLedger(report: Report): Result<Ledger> {
    if BuildsFrom(report) then
      Ok(Ledger(1, V1, Draft, report.revision, FixtureHashes(report), |report.cases|,
                FreshEntries(report.cases, report), None, None, None, [], None))
    else Refused
  }

  predicate Approved(e: Evidence) {
    (e.rule == UnlabeledCreate || e.rule == Multilabel || e.rule == FiniteArithmetic) && e.counterexample != ""
  }

  /** A reviewed case names an entry, binds its source, and shows counterexamples that the
      source proves and the boundaries approve. */
  predicate ReviewHolds(r: Reviewed, entries: seq<Entry>) {
    exists i :: 0 <= i < |entries| && ReviewHoldsAt(r, entries[i])
  }

  predicate ReviewHoldsAt(r: Reviewed, e: Entry) {
    && e.id == r.id && e.checksum == r.checksum && r.evidence != []
    && forall x :: x in r.evidence ==> x in e.about.candidates && Approved(x)
  }

  function ReviewFor(cases: seq<Reviewed>, id: string): Option<seq<Evidence>> {
    if cases == [] then None
    else if cases[|cases| - 1].id == id then Some(cases[|cases| - 1].evidence)
    else ReviewFor(cases[..|cases| - 1], id)
  }

  function Marked(e: Entry, cases: seq<Reviewed>, decision: string): Entry {
    var review := ReviewFor(cases, e.id);
    if review.Some? then e.(profile := Divergent(decision, review.value), rootCause := DeclaredModelDivergence) else e
  }

  function Settled(e: Entry): Entry {
    if e.rootCause == NotDiagnosed then e.(rootCause := InitialExecutionPending) else e
  }

  function FrozenEntry(e: Entry, cases: seq<Reviewed>, decision: string): Entry { Settled(Marked(e, cases, decision)) }

  function FrozenEntries(entries: seq<Entry>, cases: seq<Reviewed>, decision: string): (r: seq<Entry>)
    ensures |r| == |entries| && forall i :: 0 <= i < |r| ==> r[i] == FrozenEntry(entries[i], cases, decision)
  {
    if entries == [] then []
    else FrozenEntries(entries[..|entries| - 1], cases, decision) + [FrozenEntry(entries[|entries| - 1], cases, decision)]
  }

  predicate ReviewsHold(cases: seq<Reviewed>, entries: seq<Entry>) {
    UniqueReviews(cases) && forall r :: r in cases ==> ReviewHolds(r, entries)
  }

  function FreezeLedger(report: Report, review: Review, decision: string): Result<Ledger> {
    if Blank(decision) || review.revision != report.revision then Refused
    else
      var built := BuildLedger(report);
      if built.Refused? || !ReviewsHold(review.cases, built.value.entries) then Refused
      else
        var entries := FrozenEntries(built.value.entries, review.cases, decision);
        Ok(built.value.(status := FrozenCheckpointA, decision := Some(decision), entries := entries,
                        counts := Some(Tally(entries))))
  }

  // ----- Verification and the two expansions

  /** The query behind every named fixture hashes to what the report claims. */
  predicate FixturesAuthentic(report: Report, h: Hashing) {
    forall name :: name in report.fixtures ==> h.text(report.fixtures[name].query) == report.fixtures[name].sha
  }

  predicate EntryMatches(e: Entry, c: Case, report: Report) {
    && e.id == c.id && e.checksum == c.checksum
    && c.uri in report.featureSha && e.source == report.featureSha[c.uri]
    && c.readable && e.expected == c.expected
  }

  predicate CaseCovered(c: Case, entries: seq<Entry>, report: Report) {
    exists i :: 0 <= i < |entries| && EntryMatches(entries[i], c, report)
  }

  predicate Covers(entries: seq<Entry>, report: Report) {
    && UniqueEntries(entries)
    && (forall c :: c in report.cases ==> CaseCovered(c, entries, report))
    && (forall e :: e in entries ==> Known(e.id, report.cases))
  }

  /** The checks every version has to pass: no case added, dropped or changed at the source. */
  predicate SourceMatches(l: Ledger, report: Report, h: Hashing) {
    && l.schema == 1 && l.revision == report.revision
    && (l.profileId == V2 ==> l.status == FrozenModelExpansion)
    && (l.profileId == V3 ==> l.status == FrozenMultilabel)
    && l.fixtures == FixtureHashes(report) && FixturesAuthentic(report, h)
    && UniqueCases(report.cases) && |l.entries| == |report.cases| == l.caseCount == report.caseCount
    && Covers(l.entries, report)
  }

  predicate Known(id: string, cases: seq<Case>) { exists i :: 0 <= i < |cases| && cases[i].id == id }

  /** The review a frozen first version carries in its own divergences. */
  function CarriedReview(entries: seq<Entry>): seq<Reviewed> {
    if entries == [] then []
    else
      var rest := CarriedReview(entries[..|entries| - 1]);
      var e := entries[|entries| - 1];
      if e.profile.Divergent? then rest + [Reviewed(e.id, e.checksum, e.profile.evidence)] else rest
  }

  predicate SameProfiles(a: seq<Entry>, b: seq<Entry>) {
    |a| == |b| && forall i :: 0 <= i < |a| ==> a[i].profile == b[i].profile
  }

  /** Freezing again from the review the ledger itself carries gives its profiles and counts. */
  predicate RefreezesAlike(l: Ledger, report: Report) {
    && l.decision.Some?
    && var checked := FreezeLedger(report, Review(report.revision, CarriedReview(l.entries)), l.decision.value);
    && checked.Ok? && SameProfiles(l.entries, checked.value.entries) && l.counts == checked.value.counts
  }

  function Rank(predecessor: Option<Ledger>, ancestor: Option<Ledger>): nat {
    (if predecessor.Some? then 1 else 0) + (if ancestor.Some? then 1 else 0)
  }

  /** `verify_ledger`; the mutual recursion with the expansions ends because every call hands
      on fewer ancestors. */
  predicate VerifyLedger(l: Ledger, report: Report, predecessor: Option<Ledger>, ancestor: Option<Ledger>, h: Hashing)
    decreases Rank(predecessor, ancestor), 0
  {
    && SourceMatches(l, report, h)
    && match l.status
       case Draft => true
       case FrozenCheckpointA => RefreezesAlike(l, report)
       case FrozenModelExpansion =>
         && predecessor.Some? && l.decision.Some?
         && ExpandFlexible(report, predecessor.value, l.decision.value, h) == Ok(l)
       case FrozenMultilabel =>
         && predecessor.Some? && ancestor.Some? && l.decision.Some? && l.nestedDecision.Some?
         && ExpandMultilabel(report, predecessor.value, ancestor.value, l.decision.value, l.nestedDecision.value, h) == Ok(l)
  }

  predicate Withdrawn(e: Evidence) {
    e.rule == UnlabeledCreate || (e.rule == FiniteArithmetic && e.counterexample == "NaN")
  }

  predicate LabelRule(e: Evidence) { e.rule == Multilabel }

  function Retained(evidence: seq<Evidence>, drop: Evidence -> bool): seq<Evidence> {
    if evidence == [] then []
    else
      var rest := Retained(evidence[..|evidence| - 1], drop);
      if drop(evidence[|evidence| - 1]) then rest else rest + [evidence[|evidence| - 1]]
  }

  /** Withdraws one kind of evidence from a divergence; a divergence left without evidence
      becomes a requirement. */
  function Withdraw(e: Entry, drop: Evidence -> bool, decision: string, pending: RootCause): Entry {
    if e.profile.Required? then e
    else
      var kept := Retained(e.profile.evidence, drop);
      if kept == e.profile.evidence then e
      else if kept == [] then e.(profile := Required(Some(decision)), rootCause := pending)
      else e.(profile := Divergent(decision, kept))
  }

  function FlexibleEntry(e: Entry, decision: string): Entry {
    Withdraw(e, Withdrawn, decision, ExpansionExecutionPending)
  }

  function FlexibleEntries(entries: seq<Entry>, decision: string): (r: seq<Entry>)
    ensures |r| == |entries| && forall i :: 0 <= i < |r| ==> r[i] == FlexibleEntry(entries[i], decision)
  {
    if entries == [] then []
    else FlexibleEntries(entries[..|entries| - 1], decision) + [FlexibleEntry(entries[|entries| - 1], decision)]
  }

  /** The recorded scope changes: every entry whose profile moved, with both profiles. */
  function ChangesBetween(before: seq<Entry>, after: seq<Entry>): seq<Change>
    requires |before| == |after|
  {
    if before == [] then []
    else
      var n := |before| - 1;
      var rest := ChangesBetween(before[..n], after[..n]);
      if before[n].profile == after[n].profile then rest
      else rest + [Change(before[n].id, before[n].checksum, before[n].profile, after[n].profile)]
  }

  /** `expand_flexible_ledger`: V1 to V2. */
  function ExpandFlexible(report: Report, predecessor: Ledger, decision: string, h: Hashing): Result<Ledger>
    decreases 0, 1
  {
    if Blank(decision) || predecessor.status != FrozenCheckpointA || predecessor.profileId != V1
       || !VerifyLedger(predecessor, report, None, None, h)
    then Refused
    else
      var entries := FlexibleEntries(predecessor.entries, decision);
      Ok(predecessor.(profileId := V2, status := FrozenModelExpansion, decision := Some(decision),
                      predecessor := Some(Ancestor(V1, h.ledger(predecessor))),
                      changes := ChangesBetween(predecessor.entries, entries),
                      entries := entries, counts := Some(Tally(entries))))
  }

  /** The pinned case has already left the required scope. */
  predicate PinnedDiverges(e: Entry) { e.id == NESTED_CASE && e.profile.Divergent? }

  function MultilabelEntry(e: Entry, decision: string, nested: string): Entry {
    if e.id == NESTED_CASE then
      e.(profile := Divergent(nested, [NESTED_EVIDENCE]), rootCause := DeclaredNestedStorageDivergence)
    else Withdraw(e, LabelRule, decision, MultilabelExecutionPending)
  }

  function MultilabelEntries(entries: seq<Entry>, decision: string, nested: string): (r: seq<Entry>)
    ensures |r| == |entries| && forall i :: 0 <= i < |r| ==> r[i] == MultilabelEntry(entries[i], decision, nested)
  {
    if entries == [] then []
    else MultilabelEntries(entries[..|entries| - 1], decision, nested)
         + [MultilabelEntry(entries[|entries| - 1], decision, nested)]
  }

  /** `expand_multilabel_ledger`: V2 to V3, with the one pinned case becoming a divergence. */
  function ExpandMultilabel(report: Report, predecessor: Ledger, ancestor: Ledger, decision: string, nested: string,
                            h: Hashing): Result<Ledger>
    decreases 1, 1
  {
    if Blank(decision) || Blank(nested) || predecessor.profileId != V2 || predecessor.status != FrozenModelExpansion
       || !VerifyLedger(predecessor, report, Some(ancestor), None, h)
       || !(exists c :: c in report.cases && c.id == NESTED_CASE && c.checksum == NESTED_CHECKSUM)
       || (exists e :: e in predecessor.entries && PinnedDiverges(e))
    then Refused
    else
      var entries := MultilabelEntries(predecessor.entries, decision, nested);
      Ok(predecessor.(profileId := V3, status := FrozenMultilabel, decision := Some(decision), nestedDecision := Some(nested),
                      predecessor := Some(Ancestor(V2, h.ledger(predecessor))),
                      changes := ChangesBetween(predecessor.entries, entries),
                      entries := entries, counts := Some(Tally(entries))))
  }

  // ----- A frozen first version is accepted exactly when its fixtures are authentic

  lemma {:induction false} ReviewForFound(cases: seq<Reviewed>, id: string)
    ensures ReviewFor(cases, id).Some? ==>
              exists r :: r in cases && r.id == id && r.evidence == ReviewFor(cases, id).value
    ensures ReviewFor(cases, id).None? ==> forall r :: r in cases ==> r.id != id
  {
    if cases != [] {
      var last := cases[|cases| - 1];
      ReviewForFound(cases[..|cases| - 1], id);
      assert cases == cases[..|cases| - 1] + [last];
      if last.id == id { assert last in cases; }
    }
  }

  predicate Carries(r: Reviewed, e: Entry) {
    e.profile.Divergent? && r == Reviewed(e.id, e.checksum, e.profile.evidence)
  }

  predicate CarriedFrom(r: Reviewed, entries: seq<Entry>) {
    exists i :: 0 <= i < |entries| && Carries(r, entries[i])
  }

  lemma {:induction false} CarriedOnce(entries: seq<Entry>)
    requires UniqueEntries(entries)
    ensures forall r :: r in CarriedReview(entries) ==> CarriedFrom(r, entries)
    ensures UniqueReviews(CarriedReview(entries))
  {
    if entries != [] {
      var n := |entries| - 1;
      var rest := CarriedReview(entries[..n]);
      CarriedOnce(entries[..n]);
      forall r | r in CarriedReview(entries)
        ensures CarriedFrom(r, entries)
      {
        if r in rest {
          var i :| 0 <= i < n && Carries(r, entries[..n][i]);
          assert Carries(r, entries[i]);
        } else {
          assert Carries(r, entries[n]);
        }
      }
      forall k | 0 <= k < |rest|
        ensures rest[k].id != entries[n].id
      {
        assert rest[k] in rest;
        assert CarriedFrom(rest[k], entries[..n]);
      }
    }
  }

  function EvidenceOf(p: Profile): Option<seq<Evidence>> {
    if p.Divergent? then Some(p.evidence) else None
  }

  lemma {:induction false} NotCarried(entries: seq<Entry>, id: string)
    requires forall i :: 0 <= i < |entries| ==> entries[i].id != id
    ensures ReviewFor(CarriedReview(entries), id) == None
  {
    if entries != [] {
      var n := |entries| - 1;
      var e := entries[n];
      var rest := CarriedReview(entries[..n]);
      NotCarried(entries[..n], id);
      if e.profile.Divergent? {
        var all := rest + [Reviewed(e.id, e.checksum, e.profile.evidence)];
        assert all[..|all| - 1] == rest;
      }
    }
  }

  lemma {:induction false} CarriedReviewFinds(entries: seq<Entry>, i: nat)
    requires UniqueEntries(entries) && i < |entries|
    ensures ReviewFor(CarriedReview(entries), entries[i].id) == EvidenceOf(entries[i].profile)
  {
    var n := |entries| - 1;
    var e := entries[n];
    var rest := CarriedReview(entries[..n]);
    if i < n {
      CarriedReviewFinds(entries[..n], i);
      if e.profile.Divergent? {
        var all := rest + [Reviewed(e.id, e.checksum, e.profile.evidence)];
        assert all[..|all| - 1] == rest;
      }
    } else {
      NotCarried(entries[..n], e.id);
    }
  }

  lemma {:induction false} DraftsCover(report: Report)
    requires BuildsFrom(report)
    ensures Covers(FreshEntries(report.cases, report), report)
  {
    var cases := report.cases;
    var drafts := FreshEntries(cases, report);
    forall c | c in cases
      ensures CaseCovered(c, drafts, report)
    {
      var i :| 0 <= i < |cases| && cases[i] == c;
      assert Buildable(c, report);
      assert EntryMatches(drafts[i], c, report);
    }
    forall e | e in drafts
      ensures Known(e.id, cases)
    {
      var i :| 0 <= i < |cases| && drafts[i] == e;
      assert cases[i].id == e.id;
    }
  }

  predicate SameSource(a: Entry, b: Entry) {
    a.id == b.id && a.checksum == b.checksum && a.source == b.source && a.expected == b.expected && a.about == b.about
  }

  lemma {:induction false} CoverageCarries(before: seq<Entry>, after: seq<Entry>, report: Report)
    requires |before| == |after| && forall i :: 0 <= i < |before| ==> SameSource(before[i], after[i])
    requires Covers(before, report)
    ensures Covers(after, report)
  {
    forall c | c in report.cases
      ensures CaseCovered(c, after, report)
    {
      assert CaseCovered(c, before, report);
      var i :| 0 <= i < |before| && EntryMatches(before[i], c, report);
      assert SameSource(before[i], after[i]);
      assert EntryMatches(after[i], c, report);
    }
    forall e | e in after
      ensures Known(e.id, report.cases)
    {
      var i :| 0 <= i < |after| && after[i] == e;
      assert SameSource(before[i], after[i]);
      assert before[i] in before;
    }
    forall i, j | 0 <= i < j < |after|
      ensures after[i].id != after[j].id
    {
      assert SameSource(before[i], after[i]) && SameSource(before[j], after[j]);
    }
  }

  /** What freezing produces, without the conditions under which it refuses. */
  predicate FrozenFrom(report: Report, cases: seq<Reviewed>, decision: string, l: Ledger) {
    && BuildsFrom(report) && !Blank(decision)
    && var drafts := FreshEntries(report.cases, report);
    && ReviewsHold(cases, drafts)
    && l.entries == FrozenEntries(drafts, cases, decision)
    && l.counts == Some(Tally(l.entries))
  }

  lemma {:induction false} FreezeShape(report: Report, review: Review, decision: string)
    ensures FreezeLedger(report, review, decision).Ok? <==>
              && review.revision == report.revision && !Blank(decision) && BuildsFrom(report)
              && ReviewsHold(review.cases, FreshEntries(report.cases, report))
    ensures FreezeLedger(report, review, decision).Ok? ==>
              && var l := FreezeLedger(report, review, decision).value;
              && FrozenFrom(report, review.cases, decision, l)
              && l.schema == 1 && l.profileId == V1 && l.status == FrozenCheckpointA && l.revision == report.revision
              && l.fixtures == FixtureHashes(report) && l.caseCount == |report.cases| && l.decision == Some(decision)
  {
  }

  /** Freezing does not touch what verification compares with the source. */
  lemma {:induction false} FrozenCovers(report: Report, cases: seq<Reviewed>, decision: string, l: Ledger)
    requires FrozenFrom(report, cases, decision, l)
    ensures Covers(l.entries, report) && |l.entries| == |report.cases|
  {
    var drafts := FreshEntries(report.cases, report);
    DraftsCover(report);
    forall i | 0 <= i < |drafts|
      ensures SameSource(drafts[i], l.entries[i])
    {
      assert l.entries[i] == FrozenEntry(drafts[i], cases, decision);
    }
    CoverageCarries(drafts, l.entries, report);
  }

  lemma {:induction false} FrozenReviewHolds(drafts: seq<Entry>, cases: seq<Reviewed>, decision: string)
    requires UniqueEntries(drafts) && ReviewsHold(cases, drafts)
    requires forall e :: e in drafts ==> e.profile == Required(None)
    ensures ReviewsHold(CarriedReview(FrozenEntries(drafts, cases, decision)), drafts)
  {
    var frozen := FrozenEntries(drafts, cases, decision);
    CarriedOnce(frozen);
    forall r | r in CarriedReview(frozen)
      ensures ReviewHolds(r, drafts)
    {
      assert CarriedFrom(r, frozen);
      var i :| 0 <= i < |frozen| && Carries(r, frozen[i]);
      FrozenDivergenceHolds(drafts, cases, decision, i);
      assert ReviewHoldsAt(r, drafts[i]);
    }
  }

  lemma {:induction false} FrozenDivergenceHolds(drafts: seq<Entry>, cases: seq<Reviewed>, decision: string, i: nat)
    requires UniqueEntries(drafts) && ReviewsHold(cases, drafts) && i < |drafts|
    requires drafts[i].profile.Required? && FrozenEntry(drafts[i], cases, decision).profile.Divergent?
    ensures ReviewHoldsAt(Reviewed(drafts[i].id, drafts[i].checksum,
                                   FrozenEntry(drafts[i], cases, decision).profile.evidence), drafts[i])
  {
    ReviewForFound(cases, drafts[i].id);
    var r :| r in cases && r.id == drafts[i].id && r.evidence == ReviewFor(cases, drafts[i].id).value;
    assert ReviewHolds(r, drafts);
    var j :| 0 <= j < |drafts| && ReviewHoldsAt(r, drafts[j]);
    assert j == i;
  }

  lemma {:induction false} RefrozenEntry(e: Entry, cases: seq<Reviewed>, carried: seq<Reviewed>, decision: string)
    requires e.profile == Required(None)
    requires ReviewFor(carried, e.id) == EvidenceOf(FrozenEntry(e, cases, decision).profile)
    ensures FrozenEntry(e, carried, decision) == FrozenEntry(e, cases, decision)
  {
  }

  lemma {:induction false} RefreezingIsStable(drafts: seq<Entry>, cases: seq<Reviewed>, decision: string)
    requires UniqueEntries(drafts)
    requires forall e :: e in drafts ==> e.profile == Required(None)
    ensures var frozen := FrozenEntries(drafts, cases, decision);
            FrozenEntries(drafts, CarriedReview(frozen), decision) == frozen
  {
    var frozen := FrozenEntries(drafts, cases, decision);
    var again := FrozenEntries(drafts, CarriedReview(frozen), decision);
    assert UniqueEntries(frozen) by {
      forall i | 0 <= i < |drafts|
        ensures frozen[i].id == drafts[i].id
      {
      }
    }
    forall i | 0 <= i < |drafts|
      ensures again[i] == frozen[i]
    {
      CarriedReviewFinds(frozen, i);
      assert drafts[i] in drafts;
      RefrozenEntry(drafts[i], cases, CarriedReview(frozen), decision);
    }
  }

  lemma {:induction false} FrozenRefreezesAlike(report: Report, cases: seq<Reviewed>, decision: string, l: Ledger)
    requires FrozenFrom(report, cases, decision, l) && l.decision == Some(decision)
    ensures RefreezesAlike(l, report)
  {
    var drafts := FreshEntries(report.cases, report);
    FrozenReviewHolds(drafts, cases, decision);
    RefreezingIsStable(drafts, cases, decision);
    FreezeShape(report, Review(report.revision, CarriedReview(l.entries)), decision);
  }

  lemma {:induction false} FrozenSource(report: Report, review: Review, decision: string, l: Ledger, h: Hashing)
    requires FreezeLedger(report, review, decision) == Ok(l)
    ensures l.status == FrozenCheckpointA
    ensures SourceMatches(l, report, h) <==> FixturesAuthentic(report, h)
  {
    FreezeShape(report, review, decision);
    FrozenCovers(report, review.cases, decision, l);
  }

  lemma {:induction false} FrozenCheckpoint(report: Report, review: Review, decision: string, l: Ledger)
    requires FreezeLedger(report, review, decision) == Ok(l)
    ensures RefreezesAlike(l, report)
  {
    FreezeShape(report, review, decision);
    FrozenRefreezesAlike(report, review.cases, decision, l);
  }

  /** Freezing never looks at the fixtures' query texts, verification does: what freezing
      produces is accepted exactly when every fixture text has the hash the report claims. */
  lemma {:induction false} FrozenIsAcceptedIff(report: Report, review: Review, decision: string, l: Ledger, h: Hashing)
    requires FreezeLedger(report, review, decision) == Ok(l)
    ensures VerifyLedger(l, report, None, None, h) <==> FixturesAuthentic(report, h)
  {
    FrozenSource(report, review, decision, l, h);
    FrozenCheckpoint(report, review, decision, l);
  }

  /** A report whose one fixture has the wrong hash freezes, and is refused afterwards. */
  lemma {:induction false} ForgedFixtureFreezes()
    ensures var report := Report("r", map["tree" := Fixture("CREATE ()", "sha")], [], 0, map[]);
            var h := Hashing((s: string) => "other", (l: Ledger) => "");
            var frozen := FreezeLedger(report, Review("r", []), "go");
            frozen.Ok? && !VerifyLedger(frozen.value, report, None, None, h)
  {
    var report := Report("r", map["tree" := Fixture("CREATE ()", "sha")], [], 0, map[]);
    var h := Hashing((s: string) => "other", (l: Ledger) => "");
    FreezeShape(report, Review("r", []), "go");
    assert 'g' in "go" && !Space('g');
    var l := FreezeLedger(report, Review("r", []), "go").value;
    FrozenIsAcceptedIff(report, Review("r", []), "go", l, h);
    assert "tree" in report.fixtures && h.text("CREATE ()") == "other" != report.fixtures["tree"].sha;
  }

  predicate ProvenBy(e: Entry, c: Case)
    requires e.profile.Divergent?
  {
    && e.id == c.id && e.checksum == c.checksum
    && forall x :: x in e.profile.evidence ==> x in c.candidates && Approved(x)
  }

  /** A divergence names the ledger's decision and shows evidence, all of it proven by the
      entry's own source case and within the approved boundaries. */
  predicate ProvenAt(e: Entry, decision: string, report: Report) {
    e.profile.Divergent? ==> && e.profile.decision == decision && e.profile.evidence != []
                             && exists j :: 0 <= j < |report.cases| && ProvenBy(e, report.cases[j])
  }

  lemma {:induction false} CarriedIncludes(entries: seq<Entry>, i: nat)
    requires i < |entries| && entries[i].profile.Divergent?
    ensures Reviewed(entries[i].id, entries[i].checksum, entries[i].profile.evidence) in CarriedReview(entries)
  {
    if i < |entries| - 1 { CarriedIncludes(entries[..|entries| - 1], i); }
  }

  lemma {:induction false} CarriedIsProven(l: Ledger, report: Report, i: nat)
    requires BuildsFrom(report) && ReviewsHold(CarriedReview(l.entries), FreshEntries(report.cases, report))
    requires i < |l.entries| && l.entries[i].profile.Divergent?
    ensures ProvenAt(l.entries[i], l.entries[i].profile.decision, report)
  {
    var e, drafts := l.entries[i], FreshEntries(report.cases, report);
    CarriedIncludes(l.entries, i);
    var r := Reviewed(e.id, e.checksum, e.profile.evidence);
    assert ReviewHolds(r, drafts);
    var j :| 0 <= j < |drafts| && ReviewHoldsAt(r, drafts[j]);
    assert ProvenBy(e, report.cases[j]);
  }

  /** No edit of a frozen first version survives verification with an unproven divergence. */
  lemma {:induction false} AcceptedDivergencesAreProven(l: Ledger, report: Report, p: Option<Ledger>, a: Option<Ledger>,
                                                        h: Hashing)
    requires l.status == FrozenCheckpointA && VerifyLedger(l, report, p, a, h)
    ensures forall i :: 0 <= i < |l.entries| ==> ProvenAt(l.entries[i], l.decision.value, report)
    ensures l.counts == Some(Tally(l.entries))
  {
    var cases, decision := CarriedReview(l.entries), l.decision.value;
    var drafts := FreshEntries(report.cases, report);
    FreezeShape(report, Review(report.revision, cases), decision);
    forall i | 0 <= i < |l.entries|
      ensures ProvenAt(l.entries[i], decision, report)
    {
      if l.entries[i].profile.Divergent? {
        CarriedIsProven(l, report, i);
        FrozenDecision(drafts[i], cases, decision);
      }
    }
    TallyByProfile(l.entries, FrozenEntries(drafts, cases, decision));
  }

  lemma {:induction false} FrozenDecision(e: Entry, cases: seq<Reviewed>, decision: string)
    requires e.profile.Required?
    ensures var p := FrozenEntry(e, cases, decision).profile; p.Divergent? ==> p.decision == decision
  {
  }

  lemma {:induction false} TallyByProfile(a: seq<Entry>, b: seq<Entry>)
    requires SameProfiles(a, b)
    ensures Tally(a) == Tally(b)
  {
    if a != [] { TallyByProfile(a[..|a| - 1], b[..|b| - 1]); }
  }

  // ----- The expansions

  lemma {:induction false} RetainedKeeps(evidence: seq<Evidence>, drop: Evidence -> bool)
    ensures forall x :: x in Retained(evidence, drop) ==> x in evidence && !drop(x)
    ensures |Retained(evidence, drop)| <= |evidence|
    ensures Retained(evidence, drop) == evidence <==> forall x :: x in evidence ==> !drop(x)
  {
    if evidence != [] {
      var n := |evidence| - 1;
      RetainedKeeps(evidence[..n], drop);
      assert evidence == evidence[..n] + [evidence[n]];
      assert drop(evidence[n]) ==> evidence[n] in evidence;
    }
  }

  /** What the first expansion makes of its predecessor. */
  predicate FlexibleOf(v1: Ledger, v2: Ledger, decision: string, h: Hashing) {
    var entries := FlexibleEntries(v1.entries, decision);
    v2 == v1.(profileId := V2, status := FrozenModelExpansion, decision := Some(decision),
              predecessor := Some(Ancestor(V1, h.ledger(v1))),
              changes := ChangesBetween(v1.entries, entries), entries := entries, counts := Some(Tally(entries)))
  }

  predicate MultilabelOf(v2: Ledger, v3: Ledger, decision: string, nested: string, h: Hashing) {
    var entries := MultilabelEntries(v2.entries, decision, nested);
    v3 == v2.(profileId := V3, status := FrozenMultilabel, decision := Some(decision), nestedDecision := Some(nested),
              predecessor := Some(Ancestor(V2, h.ledger(v2))),
              changes := ChangesBetween(v2.entries, entries), entries := entries, counts := Some(Tally(entries)))
  }

  lemma {:induction false} FlexibleShape(report: Report, v1: Ledger, decision: string, v2: Ledger, h: Hashing)
    requires ExpandFlexible(report, v1, decision, h) == Ok(v2)
    ensures FlexibleOf(v1, v2, decision, h)
    ensures v1.status == FrozenCheckpointA && VerifyLedger(v1, report, None, None, h) && SourceMatches(v1, report, h)
  {
  }

  lemma {:induction false} MultilabelShape(report: Report, v2: Ledger, v1: Ledger, decision: string, nested: string,
                                           v3: Ledger, h: Hashing)
    requires ExpandMultilabel(report, v2, v1, decision, nested, h) == Ok(v3)
    ensures MultilabelOf(v2, v3, decision, nested, h)
    ensures SourceMatches(v2, report, h)
    ensures v2.decision.Some? && ExpandFlexible(report, v1, v2.decision.value, h) == Ok(v2)
    ensures exists c :: c in report.cases && c.id == NESTED_CASE
    ensures forall e :: e in v2.entries ==> !PinnedDiverges(e)
  {
  }

  lemma {:induction false} SourceCarries(l: Ledger, next: Ledger, report: Report, h: Hashing)
    requires SourceMatches(l, report, h)
    requires next.schema == l.schema && next.revision == l.revision && next.fixtures == l.fixtures
    requires next.caseCount == l.caseCount && |next.entries| == |l.entries|
    requires next.profileId == V2 ==> next.status == FrozenModelExpansion
    requires next.profileId == V3 ==> next.status == FrozenMultilabel
    requires forall i :: 0 <= i < |l.entries| ==> SameSource(l.entries[i], next.entries[i])
    ensures SourceMatches(next, report, h)
  {
    CoverageCarries(l.entries, next.entries, report);
  }

  lemma {:induction false} FlexibleKeepsSource(v1: Ledger, v2: Ledger, decision: string, h: Hashing)
    requires FlexibleOf(v1, v2, decision, h)
    ensures |v2.entries| == |v1.entries|
    ensures forall i :: 0 <= i < |v1.entries| ==> SameSource(v1.entries[i], v2.entries[i])
    ensures v2.changes == ChangesBetween(v1.entries, v2.entries)
  {
    forall i | 0 <= i < |v1.entries|
      ensures SameSource(v1.entries[i], v2.entries[i])
    {
      assert v2.entries[i] == FlexibleEntry(v1.entries[i], decision);
    }
  }

  lemma {:induction false} MultilabelKeepsSource(v2: Ledger, v3: Ledger, decision: string, nested: string, h: Hashing)
    requires MultilabelOf(v2, v3, decision, nested, h)
    ensures |v3.entries| == |v2.entries|
    ensures forall i :: 0 <= i < |v2.entries| ==> SameSource(v2.entries[i], v3.entries[i])
    ensures v3.changes == ChangesBetween(v2.entries, v3.entries)
  {
    forall i | 0 <= i < |v2.entries|
      ensures SameSource(v2.entries[i], v3.entries[i])
    {
      assert v3.entries[i] == MultilabelEntry(v2.entries[i], decision, nested);
    }
  }

  lemma {:induction false} FlexibleIsAccepted(report: Report, v1: Ledger, decision: string, v2: Ledger, a: Option<Ledger>,
                                              h: Hashing)
    requires ExpandFlexible(report, v1, decision, h) == Ok(v2)
    ensures VerifyLedger(v2, report, Some(v1), a, h)
  {
    FlexibleShape(report, v1, decision, v2, h);
    FlexibleKeepsSource(v1, v2, decision, h);
    SourceCarries(v1, v2, report, h);
  }

  lemma {:induction false} MultilabelIsAccepted(report: Report, v2: Ledger, v1: Ledger, decision: string, nested: string,
                                                v3: Ledger, h: Hashing)
    requires ExpandMultilabel(report, v2, v1, decision, nested, h) == Ok(v3)
    ensures VerifyLedger(v3, report, Some(v2), Some(v1), h)
  {
    MultilabelShape(report, v2, v1, decision, nested, v3, h);
    MultilabelKeepsSource(v2, v3, decision, nested, h);
    SourceCarries(v2, v3, report, h);
  }

  /** The meaning of one withdrawal: requirements stay, a divergence keeps exactly the evidence
      that is not withdrawn, and becomes a requirement exactly when nothing is left of it. */
  lemma {:induction false} WithdrawMeaning(e: Entry, drop: Evidence -> bool, decision: string, pending: RootCause)
    requires e.profile.Divergent? ==> e.profile.evidence != []
    ensures var w := Withdraw(e, drop, decision, pending);
            && SameSource(e, w)
            && (w.profile.Required? <==>
                e.profile.Required? || forall x :: x in e.profile.evidence ==> drop(x))
            && (w.profile.Divergent? ==>
                e.profile.Divergent? && w.profile.evidence == Retained(e.profile.evidence, drop) && w.profile.evidence != [])
  {
    if e.profile.Divergent? {
      RetainedKeeps(e.profile.evidence, drop);
      RetainedEmpty(e.profile.evidence, drop);
    }
  }

  lemma {:induction false} RetainedEmpty(evidence: seq<Evidence>, drop: Evidence -> bool)
    ensures Retained(evidence, drop) == [] <==> forall x :: x in evidence ==> drop(x)
  {
    if evidence != [] {
      var n := |evidence| - 1;
      RetainedEmpty(evidence[..n], drop);
      assert evidence == evidence[..n] + [evidence[n]];
    }
  }

  predicate Evident(e: Entry) { e.profile.Divergent? ==> e.profile.evidence != [] }

  /** V1 to V2 only widens the required scope: it takes back exactly the unlabeled-storage and
      NaN evidence, and every divergence that is left still shows evidence. */
  lemma {:induction false} FlexibleWidens(report: Report, v1: Ledger, decision: string, v2: Ledger, h: Hashing, i: nat)
    requires ExpandFlexible(report, v1, decision, h) == Ok(v2) && i < |v1.entries|
    ensures |v2.entries| == |v1.entries| && SameSource(v1.entries[i], v2.entries[i]) && Evident(v2.entries[i])
    ensures v2.entries[i].profile.Required? <==>
              v1.entries[i].profile.Required? || forall x :: x in v1.entries[i].profile.evidence ==> Withdrawn(x)
    ensures v2.entries[i].profile.Divergent? ==>
              v2.entries[i].profile.evidence == Retained(v1.entries[i].profile.evidence, Withdrawn)
  {
    FlexibleShape(report, v1, decision, v2, h);
    AcceptedDivergencesAreProven(v1, report, None, None, h);
    assert ProvenAt(v1.entries[i], v1.decision.value, report);
    WithdrawMeaning(v1.entries[i], Withdrawn, decision, ExpansionExecutionPending);
  }

  /** V2 to V3 widens the required scope everywhere but at the one pinned case, which becomes
      the one new divergence. */
  lemma {:induction false} MultilabelWidens(report: Report, v2: Ledger, v1: Ledger, decision: string, nested: string,
                                            v3: Ledger, h: Hashing, i: nat)
    requires ExpandMultilabel(report, v2, v1, decision, nested, h) == Ok(v3) && i < |v2.entries|
    ensures |v3.entries| == |v2.entries| && SameSource(v2.entries[i], v3.entries[i]) && Evident(v3.entries[i])
    ensures v2.entries[i].id == NESTED_CASE ==>
              v2.entries[i].profile.Required? && v3.entries[i].profile == Divergent(nested, [NESTED_EVIDENCE])
    ensures v2.entries[i].id != NESTED_CASE ==>
              (v3.entries[i].profile.Required? <==>
               v2.entries[i].profile.Required? || forall x :: x in v2.entries[i].profile.evidence ==> LabelRule(x))
  {
    MultilabelShape(report, v2, v1, decision, nested, v3, h);
    FlexibleWidens(report, v1, v2.decision.value, v2, h, i);
    if v2.entries[i].id == NESTED_CASE {
      assert v2.entries[i] in v2.entries;
    } else {
      WithdrawMeaning(v2.entries[i], LabelRule, decision, MultilabelExecutionPending);
    }
  }

  function RequiredIds(entries: seq<Entry>): set<string> {
    set i | 0 <= i < |entries| && entries[i].profile.Required? :: entries[i].id
  }

  /** The whole succession from one review: all three versions are accepted with their
      ancestors, and the required scope only ever grows but for the pinned case. */
  lemma {:induction false} SuccessionWidens(report: Report, review: Review, first: string, second: string, third: string,
                                            nested: string, v1: Ledger, v2: Ledger, v3: Ledger, h: Hashing)
    requires FreezeLedger(report, review, first) == Ok(v1)
    requires ExpandFlexible(report, v1, second, h) == Ok(v2)
    requires ExpandMultilabel(report, v2, v1, third, nested, h) == Ok(v3)
    ensures VerifyLedger(v1, report, None, None, h) && VerifyLedger(v2, report, Some(v1), None, h)
    ensures VerifyLedger(v3, report, Some(v2), Some(v1), h)
    ensures RequiredIds(v1.entries) <= RequiredIds(v2.entries)
    ensures RequiredIds(v2.entries) - {NESTED_CASE} <= RequiredIds(v3.entries)
    ensures NESTED_CASE in RequiredIds(v2.entries) && NESTED_CASE !in RequiredIds(v3.entries)
  {
    FlexibleShape(report, v1, second, v2, h);
    FlexibleIsAccepted(report, v1, second, v2, None, h);
    MultilabelIsAccepted(report, v2, v1, third, nested, v3, h);
    FlexibleGrows(report, v1, second, v2, h);
    MultilabelGrows(report, v2, v1, third, nested, v3, h);
    PinnedCaseMoves(report, v2, v1, third, nested, v3, h);
  }

  lemma {:induction false} FlexibleGrows(report: Report, v1: Ledger, decision: string, v2: Ledger, h: Hashing)
    requires ExpandFlexible(report, v1, decision, h) == Ok(v2)
    ensures RequiredIds(v1.entries) <= RequiredIds(v2.entries)
  {
    forall id | id in RequiredIds(v1.entries)
      ensures id in RequiredIds(v2.entries)
    {
      var i :| 0 <= i < |v1.entries| && v1.entries[i].profile.Required? && v1.entries[i].id == id;
      FlexibleWidens(report, v1, decision, v2, h, i);
      assert v2.entries[i].id == id;
    }
  }

  lemma {:induction false} MultilabelGrows(report: Report, v2: Ledger, v1: Ledger, decision: string, nested: string,
                                           v3: Ledger, h: Hashing)
    requires ExpandMultilabel(report, v2, v1, decision, nested, h) == Ok(v3)
    ensures RequiredIds(v2.entries) - {NESTED_CASE} <= RequiredIds(v3.entries)
  {
    forall id | id in RequiredIds(v2.entries) && id != NESTED_CASE
      ensures id in RequiredIds(v3.entries)
    {
      var i :| 0 <= i < |v2.entries| && v2.entries[i].profile.Required? && v2.entries[i].id == id;
      MultilabelWidens(report, v2, v1, decision, nested, v3, h, i);
      assert v3.entries[i].id == id;
    }
  }

  lemma {:induction false} PinnedCaseMoves(report: Report, v2: Ledger, v1: Ledger, decision: string, nested: string,
                                           v3: Ledger, h: Hashing)
    requires ExpandMultilabel(report, v2, v1, decision, nested, h) == Ok(v3)
    ensures NESTED_CASE in RequiredIds(v2.entries) && NESTED_CASE !in RequiredIds(v3.entries)
  {
    MultilabelShape(report, v2, v1, decision, nested, v3, h);
    CoveredIdIsRequired(report, v2.entries, NESTED_CASE);
    PinnedDivergesIn(v2.entries, decision, nested);
  }

  lemma {:induction false} PinnedDivergesIn(before: seq<Entry>, decision: string, nested: string)
    ensures NESTED_CASE !in RequiredIds(MultilabelEntries(before, decision, nested))
  {
    var after := MultilabelEntries(before, decision, nested);
    forall k | 0 <= k < |after| && after[k].profile.Required?
      ensures after[k].id != NESTED_CASE
    {
      assert after[k] == MultilabelEntry(before[k], decision, nested);
    }
  }

  lemma {:induction false} CoveredIdIsRequired(report: Report, entries: seq<Entry>, id: string)
    requires Covers(entries, report) && exists c :: c in report.cases && c.id == id
    requires forall e :: e in entries && e.id == id ==> e.profile.Required?
    ensures id in RequiredIds(entries)
  {
    var c :| c in report.cases && c.id == id;
    assert CaseCovered(c, entries, report);
    var i :| 0 <= i < |entries| && EntryMatches(entries[i], c, report);
    assert entries[i] in entries;
  }

  // ----- Scope changes can be undone

  function ChangeFor(changes: seq<Change>, id: string): Option<Change> {
    if changes == [] then None
    else if changes[|changes| - 1].id == id then Some(changes[|changes| - 1])
    else ChangeFor(changes[..|changes| - 1], id)
  }

  /** The profile an entry had before the recorded changes. */
  function Undone(e: Entry, changes: seq<Change>): Profile {
    var change := ChangeFor(changes, e.id);
    if change.Some? then change.value.previous else e.profile
  }

  lemma {:induction false} NoChangeElsewhere(before: seq<Entry>, after: seq<Entry>, id: string)
    requires |before| == |after| && forall i :: 0 <= i < |before| ==> before[i].id != id
    ensures ChangeFor(ChangesBetween(before, after), id) == None
  {
    if before != [] {
      var n := |before| - 1;
      NoChangeElsewhere(before[..n], after[..n], id);
      var rest := ChangesBetween(before[..n], after[..n]);
      var all := rest + [Change(before[n].id, before[n].checksum, before[n].profile, after[n].profile)];
      assert all[..|all| - 1] == rest;
    }
  }

  lemma {:induction false} ChangeIsRecorded(before: seq<Entry>, after: seq<Entry>, i: nat)
    requires |before| == |after| && UniqueEntries(before) && i < |before|
    ensures ChangeFor(ChangesBetween(before, after), before[i].id)
         == if before[i].profile == after[i].profile then None
            else Some(Change(before[i].id, before[i].checksum, before[i].profile, after[i].profile))
  {
    var n := |before| - 1;
    var rest := ChangesBetween(before[..n], after[..n]);
    var all := rest + [Change(before[n].id, before[n].checksum, before[n].profile, after[n].profile)];
    assert all[..|all| - 1] == rest;
    if i < n {
      ChangeIsRecorded(before[..n], after[..n], i);
    } else {
      NoChangeElsewhere(before[..n], after[..n], before[n].id);
    }
  }

  /** Every accepted successor records enough to give back its predecessor's profiles exactly. */
  lemma {:induction false} ChangesRestorePredecessor(l: Ledger, report: Report, predecessor: Ledger, a: Option<Ledger>,
                                                     h: Hashing, i: nat)
    requires l.status == FrozenModelExpansion || l.status == FrozenMultilabel
    requires VerifyLedger(l, report, Some(predecessor), a, h) && i < |l.entries|
    ensures |predecessor.entries| == |l.entries|
    ensures Undone(l.entries[i], l.changes) == predecessor.entries[i].profile
    ensures SameSource(predecessor.entries[i], l.entries[i])
  {
    if l.status == FrozenModelExpansion {
      FlexibleShape(report, predecessor, l.decision.value, l, h);
      FlexibleKeepsSource(predecessor, l, l.decision.value, h);
    } else {
      MultilabelShape(report, predecessor, a.value, l.decision.value, l.nestedDecision.value, l, h);
      MultilabelKeepsSource(predecessor, l, l.decision.value, l.nestedDecision.value, h);
    }
    assert UniqueEntries(predecessor.entries);
    ChangeIsRecorded(predecessor.entries, l.entries, i);
  }

  /** The counts every accepted frozen version carries are the counts of its own entries. */
  lemma {:induction false} AcceptedCountsAreTrue(l: Ledger, report: Report, p: Option<Ledger>, a: Option<Ledger>, h: Hashing)
    requires l.status != Draft && VerifyLedger(l, report, p, a, h)
    ensures l.counts == Some(Tally(l.entries))
  {
    match l.status
    case FrozenCheckpointA => AcceptedDivergencesAreProven(l, report, p, a, h);
    case FrozenModelExpansion => FlexibleShape(report, p.value, l.decision.value, l, h);
    case FrozenMultilabel => MultilabelShape(report, p.value, a.value, l.decision.value, l.nestedDecision.value, l, h);
  }

  // ----- The loops behind freezing and expanding

  function Position(entries: seq<Entry>, id: string): (r: Option<nat>)
    ensures r.Some? ==> r.value < |entries| && entries[r.value].id == id
    ensures r.None? ==> forall i :: 0 <= i < |entries| ==> entries[i].id != id
  {
    if entries == [] then None
    else if entries[|entries| - 1].id == id then Some(|entries| - 1)
    else Position(entries[..|entries| - 1], id)
  }

  predicate MarkedBy(entries: seq<Entry>, drafts: seq<Entry>, cases: seq<Reviewed>, decision: string) {
    |entries| == |drafts| && forall i :: 0 <= i < |drafts| ==> entries[i] == Marked(drafts[i], cases, decision)
  }

  lemma {:induction false} MarkOne(entries: seq<Entry>, drafts: seq<Entry>, cases: seq<Reviewed>, r: Reviewed,
                                   decision: string, at: nat)
    requires UniqueEntries(drafts) && MarkedBy(entries, drafts, cases, decision)
    requires at < |drafts| && drafts[at].id == r.id
    ensures MarkedBy(entries[at := entries[at].(profile := Divergent(decision, r.evidence),
                                                rootCause := DeclaredModelDivergence)],
                     drafts, cases + [r], decision)
  {
    assert (cases + [r])[..|cases|] == cases;
  }

  predicate ReviewedOnce(cases: seq<Reviewed>, k: nat)
    requires k <= |cases|
  {
    forall i, j :: 0 <= i < j < k ==> cases[i].id != cases[j].id
  }

  predicate HoldUpTo(cases: seq<Reviewed>, k: nat, drafts: seq<Entry>)
    requires k <= |cases|
  {
    ReviewedOnce(cases, k) && forall i :: 0 <= i < k ==> ReviewHolds(cases[i], drafts)
  }

  lemma {:induction false} FailsAt(cases: seq<Reviewed>, k: nat, drafts: seq<Entry>)
    requires k < |cases|
    requires !ReviewHolds(cases[k], drafts) || exists i :: 0 <= i < k && cases[i].id == cases[k].id
    ensures !ReviewsHold(cases, drafts)
  {
    assert cases[k] in cases;
  }

  lemma {:induction false} HoldsAtPosition(r: Reviewed, drafts: seq<Entry>, at: nat)
    requires UniqueEntries(drafts) && at < |drafts| && drafts[at].id == r.id
    ensures ReviewHolds(r, drafts) <==> ReviewHoldsAt(r, drafts[at])
  {
  }

  function SeenIds(cases: seq<Reviewed>, k: nat): set<string>
    requires k <= |cases|
  {
    set i | 0 <= i < k :: cases[i].id
  }

  lemma {:induction false} HoldNext(cases: seq<Reviewed>, k: nat, drafts: seq<Entry>)
    requires k < |cases| && HoldUpTo(cases, k, drafts)
    requires ReviewHolds(cases[k], drafts) && cases[k].id !in SeenIds(cases, k)
    ensures HoldUpTo(cases, k + 1, drafts)
    ensures SeenIds(cases, k + 1) == SeenIds(cases, k) + {cases[k].id}
  {
  }

  /** Applies the reviewed cases one by one, refusing at the first that does not hold. */
  method ApplyReview(drafts: seq<Entry>, cases: seq<Reviewed>, decision: string) returns (r: Result<seq<Entry>>)
    requires UniqueEntries(drafts)
    ensures r.Ok? <==> ReviewsHold(cases, drafts)
    ensures r.Ok? ==> MarkedBy(r.value, drafts, cases, decision)
  {
    var entries, seen, k := drafts, {}, 0;
    while k < |cases|
      invariant 0 <= k <= |cases|
      invariant seen == SeenIds(cases, k)
      invariant HoldUpTo(cases, k, drafts)
      invariant MarkedBy(entries, drafts, cases[..k], decision)
    {
      var c := cases[k];
      var at := Position(drafts, c.id);
      if c.id in seen || at.None? {
        FailsAt(cases, k, drafts);
        return Refused;
      }
      HoldsAtPosition(c, drafts, at.value);
      if !ReviewHoldsAt(c, drafts[at.value]) {
        FailsAt(cases, k, drafts);
        return Refused;
      }
      HoldNext(cases, k, drafts);
      MarkOne(entries, drafts, cases[..k], c, decision, at.value);
      assert cases[..k + 1] == cases[..k] + [c];
      entries := entries[at.value := entries[at.value].(profile := Divergent(decision, c.evidence),
                                                        rootCause := DeclaredModelDivergence)];
      seen, k := seen + {c.id}, k + 1;
    }
    assert cases[..k] == cases;
    return Ok(entries);
  }

  method Settle(marked: seq<Entry>) returns (entries: seq<Entry>, counts: Counts)
    ensures |entries| == |marked| && forall i :: 0 <= i < |marked| ==> entries[i] == Settled(marked[i])
    ensures counts == Tally(entries)
  {
    entries, counts := [], Counts(0, 0);
    for k := 0 to |marked|
      invariant |entries| == k && forall i :: 0 <= i < k ==> entries[i] == Settled(marked[i])
      invariant counts == Tally(entries)
    {
      var e := Settled(marked[k]);
      assert (entries + [e])[..k] == entries;
      entries := entries + [e];
      counts := if e.profile.Required? then counts.(required := counts.required + 1)
                else counts.(divergent := counts.divergent + 1);
    }
  }

  /** `freeze_ledger` as it runs: apply the review, settle the open causes, count. */
  method Freeze(report: Report, review: Review, decision: string) returns (r: Result<Ledger>)
    ensures r == FreezeLedger(report, review, decision)
  {
    if Blank(decision) || review.revision != report.revision { return Refused; }
    var built := BuildLedger(report);
    if built.Refused? { return Refused; }
    var drafts := built.value.entries;
    DraftsCover(report);
    var applied := ApplyReview(drafts, review.cases, decision);
    if applied.Refused? { return Refused; }
    var entries, counts := Settle(applied.value);
    assert entries == FrozenEntries(drafts, review.cases, decision);
    r := Ok(built.value.(status := FrozenCheckpointA, decision := Some(decision), entries := entries, counts := Some(counts)));
  }

  /** The body of both rewriting loops at a divergence. */
  method WithdrawFrom(e: Entry, drop: Evidence -> bool, decision: string, pending: RootCause) returns (w: Entry)
    requires e.profile.Divergent?
    ensures w == Withdraw(e, drop, decision, pending)
  {
    w := e;
    var kept := Retained(e.profile.evidence, drop);
    if kept != e.profile.evidence {
      w := w.(profile := if kept != [] then Divergent(decision, kept) else Required(Some(decision)));
      if kept == [] { w := w.(rootCause := pending); }
    }
  }

  lemma {:induction false} ChangesStep(before: seq<Entry>, after: seq<Entry>, k: nat)
    requires |before| == |after| && k < |before|
    ensures ChangesBetween(before[..k + 1], after[..k + 1])
         == ChangesBetween(before[..k], after[..k])
            + if before[k].profile == after[k].profile then []
              else [Change(before[k].id, before[k].checksum, before[k].profile, after[k].profile)]
  {
    assert before[..k + 1][..k] == before[..k] && after[..k + 1][..k] == after[..k];
  }

  /** The first `k` entries are rewritten and their changes recorded. */
  ghost predicate Rewritten(before: seq<Entry>, goal: seq<Entry>, k: nat, after: seq<Entry>, changes: seq<Change>) {
    && |before| == |goal| && k <= |before|
    && after == goal[..k] + before[k..]
    && changes == ChangesBetween(before[..k], goal[..k])
  }

  function Recorded(changes: seq<Change>, e: Entry, w: Entry): seq<Change> {
    if w.profile == e.profile then changes else changes + [Change(e.id, e.checksum, e.profile, w.profile)]
  }

  lemma {:induction false} RewrittenNext(before: seq<Entry>, goal: seq<Entry>, k: nat, after: seq<Entry>,
                                         changes: seq<Change>)
    requires Rewritten(before, goal, k, after, changes) && k < |before|
    ensures |after| == |before| && after[k] == before[k]
    ensures Rewritten(before, goal, k + 1, after[k := goal[k]], Recorded(changes, before[k], goal[k]))
  {
    ChangesStep(before, goal, k);
    assert after[k := goal[k]] == goal[..k + 1] + before[k + 1..];
  }

  lemma {:induction false} AllRewritten(before: seq<Entry>, goal: seq<Entry>, after: seq<Entry>, changes: seq<Change>)
    requires |before| == |goal| && Rewritten(before, goal, |before|, after, changes)
    ensures after == goal && changes == ChangesBetween(before, after)
  {
    assert before[..|before|] == before && goal[..|before|] == goal;
  }

  /** The rewriting loop of the first expansion. */
  method RewriteFlexible(before: seq<Entry>, decision: string) returns (after: seq<Entry>, changes: seq<Change>)
    ensures after == FlexibleEntries(before, decision)
    ensures changes == ChangesBetween(before, after)
  {
    after, changes := before, [];
    ghost var goal := FlexibleEntries(before, decision);
    for k := 0 to |before|
      invariant Rewritten(before, goal, k, after, changes)
    {
      RewrittenNext(before, goal, k, after, changes);
      var e := after[k];
      if e.profile.Divergent? {
        var w := WithdrawFrom(e, Withdrawn, decision, ExpansionExecutionPending);
        after := after[k := w];
        changes := Recorded(changes, e, w);
      } else {
        assert after[k := e] == after;
      }
    }
    AllRewritten(before, goal, after, changes);
  }

  method RewriteOne(e: Entry, decision: string, nested: string) returns (w: Entry)
    ensures w == MultilabelEntry(e, decision, nested)
  {
    w := e;
    if e.id == NESTED_CASE {
      w := e.(profile := Divergent(nested, [NESTED_EVIDENCE]), rootCause := DeclaredNestedStorageDivergence);
    } else if e.profile.Divergent? {
      w := WithdrawFrom(e, LabelRule, decision, MultilabelExecutionPending);
    }
  }

  /** The rewriting loop of the second expansion; it refuses a pinned case that already diverges. */
  method RewriteMultilabel(before: seq<Entry>, decision: string, nested: string)
      returns (r: Result<(seq<Entry>, seq<Change>)>)
    ensures r.Ok? <==> forall e :: e in before ==> !PinnedDiverges(e)
    ensures r.Ok? ==> r.value.0 == MultilabelEntries(before, decision, nested) && r.value.1 == ChangesBetween(before, r.value.0)
  {
    var after, changes := before, [];
    ghost var goal := MultilabelEntries(before, decision, nested);
    for k := 0 to |before|
      invariant Rewritten(before, goal, k, after, changes)
      invariant forall i :: 0 <= i < k ==> !PinnedDiverges(before[i])
    {
      RewrittenNext(before, goal, k, after, changes);
      var e := after[k];
      if PinnedDiverges(e) {
        assert e in before;
        return Refused;
      }
      var w := RewriteOne(e, decision, nested);
      after, changes := after[k := w], Recorded(changes, e, w);
    }
    AllRewritten(before, goal, after, changes);
    return Ok((after, changes));
  }

  // ----- The profile summary conserves every observed outcome

  datatype Outcomes = Outcomes(passed: nat, failed: nat, notRun: nat, adapted: nat) {
    function Total(): nat { passed + failed + notRun + adapted }
  }

  function Add(o: Outcomes, status: Outcome): Outcomes {
    match status
    case Passed => o.(passed := o.passed + 1)
    case Failed => o.(failed := o.failed + 1)
    case NotRun => o.(notRun := o.notRun + 1)
    case AdaptedPassed => o.(adapted := o.adapted + 1)
    case Unrecognised => o
  }

  /** Which cases a counter looks at: all, or those inside or outside the required scope. */
  datatype View = All | Inside | Outside

  predicate Sees(view: View, c: Case, scope: set<string>) {
    match view
    case All => true
    case Inside => c.id in scope
    case Outside => c.id !in scope
  }

  function Observed(cases: seq<Case>, scope: set<string>, view: View): Outcomes {
    if cases == [] then Outcomes(0, 0, 0, 0)
    else
      var rest := Observed(cases[..|cases| - 1], scope, view);
      if Sees(view, cases[|cases| - 1], scope) then Add(rest, cases[|cases| - 1].status) else rest
  }

  function CaseIds(cases: seq<Case>): set<string> { set i | 0 <= i < |cases| :: cases[i].id }

  lemma {:induction false} LastCaseId(cases: seq<Case>)
    requires UniqueCases(cases) && cases != []
    ensures var front, id := cases[..|cases| - 1], cases[|cases| - 1].id;
            CaseIds(cases) == CaseIds(front) + {id} && id !in CaseIds(front)
  {
    var n := |cases| - 1;
    forall id | id in CaseIds(cases)
      ensures id in CaseIds(cases[..n]) + {cases[n].id}
    {
      var i :| 0 <= i < |cases| && cases[i].id == id;
      assert i < n ==> cases[..n][i].id == id;
    }
  }

  lemma {:induction false} ObservedCounts(cases: seq<Case>, ids: set<string>)
    requires UniqueCases(cases) && forall i :: 0 <= i < |cases| ==> cases[i].status != Unrecognised
    ensures Observed(cases, ids, Inside).Total() == |ids * CaseIds(cases)|
  {
    if cases == [] {
      assert ids * CaseIds(cases) == {};
    } else {
      var n := |cases| - 1;
      ObservedCounts(cases[..n], ids);
      LastCaseId(cases);
      InsertCounts(ids, CaseIds(cases[..n]), cases[n].id);
    }
  }

  lemma {:induction false} InsertCounts(ids: set<string>, known: set<string>, id: string)
    requires id !in known
    ensures |ids * (known + {id})| == |ids * known| + if id in ids then 1 else 0
  {
    assert ids * (known + {id}) == ids * known + (if id in ids then {id} else {});
  }

  lemma {:induction false} LastRequiredId(entries: seq<Entry>)
    requires UniqueEntries(entries) && entries != []
    ensures var front, e := entries[..|entries| - 1], entries[|entries| - 1];
            && e.id !in RequiredIds(front)
            && RequiredIds(entries) == RequiredIds(front) + if e.profile.Required? then {e.id} else {}
  {
    var n := |entries| - 1;
    forall id | id in RequiredIds(entries)
      ensures id in RequiredIds(entries[..n]) + if entries[n].profile.Required? then {entries[n].id} else {}
    {
      var i :| 0 <= i < |entries| && entries[i].profile.Required? && entries[i].id == id;
      assert i < n ==> entries[..n][i].id == id;
    }
  }

  lemma {:induction false} TallyCountsIds(entries: seq<Entry>)
    requires UniqueEntries(entries)
    ensures Tally(entries).required == |RequiredIds(entries)|
    ensures Tally(entries).required + Tally(entries).divergent == |entries|
  {
    if entries == [] {
      assert RequiredIds(entries) == {};
    } else {
      TallyCountsIds(entries[..|entries| - 1]);
      LastRequiredId(entries);
    }
  }

  lemma {:induction false} RequiredAreCases(entries: seq<Entry>, report: Report)
    requires Covers(entries, report)
    ensures RequiredIds(entries) <= CaseIds(report.cases)
  {
    forall id | id in RequiredIds(entries)
      ensures id in CaseIds(report.cases)
    {
      var i :| 0 <= i < |entries| && entries[i].profile.Required? && entries[i].id == id;
      assert entries[i] in entries;
      assert Known(id, report.cases);
    }
  }

  function Count(o: Outcomes, status: Outcome): nat {
    match status
    case Passed => o.passed
    case Failed => o.failed
    case NotRun => o.notRun
    case AdaptedPassed => o.adapted
    case Unrecognised => 0
  }

  predicate ConservedAt(status: Outcome, upstream: Outcomes, required: Outcomes, divergent: Outcomes) {
    Count(upstream, status) == Count(required, status) + Count(divergent, status)
  }

  /** Every outcome is counted once upstream and once in exactly one of the two profiles. */
  ghost predicate Conserved(upstream: Outcomes, required: Outcomes, divergent: Outcomes) {
    forall status: Outcome :: ConservedAt(status, upstream, required, divergent)
  }

  lemma {:induction false} AddCounts(o: Outcomes, status: Outcome, other: Outcome)
    requires status != Unrecognised
    ensures Count(Add(o, status), other) == Count(o, other) + if other == status then 1 else 0
    ensures Add(o, status).Total() == o.Total() + 1
  {
  }

  lemma {:induction false} ConservedTotals(upstream: Outcomes, required: Outcomes, divergent: Outcomes)
    requires Conserved(upstream, required, divergent)
    ensures upstream.Total() == required.Total() + divergent.Total()
  {
    assert ConservedAt(Passed, upstream, required, divergent) && ConservedAt(Failed, upstream, required, divergent);
    assert ConservedAt(NotRun, upstream, required, divergent) && ConservedAt(AdaptedPassed, upstream, required, divergent);
  }

  lemma {:induction false} AddConserves(all: Outcomes, inside: Outcomes, outside: Outcomes, status: Outcome)
    requires Conserved(all, inside, outside) && status != Unrecognised
    ensures Add(all, status).Total() == all.Total() + 1
    ensures Conserved(Add(all, status), Add(inside, status), outside)
    ensures Conserved(Add(all, status), inside, Add(outside, status))
  {
    forall other: Outcome
      ensures ConservedAt(other, Add(all, status), Add(inside, status), outside)
      ensures ConservedAt(other, Add(all, status), inside, Add(outside, status))
    {
      assert ConservedAt(other, all, inside, outside);
      AddCounts(all, status, other);
      AddCounts(inside, status, other);
      AddCounts(outside, status, other);
    }
    AddCounts(all, status, Passed);
  }

  lemma {:induction false} ViewsConserve(cases: seq<Case>, scope: set<string>)
    requires Recognised(cases)
    ensures Conserved(Observed(cases, scope, All), Observed(cases, scope, Inside), Observed(cases, scope, Outside))
    ensures Observed(cases, scope, All).Total() == |cases|
  {
    if cases != [] {
      var front, last := cases[..|cases| - 1], cases[|cases| - 1];
      ViewsConserve(front, scope);
      AddConserves(Observed(front, scope, All), Observed(front, scope, Inside), Observed(front, scope, Outside), last.status);
    }
  }

  datatype Summary = Summary(upstream: Outcomes, required: Outcomes, divergent: Outcomes)

  function Summed(cases: seq<Case>, scope: set<string>): Summary {
    Summary(Observed(cases, scope, All), Observed(cases, scope, Inside), Observed(cases, scope, Outside))
  }

  predicate Recognised(cases: seq<Case>) { forall i :: 0 <= i < |cases| ==> cases[i].status != Unrecognised }

  lemma {:induction false} ObservedStep(cases: seq<Case>, scope: set<string>, view: View, k: nat)
    requires k < |cases|
    ensures Observed(cases[..k + 1], scope, view)
         == if Sees(view, cases[k], scope) then Add(Observed(cases[..k], scope, view), cases[k].status)
            else Observed(cases[..k], scope, view)
  {
    assert cases[..k + 1][..k] == cases[..k];
  }

  /** One pass over the cases with three counters, given the required identities. */
  method CountOutcomes(cases: seq<Case>, scope: set<string>) returns (r: Result<Summary>)
    ensures r.Ok? <==> Recognised(cases)
    ensures r.Ok? ==> r.value == Summed(cases, scope)
  {
    var upstream, required, divergent := Outcomes(0, 0, 0, 0), Outcomes(0, 0, 0, 0), Outcomes(0, 0, 0, 0);
    for k := 0 to |cases|
      invariant forall i :: 0 <= i < k ==> cases[i].status != Unrecognised
      invariant Summary(upstream, required, divergent) == Summed(cases[..k], scope)
    {
      ObservedStep(cases, scope, All, k);
      ObservedStep(cases, scope, Inside, k);
      ObservedStep(cases, scope, Outside, k);
      var status := cases[k].status;
      if status == Unrecognised { return Refused; }
      upstream := Add(upstream, status);
      if cases[k].id in scope { required := Add(required, status); } else { divergent := Add(divergent, status); }
    }
    assert cases[..|cases|] == cases;
    return Ok(Summary(upstream, required, divergent));
  }

  /** `profile_summary`: nothing observed is lost or counted twice, and the totals are the
      required and divergent counts of the ledger itself. */
  method Summarise(report: Report, l: Ledger, p: Option<Ledger>, a: Option<Ledger>, h: Hashing) returns (r: Result<Summary>)
    ensures r.Ok? <==> VerifyLedger(l, report, p, a, h) && Recognised(report.cases)
    ensures r.Ok? ==> Conserved(r.value.upstream, r.value.required, r.value.divergent)
    ensures r.Ok? ==> r.value == Summed(report.cases, RequiredIds(l.entries))
    ensures r.Ok? ==> r.value.upstream.Total() == |report.cases|
    ensures r.Ok? ==> Tally(l.entries) == Counts(r.value.required.Total(), r.value.divergent.Total())
    ensures r.Ok? && l.status != Draft ==> l.counts == Some(Tally(l.entries))
  {
    if !VerifyLedger(l, report, p, a, h) { return Refused; }
    r := CountOutcomes(report.cases, RequiredIds(l.entries));
    if r.Ok? {
      ViewsConserve(report.cases, RequiredIds(l.entries));
      SummaryTotals(report, l.entries, r.value);
      if l.status != Draft { AcceptedCountsAreTrue(l, report, p, a, h); }
    }
  }

  lemma {:induction false} SummaryTotals(report: Report, entries: seq<Entry>, s: Summary)
    requires Covers(entries, report) && UniqueCases(report.cases) && |entries| == |report.cases|
    requires Recognised(report.cases)
    requires Conserved(s.upstream, s.required, s.divergent) && s.upstream.Total() == |report.cases|
    requires s.required == Observed(report.cases, RequiredIds(entries), Inside)
    ensures Tally(entries) == Counts(s.required.Total(), s.divergent.Total())
  {
    ConservedTotals(s.upstream, s.required, s.divergent);
    ObservedCounts(report.cases, RequiredIds(entries));
    RequiredAreCases(entries, report);
    assert RequiredIds(entries) * CaseIds(report.cases) == RequiredIds(entries);
    TallyCountsIds(entries);
  }
}
