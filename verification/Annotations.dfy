/**
 Two independent reviews become a labelled dataset: `_review_labels`, `finalize_reviews`, and the
 consumer's check `expert_reviewed`.  An answer that was left empty (null) is the empty string.
 */
module Annotations {
  import opened Outcomes
  import opened Contracts
  import opened Dataset

  datatype PoolCase = PoolCase(id: string, family: string, groupId: string, provenance: Provenance, request: RawRequest)

  datatype Pool = Pool(id: string, cases: seq<PoolCase>)

  datatype Label = Label(id: string, input: Digest, expectedOptionId: string, rationale: string)

  /** `poolDigest` is the fingerprint the review carries, modelled as the pool it was computed from. */
  datatype ReviewFile = ReviewFile(
    pool: Pool, poolDigest: Pool, splitSeed: string, reviewerId: string, reviewedAt: string, labels: seq<Label>)

  datatype Finalized = Finalized(id: string, cases: seq<Case>)

  const EXPERT := "expert-reviewed"

  // ----- validate_pool -----

  predicate GoodPoolCase(c: PoolCase) {
    && GoodIdentifier(c.id, 100) && GoodIdentifier(c.family, 100) && GoodIdentifier(c.groupId, 100)
    && Parse(c.request).Success? && Parse(c.request).value.id == c.id
    && GoodProvenance(c.provenance)
  }

  ghost predicate DistinctPool(cases: seq<PoolCase>) {
    forall i, j :: 0 <= i < j < |cases| ==> cases[i].id != cases[j].id
  }

  ghost predicate GoodPool(pool: Pool) {
    && GoodIdentifier(pool.id, 100) && pool.cases != []
    && (forall i :: 0 <= i < |pool.cases| ==> GoodPoolCase(pool.cases[i]))
    && DistinctPool(pool.cases)
  }

  method ValidatePool(pool: Pool) returns (ok: bool)
    ensures ok <==> GoodPool(pool)
  {
    hide GoodPoolCase, GoodIdentifier;
    if !GoodIdentifier(pool.id, 100) || pool.cases == [] { return false; }
    var seen: set<string> := {};
    for k := 0 to |pool.cases|
      invariant forall i :: 0 <= i < k ==> GoodPoolCase(pool.cases[i])
      invariant forall i, j :: 0 <= i < j < k ==> pool.cases[i].id != pool.cases[j].id
      invariant forall x :: x in seen <==> exists i :: 0 <= i < k && pool.cases[i].id == x
    {
      if !GoodPoolCase(pool.cases[k]) || pool.cases[k].id in seen { return false; }
      seen := seen + {pool.cases[k].id};
    }
    ok := true;
  }

  /** `{c["id"]: c for c in pool["cases"]}`. */
  function SourceOf(cases: seq<PoolCase>): map<string, PoolCase> {
    if cases == [] then map[] else SourceOf(cases[..|cases| - 1])[cases[|cases| - 1].id := cases[|cases| - 1]]
  }

  lemma {:induction false} SourceFacts(cases: seq<PoolCase>)
    ensures forall k :: k in SourceOf(cases) ==> SourceOf(cases)[k] in cases && SourceOf(cases)[k].id == k
    ensures forall i :: 0 <= i < |cases| ==> cases[i].id in SourceOf(cases)
    ensures DistinctPool(cases) ==> forall i :: 0 <= i < |cases| ==> SourceOf(cases)[cases[i].id] == cases[i]
  {
    if cases != [] { SourceFacts(cases[..|cases| - 1]); }
  }

  // ----- _review_labels -----

  /** One label is complete and bound to the input of its case. */
  predicate GoodLabel(item: Label, source: map<string, PoolCase>, expected: set<string>) {
    && GoodIdentifier(item.id, 100) && item.id in expected && item.id in source
    && Parse(source[item.id].request).Success?
    && item.input == InputSha(Parse(source[item.id].request).value)
    && IsOptionOf(Parse(source[item.id].request).value, item.expectedOptionId)
    && GoodString(item.rationale, 4000)
  }

  predicate GoodCover(review: ReviewFile, pool: Pool) {
    && review.pool == pool && review.poolDigest == pool
    && GoodIdentifier(review.reviewerId, 100) && GoodString(review.reviewedAt, 100) && GoodString(review.splitSeed, 100)
  }

  ghost predicate DistinctLabels(items: seq<Label>) {
    forall i, j :: 0 <= i < j < |items| ==> items[i].id != items[j].id
  }

  /** The review covers exactly the expected cases, each once, with a usable label. */
  ghost predicate GoodReview(review: ReviewFile, pool: Pool, expected: set<string>) {
    && GoodCover(review, pool)
    && (forall i :: 0 <= i < |review.labels| ==> GoodLabel(review.labels[i], SourceOf(pool.cases), expected))
    && DistinctLabels(review.labels)
    && (forall k :: k in expected ==> exists i :: 0 <= i < |review.labels| && review.labels[i].id == k)
  }

  function ById(items: seq<Label>): map<string, Label> {
    if items == [] then map[] else ById(items[..|items| - 1])[items[|items| - 1].id := items[|items| - 1]]
  }

  lemma {:induction false} ByIdFacts(items: seq<Label>)
    ensures forall k :: k in ById(items) ==> ById(items)[k].id == k && ById(items)[k] in items
    ensures forall i :: 0 <= i < |items| ==> items[i].id in ById(items)
  {
    if items != [] { ByIdFacts(items[..|items| - 1]); }
  }

  method ReviewLabels(review: ReviewFile, pool: Pool, expected: set<string>) returns (r: Option<map<string, Label>>)
    ensures r.Some? <==> GoodReview(review, pool, expected)
    ensures r.Some? ==> r.value == ById(review.labels) && r.value.Keys == expected
  {
    hide *;
    if !GoodCover(review, pool) {
      BadCover(review, pool, expected);
      return None;
    }
    var byId: map<string, Label>, source := map[], SourceOf(pool.cases);
    NothingRead(review.labels, source, expected);
    for k := 0 to |review.labels|
      invariant Reading(review.labels, source, expected, byId, k)
    {
      var item := review.labels[k];
      if item.id in byId || !GoodLabel(item, source, expected) {
        BadLabel(review, pool, expected, byId, k);
        return None;
      }
      ReadOne(review.labels, source, expected, byId, k);
      byId := byId[item.id := item];
    }
    AllRead(review, pool, expected, byId);
    if byId.Keys != expected { return None; }
    r := Some(byId);
  }

  /** The first k labels are good and distinct, and `byId` holds them. */
  ghost predicate Reading(items: seq<Label>, source: map<string, PoolCase>, expected: set<string>,
                          byId: map<string, Label>, k: nat)
    requires k <= |items|
  {
    && byId == ById(items[..k])
    && (forall x :: x in byId <==> exists i :: 0 <= i < k && items[i].id == x)
    && (forall i :: 0 <= i < k ==> GoodLabel(items[i], source, expected))
    && (forall i, j :: 0 <= i < j < k ==> items[i].id != items[j].id)
  }

  lemma NothingRead(items: seq<Label>, source: map<string, PoolCase>, expected: set<string>)
    ensures Reading(items, source, expected, map[], 0)
  {
    hide GoodLabel;
  }

  lemma ReadOne(items: seq<Label>, source: map<string, PoolCase>, expected: set<string>, byId: map<string, Label>,
                k: nat)
    requires k < |items| && Reading(items, source, expected, byId, k)
    requires items[k].id !in byId && GoodLabel(items[k], source, expected)
    ensures Reading(items, source, expected, byId[items[k].id := items[k]], k + 1)
  {
    hide GoodLabel;
    assert items[..k + 1][..k] == items[..k];
  }

  lemma BadCover(review: ReviewFile, pool: Pool, expected: set<string>)
    requires !GoodCover(review, pool)
    ensures !GoodReview(review, pool, expected)
  {
    hide GoodCover;
  }

  lemma BadLabel(review: ReviewFile, pool: Pool, expected: set<string>, byId: map<string, Label>, k: nat)
    requires k < |review.labels| && Reading(review.labels, SourceOf(pool.cases), expected, byId, k)
    requires review.labels[k].id in byId || !GoodLabel(review.labels[k], SourceOf(pool.cases), expected)
    ensures !GoodReview(review, pool, expected)
  {
    hide GoodLabel, GoodCover;
  }

  lemma AllRead(review: ReviewFile, pool: Pool, expected: set<string>, byId: map<string, Label>)
    requires GoodCover(review, pool)
    requires Reading(review.labels, SourceOf(pool.cases), expected, byId, |review.labels|)
    ensures byId == ById(review.labels) && (byId.Keys == expected <==> GoodReview(review, pool, expected))
  {
    hide GoodLabel, GoodCover;
    assert review.labels[..|review.labels|] == review.labels;
    GoodLabelsAreExpected(review, SourceOf(pool.cases), expected);
  }

  lemma GoodLabelsAreExpected(review: ReviewFile, source: map<string, PoolCase>, expected: set<string>)
    requires forall i :: 0 <= i < |review.labels| ==> GoodLabel(review.labels[i], source, expected)
    ensures forall i :: 0 <= i < |review.labels| ==> review.labels[i].id in expected
  {
  }

  // ----- finalize_reviews -----

  ghost function PoolIds(pool: Pool): set<string> {
    set c | c in pool.cases :: c.id
  }

  /** The cases the two reviewers label differently. */
  function Disputed(pool: Pool, a: map<string, Label>, b: map<string, Label>): set<string> {
    set c | c in pool.cases && c.id in a && c.id in b && a[c.id].expectedOptionId != b[c.id].expectedOptionId :: c.id
  }

  function RecordOf(review: ReviewFile, item: Label): ReviewRecord {
    ReviewRecord(review.reviewerId, review.reviewedAt, item.id, item.input, item.expectedOptionId, item.rationale)
  }

  /** Both reviewers label the case, and the adjudicator does where they differ. */
  predicate CaseReviewed(c: PoolCase, first: ReviewFile, second: ReviewFile, adjudication: Option<ReviewFile>) {
    && c.id in ById(first.labels) && c.id in ById(second.labels)
    && (ById(first.labels)[c.id].expectedOptionId != ById(second.labels)[c.id].expectedOptionId
        ==> adjudication.Some? && c.id in ById(adjudication.value.labels))
  }

  /** The case the dataset gets: a disputed one follows the adjudicator, any other the common label. */
  function FinalCase(groupSplit: (string, string) -> Split, c: PoolCase, first: ReviewFile, second: ReviewFile,
                     adjudication: Option<ReviewFile>): Case
    requires CaseReviewed(c, first, second, adjudication)
  {
    var x, y := ById(first.labels)[c.id], ById(second.labels)[c.id];
    var both := [RecordOf(first, x), RecordOf(second, y)];
    var split := groupSplit(first.splitSeed, c.groupId);
    if x.expectedOptionId == y.expectedOptionId
    then Case(c.id, c.family, c.groupId, EXPERT, split, x.expectedOptionId, c.request, Some(c.provenance),
              Some(Review(Agreed, both)))
    else
      var z := ById(adjudication.value.labels)[c.id];
      Case(c.id, c.family, c.groupId, EXPERT, split, z.expectedOptionId, c.request, Some(c.provenance),
           Some(Review(Adjudicated, both + [RecordOf(adjudication.value, z)])))
  }

  /** The reviews by themselves are complete, independent and consistent. */
  ghost predicate Reviewed(first: ReviewFile, second: ReviewFile, adjudication: Option<ReviewFile>) {
    var pool := first.pool;
    && GoodPool(pool)
    && GoodReview(first, pool, PoolIds(pool)) && GoodReview(second, pool, PoolIds(pool))
    && first.reviewerId != second.reviewerId && first.splitSeed == second.splitSeed
    && var disputed := Disputed(pool, ById(first.labels), ById(second.labels));
       (if disputed == {} then adjudication == None
        else
          && adjudication.Some? && GoodReview(adjudication.value, pool, disputed)
          && adjudication.value.reviewerId != first.reviewerId && adjudication.value.reviewerId != second.reviewerId
          && adjudication.value.splitSeed == first.splitSeed)
  }

  lemma LabelledBy(review: ReviewFile, pool: Pool, expected: set<string>)
    requires GoodReview(review, pool, expected)
    ensures ById(review.labels).Keys == expected
    ensures forall k :: k in expected ==> GoodLabel(ById(review.labels)[k], SourceOf(pool.cases), expected)
    ensures forall k :: k in expected ==> ById(review.labels)[k].id == k
  {
    hide GoodCover;
    ByIdFacts(review.labels);
  }

  lemma ReviewedCase(first: ReviewFile, second: ReviewFile, adjudication: Option<ReviewFile>, c: PoolCase)
    requires Reviewed(first, second, adjudication) && c in first.pool.cases
    ensures CaseReviewed(c, first, second, adjudication)
  {
    hide GoodReview, GoodPool;
    LabelledBy(first, first.pool, PoolIds(first.pool));
    LabelledBy(second, first.pool, PoolIds(first.pool));
    var disputed := Disputed(first.pool, ById(first.labels), ById(second.labels));
    if adjudication.Some? && disputed != {} { LabelledBy(adjudication.value, first.pool, disputed); }
    assert ById(first.labels)[c.id].expectedOptionId != ById(second.labels)[c.id].expectedOptionId ==> c.id in disputed;
  }

  ghost function FinalCases(groupSplit: (string, string) -> Split, first: ReviewFile, second: ReviewFile,
                            adjudication: Option<ReviewFile>): (cs: seq<Case>)
    requires Reviewed(first, second, adjudication)
    ensures |cs| == |first.pool.cases|
  {
    hide Reviewed, GoodPool;
    seq(|first.pool.cases|, i requires 0 <= i < |first.pool.cases| =>
      (ReviewedCase(first, second, adjudication, first.pool.cases[i]);
       FinalCase(groupSplit, first.pool.cases[i], first, second, adjudication)))
  }

  /** Exactly when `finalize_reviews` returns a dataset. */
  ghost predicate Finalizable(groupSplit: (string, string) -> Split, normal: string -> string,
                              first: ReviewFile, second: ReviewFile, adjudication: Option<ReviewFile>)
  {
    && Reviewed(first, second, adjudication)
    && GoodIdentifier(first.pool.id + ".reviewed", 100)
    && ValidDataset(normal, FinalCases(groupSplit, first, second, adjudication))
  }

  method CheckReviews(first: ReviewFile, second: ReviewFile, adjudication: Option<ReviewFile>) returns (ok: bool)
    ensures ok <==> Reviewed(first, second, adjudication)
  {
    hide GoodReview, GoodPool, ById;
    var pool := first.pool;
    var good := ValidatePool(pool);
    if !good { return false; }
    var ids := set c | c in pool.cases :: c.id;
    var a := ReviewLabels(first, pool, ids);
    if a.None? { return false; }
    var b := ReviewLabels(second, pool, ids);
    if b.None? { return false; }
    if first.reviewerId == second.reviewerId || first.splitSeed != second.splitSeed { return false; }
    var disputed := Disputed(pool, a.value, b.value);
    if disputed == {} { return adjudication == None; }
    if adjudication.None? { return false; }
    var resolved := ReviewLabels(adjudication.value, pool, disputed);
    ok := resolved.Some?
      && adjudication.value.reviewerId != first.reviewerId && adjudication.value.reviewerId != second.reviewerId
      && adjudication.value.splitSeed == first.splitSeed;
  }

  /** The record kept of one label: who gave it and when, and the label as it was given. */
  ghost predicate Records(review: ReviewFile, x: Label, r: ReviewRecord) {
    && r.reviewerId == review.reviewerId && r.reviewedAt == review.reviewedAt && r.caseId == x.id
    && r.input == x.input && r.expectedOptionId == x.expectedOptionId && r.rationale == x.rationale
  }

  ghost predicate Labels(review: ReviewFile, x: Label, id: string) {
    x in review.labels && x.id == id
  }

  /** The common label where both reviewers agree; both records are kept. */
  ghost predicate AgreedOn(first: ReviewFile, second: ReviewFile, x: Label, y: Label, d: Case) {
    && d.review.Some? && d.review.value.status == Agreed && d.expectedOptionId == x.expectedOptionId
    && |d.review.value.records| == 2
    && Records(first, x, d.review.value.records[0]) && Records(second, y, d.review.value.records[1])
  }

  /** The label of the adjudicator; all three records are kept. */
  ghost predicate DecidedBy(first: ReviewFile, second: ReviewFile, third: ReviewFile, x: Label, y: Label, z: Label,
                            d: Case)
  {
    && d.review.Some? && d.review.value.status == Adjudicated && d.expectedOptionId == z.expectedOptionId
    && |d.review.value.records| == 3
    && Records(first, x, d.review.value.records[0]) && Records(second, y, d.review.value.records[1])
    && Records(third, z, d.review.value.records[2])
  }

  /** The case is that of the pool, in the split of its group, with the label the reviewers gave it. */
  ghost predicate Consensus(groupSplit: (string, string) -> Split, first: ReviewFile, second: ReviewFile,
                            adjudication: Option<ReviewFile>, c: PoolCase, d: Case)
  {
    && d.id == c.id && d.family == c.family && d.groupId == c.groupId && d.request == c.request
    && d.provenance == Some(c.provenance) && d.labelSource == "expert-reviewed"
    && d.split == groupSplit(first.splitSeed, c.groupId)
    && exists x, y :: Labels(first, x, c.id) && Labels(second, y, c.id)
         && if x.expectedOptionId == y.expectedOptionId then AgreedOn(first, second, x, y, d)
            else adjudication.Some?
                 && exists z :: Labels(adjudication.value, z, c.id)
                              && DecidedBy(first, second, adjudication.value, x, y, z, d)
  }

  lemma FinalCaseIsConsensus(groupSplit: (string, string) -> Split, first: ReviewFile, second: ReviewFile,
                             adjudication: Option<ReviewFile>, c: PoolCase, x: Label, y: Label)
    requires CaseReviewed(c, first, second, adjudication)
    requires x == ById(first.labels)[c.id] && y == ById(second.labels)[c.id]
    requires Labels(first, x, c.id) && Labels(second, y, c.id)
    requires x.expectedOptionId != y.expectedOptionId ==>
      Labels(adjudication.value, ById(adjudication.value.labels)[c.id], c.id)
    ensures Consensus(groupSplit, first, second, adjudication, c,
                      FinalCase(groupSplit, c, first, second, adjudication))
  {
    hide ById, Labels;
    var d := FinalCase(groupSplit, c, first, second, adjudication);
    if x.expectedOptionId == y.expectedOptionId {
      assert AgreedOn(first, second, x, y, d);
    } else {
      assert DecidedBy(first, second, adjudication.value, x, y, ById(adjudication.value.labels)[c.id], d);
    }
  }

  lemma FinalIsConsensus(groupSplit: (string, string) -> Split, first: ReviewFile, second: ReviewFile,
                         adjudication: Option<ReviewFile>, i: nat)
    requires Reviewed(first, second, adjudication) && i < |first.pool.cases|
    ensures Consensus(groupSplit, first, second, adjudication, first.pool.cases[i],
                      FinalCases(groupSplit, first, second, adjudication)[i])
  {
    hide Reviewed, ById, Consensus, FinalCase;
    var c := first.pool.cases[i];
    ReviewedCase(first, second, adjudication, c);
    ByIdFacts(first.labels);
    ByIdFacts(second.labels);
    if adjudication.Some? { ByIdFacts(adjudication.value.labels); }
    FinalCaseIsConsensus(groupSplit, first, second, adjudication, c, ById(first.labels)[c.id],
                         ById(second.labels)[c.id]);
  }

  /** Each reviewer labels a case once, so there is no choice in `Consensus`. */
  lemma OneLabelEach(review: ReviewFile, pool: Pool, expected: set<string>, x: Label, y: Label, id: string)
    requires GoodReview(review, pool, expected) && Labels(review, x, id) && Labels(review, y, id)
    ensures x == y
  {
    hide GoodLabel, GoodCover;
  }

  method FinalizeReviews(groupSplit: (string, string) -> Split, normal: string -> string,
                         first: ReviewFile, second: ReviewFile, adjudication: Option<ReviewFile>)
    returns (r: Option<Finalized>)
    ensures r.Some? <==> Finalizable(groupSplit, normal, first, second, adjudication)
    ensures r.Some? ==> r.value.cases == FinalCases(groupSplit, first, second, adjudication)
    ensures r.Some? ==> r.value.id == first.pool.id + ".reviewed" && |r.value.cases| == |first.pool.cases|
    ensures r.Some? ==> forall i :: 0 <= i < |r.value.cases| ==>
      Consensus(groupSplit, first, second, adjudication, first.pool.cases[i], r.value.cases[i])
  {
    hide Reviewed, ById, GoodIdentifier, ValidDataset, Consensus;
    var good := CheckReviews(first, second, adjudication);
    if !good { return None; }
    var pool, cases: seq<Case> := first.pool, [];
    var groupSplits: map<string, Split> := map[];
    for k := 0 to |pool.cases|
      invariant forall i :: 0 <= i < k ==> pool.cases[i].groupId in groupSplits
      invariant forall g :: g in groupSplits ==> groupSplits[g] == groupSplit(first.splitSeed, g)
    {
      groupSplits := groupSplits[pool.cases[k].groupId := groupSplit(first.splitSeed, pool.cases[k].groupId)];
    }
    for k := 0 to |pool.cases|
      invariant |cases| == k
      invariant forall i :: 0 <= i < k ==> cases[i] == FinalCases(groupSplit, first, second, adjudication)[i]
    {
      var c := pool.cases[k];
      ReviewedCase(first, second, adjudication, c);
      var x, y := ById(first.labels)[c.id], ById(second.labels)[c.id];
      var agreed := x.expectedOptionId == y.expectedOptionId;
      var records := [RecordOf(first, x), RecordOf(second, y)];
      var decision := x;
      if !agreed {
        decision := ById(adjudication.value.labels)[c.id];
        records := records + [RecordOf(adjudication.value, decision)];
      }
      cases := cases + [Case(c.id, c.family, c.groupId, EXPERT, groupSplits[c.groupId],
                             decision.expectedOptionId, c.request,
                             Some(c.provenance), Some(Review(if agreed then Agreed else Adjudicated, records)))];
    }
    assert cases == FinalCases(groupSplit, first, second, adjudication);
    var valid := ValidateDataset(normal, cases);
    if !valid || !GoodIdentifier(pool.id + ".reviewed", 100) { return None; }
    forall i | 0 <= i < |cases|
      ensures Consensus(groupSplit, first, second, adjudication, first.pool.cases[i], cases[i])
    {
      FinalIsConsensus(groupSplit, first, second, adjudication, i);
    }
    r := Some(Finalized(pool.id + ".reviewed", cases));
  }

  // ----- expert_reviewed accepts what finalize_reviews produces -----

  predicate NotBlank(s: string) {
    exists i :: 0 <= i < |s| && !IsBlank(s[i])
  }

  /** One review record is complete and bound to the case. */
  predicate GoodRecord(c: Case, q: Request, r: ReviewRecord) {
    && NotBlank(r.reviewerId) && NotBlank(r.rationale) && NotBlank(r.reviewedAt)
    && r.input == InputSha(q) && r.caseId == c.id && IsOptionOf(q, r.expectedOptionId)
  }

  predicate DistinctReviewers(records: seq<ReviewRecord>) {
    forall i, j :: 0 <= i < j < |records| ==> records[i].reviewerId != records[j].reviewerId
  }

  predicate ExpertReviewed(c: Case) {
    && c.labelSource == EXPERT && c.provenance.Some? && c.provenance.value.origin == Real
    && c.review.Some? && 2 <= |c.review.value.records| <= 3
    && Parse(c.request).Success?
    && (forall i :: 0 <= i < |c.review.value.records| ==>
          GoodRecord(c, Parse(c.request).value, c.review.value.records[i]))
    && DistinctReviewers(c.review.value.records)
    && var records := c.review.value.records;
       match c.review.value.status
       case Agreed => |records| == 2 && forall i :: 0 <= i < 2 ==> records[i].expectedOptionId == c.expectedOptionId
       case Adjudicated =>
         |records| == 3 && records[0].expectedOptionId != records[1].expectedOptionId
         && records[2].expectedOptionId == c.expectedOptionId
  }

  lemma RecordIsGood(review: ReviewFile, pool: Pool, expected: set<string>, c: PoolCase, d: Case)
    requires GoodReview(review, pool, expected) && GoodPool(pool) && c in pool.cases && c.id in expected
    requires d.id == c.id && d.request == c.request
    ensures c.id in ById(review.labels) && Parse(c.request).Success?
    ensures GoodRecord(d, Parse(c.request).value, RecordOf(review, ById(review.labels)[c.id]))
  {
    hide Parse, InputSha, IsOptionOf;
    LabelledBy(review, pool, expected);
    SourceFacts(pool.cases);
  }

  lemma FinalCaseIsReviewed(groupSplit: (string, string) -> Split, first: ReviewFile, second: ReviewFile,
                            adjudication: Option<ReviewFile>, i: nat)
    requires Reviewed(first, second, adjudication) && i < |first.pool.cases|
    ensures ExpertReviewed(FinalCases(groupSplit, first, second, adjudication)[i])
      <==> first.pool.cases[i].provenance.origin == Real
  {
    hide GoodReview, GoodPool, GoodRecord, Parse, ById;
    var pool, c := first.pool, first.pool.cases[i];
    var d := FinalCases(groupSplit, first, second, adjudication)[i];
    ReviewedCase(first, second, adjudication, c);
    RecordIsGood(first, pool, PoolIds(pool), c, d);
    RecordIsGood(second, pool, PoolIds(pool), c, d);
    if ById(first.labels)[c.id].expectedOptionId != ById(second.labels)[c.id].expectedOptionId {
      var disputed := Disputed(pool, ById(first.labels), ById(second.labels));
      assert c.id in disputed;
      RecordIsGood(adjudication.value, pool, disputed, c, d);
    }
  }

  /** In every finalized dataset exactly the real-source cases count as expert-reviewed, and no group is split. */
  lemma FinalizedIsExpertReviewed(groupSplit: (string, string) -> Split, normal: string -> string,
                                  first: ReviewFile, second: ReviewFile, adjudication: Option<ReviewFile>)
    requires Finalizable(groupSplit, normal, first, second, adjudication)
    ensures forall c :: c in FinalCases(groupSplit, first, second, adjudication) ==>
      (ExpertReviewed(c) <==> c.provenance.value.origin == Real)
    ensures var cs := FinalCases(groupSplit, first, second, adjudication);
      forall c, d :: c in cs && d in cs && c.groupId == d.groupId ==> c.split == d.split
  {
    hide Reviewed, ById, ExpertReviewed, ValidDataset;
    var cs := FinalCases(groupSplit, first, second, adjudication);
    forall i | 0 <= i < |cs|
      ensures ExpertReviewed(cs[i]) <==> cs[i].provenance.value.origin == Real
      ensures cs[i].split == groupSplit(first.splitSeed, cs[i].groupId)
    {
      ReviewedCase(first, second, adjudication, first.pool.cases[i]);
      FinalCaseIsReviewed(groupSplit, first, second, adjudication, i);
    }
  }

  // ----- The order of the two reviews does not matter -----

  lemma SwapReviewed(first: ReviewFile, second: ReviewFile, adjudication: Option<ReviewFile>)
    requires Reviewed(first, second, adjudication)
    ensures Reviewed(second, first, adjudication) && second.pool == first.pool
  {
    hide GoodPool, GoodLabel, DistinctLabels, ById;
    assert Disputed(first.pool, ById(first.labels), ById(second.labels))
        == Disputed(first.pool, ById(second.labels), ById(first.labels));
  }

  /** Equal in everything but the stored reviews. */
  predicate SameButReview(c: Case, d: Case) {
    c.(review := None) == d.(review := None)
  }

  predicate SameOutcome(c: Case, d: Case) {
    SameButReview(c, d) && c.review.Some? && d.review.Some? && c.review.value.status == d.review.value.status
  }

  lemma ReviewsDoNotMatter(normal: string -> string, cs: seq<Case>, ds: seq<Case>)
    requires |cs| == |ds| && forall i :: 0 <= i < |cs| ==> SameButReview(cs[i], ds[i])
    requires ValidDataset(normal, cs)
    ensures ValidDataset(normal, ds)
  {
    hide Parse, GoodIdentifier, IsOptionOf, GoodProvenance;
    forall i | 0 <= i < |ds| ensures GoodCase(ds[i]) { assert GoodCase(cs[i]); }
    forall i, j | 0 <= i < |ds| && 0 <= j < |ds| && Related(normal, ds[i], ds[j]) ensures ds[i].split == ds[j].split {
      assert Related(normal, cs[i], cs[j]);
    }
  }

  lemma SwapCase(groupSplit: (string, string) -> Split, first: ReviewFile, second: ReviewFile,
                 adjudication: Option<ReviewFile>, i: nat)
    requires Reviewed(first, second, adjudication) && Reviewed(second, first, adjudication) && second.pool == first.pool
    requires i < |first.pool.cases|
    ensures SameOutcome(FinalCases(groupSplit, first, second, adjudication)[i],
                        FinalCases(groupSplit, second, first, adjudication)[i])
  {
    hide ById, GoodPool, GoodReview;
    ReviewedCase(first, second, adjudication, first.pool.cases[i]);
  }

  /** Swapping the two reviews changes neither acceptance nor any label, split or review status. */
  lemma SwapChangesNothing(groupSplit: (string, string) -> Split, normal: string -> string,
                           first: ReviewFile, second: ReviewFile, adjudication: Option<ReviewFile>)
    requires Finalizable(groupSplit, normal, first, second, adjudication)
    ensures Finalizable(groupSplit, normal, second, first, adjudication)
    ensures var cs := FinalCases(groupSplit, first, second, adjudication);
      var ds := FinalCases(groupSplit, second, first, adjudication);
      |cs| == |ds| && forall i :: 0 <= i < |cs| ==> SameOutcome(cs[i], ds[i])
  {
    hide Reviewed, ValidDataset, FinalCases, SameButReview, GoodIdentifier;
    SwapReviewed(first, second, adjudication);
    var cs := FinalCases(groupSplit, first, second, adjudication);
    var ds := FinalCases(groupSplit, second, first, adjudication);
    forall i | 0 <= i < |cs| ensures SameOutcome(cs[i], ds[i]) {
      SwapCase(groupSplit, first, second, adjudication, i);
    }
    ReviewsDoNotMatter(normal, cs, ds);
  }

  // ----- A pool that can be reviewed but never finalized -----

  /**
   The dataset id is the pool id with ".reviewed" appended and obeys the same limit of 100 characters, so
   among well-formed pools exactly those with at most 91 characters pass this check.
   */
  lemma LongPoolIds(pool: Pool)
    requires GoodPool(pool)
    ensures GoodIdentifier(pool.id + ".reviewed", 100) <==> |pool.id| <= 91
  {
    hide GoodPoolCase, DistinctPool;
    var s := pool.id + ".reviewed";
    assert |s| == |pool.id| + 9;
    var i :| 0 <= i < |pool.id| && !IsBlank(pool.id[i]);
    assert s[i] == pool.id[i];
    forall k | 0 <= k < |s| ensures IsIdentifierChar(s[k]) {
      if k < |pool.id| { assert s[k] == pool.id[k]; } else { assert s[k] == ".reviewed"[k - |pool.id|]; }
    }
  }

  /** Such pools exist: one with an id of 92 characters can be reviewed but never finalized. */
  lemma LongPoolExists() returns (pool: Pool)
    ensures GoodPool(pool) && |pool.id| == 92 && !GoodIdentifier(pool.id + ".reviewed", 100)
  {
    var id := LongId();
    var c := SmallCase();
    hide GoodPoolCase, GoodIdentifier;
    pool := Pool(id, [c]);
    LongPoolIds(pool);
  }

  lemma LongId() returns (id: string)
    ensures |id| == 92 && GoodIdentifier(id, 100)
  {
    id := seq(92, i => 'a');
    assert !IsBlank(id[0]);
  }

  lemma SmallCase() returns (c: PoolCase)
    ensures GoodPoolCase(c)
  {
    var request := SmallRequest("c", "s");
    ShortIdentifier("s", 24000);
    ShortIdentifier("c", 100);
    SmallRequestParses("c", "s");
    ShortIdentifier("f", 100);
    ShortIdentifier("g", 100);
    ShortIdentifier("s", 100);
    ShortIdentifier("r", 1000);
    hide Parse, IsBlank, IsIdentifierChar;
    c := PoolCase("c", "f", "g", Provenance(Real, "s", "r"), request);
  }
}
