/** What a passing verdict means, counted on its rows, and what the evidence behind any verdict has in common. */
module Verdicts {
  import opened Elementary
  import opened Outcomes
  import opened Engine
  import opened Dataset
  import opened Annotations
  import opened Reports
  import opened Experiment
  import opened Qualification
  import M = EvaluationMetrics

  ghost function Count(rows: seq<CaseRow>, f: CaseRow -> bool): nat {
    if rows == [] then 0 else Count(rows[..|rows| - 1], f) + if f(rows[|rows| - 1]) then 1 else 0
  }

  ghost function Any(): CaseRow -> bool {
    (r: CaseRow) => true
  }

  ghost function IsCorrect(): CaseRow -> bool {
    (r: CaseRow) => r.correct
  }

  ghost function Answered(): CaseRow -> bool {
    (r: CaseRow) => r.result.decision.body.Computed? && r.result.decision.body.reason == Accepted
  }

  ghost function Of(family: string, f: CaseRow -> bool): CaseRow -> bool {
    (r: CaseRow) => r.family == family && f(r)
  }

  /** At least this share of the rows. */
  ghost predicate Reaches(part: nat, whole: nat, share: real) {
    part as real >= share * whole as real
  }

  // ----- Counting -----

  lemma {:induction false} CountAll(rows: seq<CaseRow>)
    ensures Count(rows, Any()) == |rows|
  {
    if rows != [] { CountAll(rows[..|rows| - 1]); }
  }

  lemma {:induction false} CountsOf(rows: seq<CaseRow>)
    ensures |M.AcceptedRows(MetricRows(rows))| == Count(rows, Answered())
    ensures M.CountCorrect(MetricRows(rows)) == Count(rows, IsCorrect())
    ensures |M.ScoredRows(MetricRows(rows))| <= |rows|
    ensures |M.ScoredRows(MetricRows(rows))| == |rows| <==> forall r :: r in rows ==> r.result.decision.body.Computed?
  {
    if rows != [] {
      var before, last := rows[..|rows| - 1], rows[|rows| - 1];
      CountsOf(before);
      assert MetricRows(rows)[..|rows| - 1] == MetricRows(before);
      assert rows == before + [last];
    }
  }

  lemma {:induction false} CountInFamily(rows: seq<CaseRow>, family: string, f: CaseRow -> bool)
    ensures Count(InFamily(rows, family), f) == Count(rows, Of(family, f))
  {
    if rows != [] {
      var before, last := rows[..|rows| - 1], rows[|rows| - 1];
      CountInFamily(before, family, f);
      var chosen := InFamily(before, family);
      assert (chosen + [last])[..|chosen|] == chosen && chosen + [] == chosen;
    }
  }

  lemma Quotient(part: nat, whole: nat, share: real)
    requires whole > 0
    ensures part as real / whole as real >= share <==> Reaches(part, whole, share)
  {
    var n, q := whole as real, part as real / whole as real;
    assert q * n == part as real;
    if q >= share { MulLeq(n, share, q); } else { MulLess(n, q, share); }
  }

  lemma AccuracyReaches(rows: seq<CaseRow>, share: real)
    requires rows != []
    ensures Accuracy(rows) >= share <==> Reaches(Count(rows, IsCorrect()), |rows|, share)
  {
    CountsOf(rows);
    hide Reaches, IsCorrect, Count, M.CountCorrect;
    Quotient(Count(rows, IsCorrect()), |rows|, share);
  }

  lemma CoverageReaches(rows: seq<CaseRow>, share: real)
    requires rows != []
    ensures Coverage(rows) >= share <==> Reaches(Count(rows, Answered()), |rows|, share)
  {
    CountsOf(rows);
    hide Reaches, Answered, Count, M.AcceptedRows;
    Quotient(Count(rows, Answered()), |rows|, share);
  }

  lemma FamilyCoverage(rows: seq<CaseRow>, f: string, share: real)
    requires InFamily(rows, f) != []
    ensures Coverage(InFamily(rows, f)) >= share
      <==> Reaches(Count(rows, Of(f, Answered())), Count(rows, Of(f, Any())), share)
  {
    hide *;
    CoverageReaches(InFamily(rows, f), share);
    CountInFamily(rows, f, Answered());
    CountInFamily(rows, f, Any());
    CountAll(InFamily(rows, f));
  }

  // ----- The verdict -----

  /** Both orders: every row scored, enough of them correct, enough of them accepted. */
  ghost predicate OrderPasses(k: Criteria, rows: seq<CaseRow>) {
    && (forall r :: r in rows ==> r.result.decision.body.Computed?)
    && Reaches(Count(rows, IsCorrect()), |rows|, k.minAccuracy)
    && Reaches(Count(rows, Answered()), |rows|, k.minCoverage)
  }

  ghost predicate FamilyCleared(k: Criteria, v: Verdict, f: string)
    requires f in v.families
  {
    && v.families[f].acceptedGroups >= k.minAcceptedGroupsPerFamily && v.families[f].riskUpperBound <= k.maxGroupRisk
    && Reaches(Count(v.adjusted, Of(f, Answered())), Count(v.adjusted, Of(f, Any())), k.minCoverage)
    && Reaches(Count(v.reversedAdjusted, Of(f, Answered())), Count(v.reversedAdjusted, Of(f, Any())), k.minCoverage)
  }

  lemma PairedLengths(adjusted: seq<CaseRow>, reversed: seq<CaseRow>)
    requires Paired(adjusted, reversed)
    ensures |adjusted| == |reversed|
  {
  }

  /**
   A verdict passes if and only if the profile was frozen, experts reviewed every case, both orders are complete,
   accurate and covered, and the risk bounds of all groups and of each family are low enough over enough groups.
   */
  lemma PassesIff(plan: Plan, targets: seq<Case>, v: Verdict)
    requires Gated(plan, targets, v) && v.adjusted != [] && Paired(v.adjusted, v.reversedAdjusted)
    ensures v.passed <==>
      && plan.profile.Some? && (forall i :: 0 <= i < |targets| ==> ExpertReviewed(targets[i]))
      && OrderPasses(plan.criteria, v.adjusted) && OrderPasses(plan.criteria, v.reversedAdjusted)
      && v.risk.acceptedGroups >= plan.criteria.minAcceptedGroups
      && v.risk.riskUpperBound <= plan.criteria.maxGroupRisk
      && forall f :: f in v.families ==> FamilyCleared(plan.criteria, v, f)
  {
    hide Count, Reaches, IsRisk, ExpertReviewed, InFamily, Accuracy, Coverage, Families, BoundConfidence,
         M.AcceptedRows, M.ScoredRows, M.CountCorrect, Paired;
    assert |v.reversedAdjusted| > 0 by { PairedLengths(v.adjusted, v.reversedAdjusted); }
    var k := plan.criteria;
    CountsOf(v.adjusted);
    CountsOf(v.reversedAdjusted);
    AccuracyReaches(v.adjusted, k.minAccuracy);
    AccuracyReaches(v.reversedAdjusted, k.minAccuracy);
    CoverageReaches(v.adjusted, k.minCoverage);
    CoverageReaches(v.reversedAdjusted, k.minCoverage);
    forall f | f in v.families
      ensures FamilyCleared(k, v, f) <==> FamilyPasses(k, v.adjusted, v.reversedAdjusted, f, v.families[f])
    {
      FamilyRows(v.adjusted, v.reversedAdjusted, f);
      FamilyCoverage(v.adjusted, f, k.minCoverage);
      FamilyCoverage(v.reversedAdjusted, f, k.minCoverage);
    }
    hide FamilyCleared, FamilyPasses;
  }

  // ----- The evidence -----

  /** The result was computed uncalibrated, by the frozen runtime, model and policy. */
  ghost predicate ResultInProfile(r: Recorded, p: Profile) {
    && r.runtimeVersion == p.runtimeVersion && r.decision.model == p.model
    && r.decision.policy == p.policy && r.decision.calibration == p.calibration
  }

  /** Both results of a row are there, and both were computed in the profile. */
  ghost predicate RowWitnessed(row: CaseRow, p: Profile) {
    && ResultInProfile(row.result, p)
    && row.reversedResult.Some? && ResultInProfile(row.reversedResult.value, p)
  }

  lemma RowsAreWitnessed(a: Analysis, cases: seq<Case>, report: Report, plan: Plan, now: int)
    requires a.Lawful() && plan.profile.Some? && ValidEvidence(plan, report, now)
    requires Admissible(a, report, cases, Holdout, true)
    ensures forall i :: 0 <= i < |report.rows| ==> RowWitnessed(report.rows[i], plan.profile.value)
  {
    hide BoundTo, GoodCase, Expected;
    forall i | 0 <= i < |report.rows| ensures RowWitnessed(report.rows[i], plan.profile.value) {
      assert RowInProfile(report.rows[i], plan.profile.value);
      assert GoodRow(a, report, Expected(cases, Holdout)[report.rows[i].id], true, report.rows[i]);
    }
  }

  /** Plan, fit and holdout run follow each other in time and speak of one dataset, one model and one policy. */
  lemma EvidenceIsOneChain(a: Analysis, normal: string -> string, cases: seq<Case>, report: Report, x: Artifact,
                           plan: Plan, now: int)
    requires a.Lawful() && Qualifiable(a, normal, cases, report, x, plan, now)
    ensures plan.createdAt <= x.createdAt <= report.startedAt <= report.createdAt <= now
    ensures plan.dataset == cases && x.dataset == cases && report.dataset == cases && x.plan == plan
    ensures x.model == report.model && report.policy == plan.policy && x.scopes == plan.scopes
    ensures report.split == Holdout
    ensures plan.profile.Some? ==>
      && report.runtimeVersion == plan.profile.value.runtimeVersion && report.model == plan.profile.value.model
      && forall i :: 0 <= i < |report.rows| ==> RowWitnessed(report.rows[i], plan.profile.value)
    ensures forall id :: id in x.caseIds <==> exists c :: c in cases && c.split == CalibrationSplit && c.id == id
    ensures forall i :: 0 <= i < |report.rows| ==> report.rows[i].id !in x.caseIds
  {
    hide ValidDataset, GoodRows, GoodCriteria, GoodPolicy, GoodProfile, SplitCases, Expected, CaseIds;
    var cs := SplitCases(cases, CalibrationSplit);
    forall id ensures id in x.caseIds <==> exists c :: c in cases && c.split == CalibrationSplit && c.id == id {
      IdIn(cs, id);
    }
    RowsAreHoldout(a, normal, cases, report, plan);
    if plan.profile.Some? { RowsAreWitnessed(a, cases, report, plan, now); }
    hide RowWitnessed, RowInProfile;
  }

  lemma RowsAreHoldout(a: Analysis, normal: string -> string, cases: seq<Case>, report: Report, plan: Plan)
    requires a.Lawful() && ValidPlan(normal, plan, cases) && Admissible(a, report, cases, Holdout, true)
    ensures forall i, c :: 0 <= i < |report.rows| && c in cases && c.split == CalibrationSplit ==>
      c.id != report.rows[i].id
  {
    hide GoodRow, GoodCase, Expected, SplitCases, NoLeak, GoodCriteria, GoodPolicy, GoodProfile;
    forall i, c | 0 <= i < |report.rows| && c in cases && c.split == CalibrationSplit
      ensures c.id != report.rows[i].id
    {
      AdmittedRowFacts(a, normal, cases, report, i);
      var d := Expected(cases, Holdout)[report.rows[i].id];
      assert d in cases && d.split != c.split;
    }
  }
}
