/**
 `qualify`: the holdout evidence is replayed raw, calibrated and reversed, and the gates decide.  Passing
 grants no routing authority; it states exactly the conditions below.
 */
module Qualification {
  import opened Elementary
  import opened Outcomes
  import opened Contracts
  import opened Engine
  import opened Dataset
  import opened Annotations
  import opened Reports
  import opened Experiment
  import opened Recomputation
  import J = JointRisk
  import Median
  import M = EvaluationMetrics
  import R = GroupRisk
  import B = Binomial

  datatype Verdict = Verdict(
    baseline: seq<CaseRow>, adjusted: seq<CaseRow>, reversedAdjusted: seq<CaseRow>,
    risk: R.Risk, families: map<string, R.Risk>, passed: bool)

  function EvidenceOf(row: CaseRow, reverse: bool): Recorded {
    if reverse then row.reversedResult.GetOr(row.result) else row.result
  }

  function ReplayOf(a: Analysis, report: Report, c: Case, row: CaseRow, calibration: Option<Fitted>,
                    reverse: bool): CaseRow
    requires a.Lawful()
  {
    Replay(a, c, EvidenceOf(row, reverse), report.model, report.policy, calibration, reverse)
  }

  /** Every recorded row replayed against its own case. */
  function ReplayAll(a: Analysis, report: Report, expected: map<string, Case>, calibration: Option<Fitted>,
                     reverse: bool)
    : (rows: seq<CaseRow>)
    requires a.Lawful() && forall i :: 0 <= i < |report.rows| ==> report.rows[i].id in expected
    ensures |rows| == |report.rows|
    ensures forall i :: 0 <= i < |rows| ==>
      rows[i] == ReplayOf(a, report, expected[report.rows[i].id], report.rows[i], calibration, reverse)
  {
    seq(|report.rows|, i requires 0 <= i < |report.rows| =>
      ReplayOf(a, report, expected[report.rows[i].id], report.rows[i], calibration, reverse))
  }

  function RiskRow(r: CaseRow): R.Row {
    R.Row(r.groupId, M.IsAccepted(MetricRow(r)), r.correct)
  }

  function RiskRows(rows: seq<CaseRow>): (rs: seq<R.Row>)
    ensures |rs| == |rows| && forall i :: 0 <= i < |rows| ==> rs[i] == RiskRow(rows[i])
  {
    seq(|rows|, i requires 0 <= i < |rows| => RiskRow(rows[i]))
  }

  function InFamily(rows: seq<CaseRow>, family: string): (chosen: seq<CaseRow>)
    ensures forall r :: r in chosen <==> r in rows && r.family == family
  {
    if rows == [] then []
    else
      var last := rows[|rows| - 1];
      assert rows == rows[..|rows| - 1] + [last];
      InFamily(rows[..|rows| - 1], family) + if last.family == family then [last] else []
  }

  function Families(rows: seq<CaseRow>): set<string> {
    set r | r in rows :: r.family
  }

  // ----- The gates -----

  /** The counts are of distinct groups and the bound is a Clopper-Pearson bound for exactly those counts. */
  ghost predicate IsRisk(risk: R.Risk, rows: seq<CaseRow>, confidence: real) {
    && risk.acceptedGroups == |R.AcceptedGroups(RiskRows(rows))|
    && risk.groupsWithErrors == |R.FailedGroups(RiskRows(rows))| <= risk.acceptedGroups
    && B.Bounds(risk.acceptedGroups, risk.groupsWithErrors, confidence, risk.riskUpperBound)
    && risk.confidence == confidence
  }

  predicate RiskAllowed(risk: R.Risk, minimumGroups: int, maximum: real) {
    risk.acceptedGroups >= minimumGroups && risk.riskUpperBound <= maximum
  }

  /** Accepted results out of all attempts. */
  ghost function Coverage(rows: seq<CaseRow>): real
    requires rows != []
  {
    |M.AcceptedRows(MetricRows(rows))| as real / |rows| as real
  }

  ghost function Accuracy(rows: seq<CaseRow>): real
    requires rows != []
  {
    M.CountCorrect(MetricRows(rows)) as real / |rows| as real
  }

  ghost predicate NoFailures(rows: seq<CaseRow>) {
    |M.ScoredRows(MetricRows(rows))| == |rows|
  }

  ghost predicate AllReviewed(cs: seq<Case>) {
    forall i :: 0 <= i < |cs| ==> ExpertReviewed(cs[i])
  }

  ghost predicate FamilyPasses(k: Criteria, adjusted: seq<CaseRow>, reversed: seq<CaseRow>, f: string, risk: R.Risk) {
    && RiskAllowed(risk, k.minAcceptedGroupsPerFamily, k.maxGroupRisk)
    && InFamily(adjusted, f) != [] && Coverage(InFamily(adjusted, f)) >= k.minCoverage
    && InFamily(reversed, f) != [] && Coverage(InFamily(reversed, f)) >= k.minCoverage
  }

  /** Both orders are complete, accurate and covered; every case is reviewed; each risk bound is small enough. */
  ghost predicate Passes(plan: Plan, targets: seq<Case>, v: Verdict) {
    var k := plan.criteria;
    && plan.profile.Some? && AllReviewed(targets)
    && NoFailures(v.adjusted) && NoFailures(v.reversedAdjusted)
    && RiskAllowed(v.risk, k.minAcceptedGroups, k.maxGroupRisk)
    && v.adjusted != [] && v.reversedAdjusted != []
    && Accuracy(v.adjusted) >= k.minAccuracy && Accuracy(v.reversedAdjusted) >= k.minAccuracy
    && Coverage(v.adjusted) >= k.minCoverage && Coverage(v.reversedAdjusted) >= k.minCoverage
    && forall f :: f in v.families ==> FamilyPasses(k, v.adjusted, v.reversedAdjusted, f, v.families[f])
  }

  function BoundConfidence(k: Criteria, families: nat): real {
    B.BonferroniConfidence(k.confidence, families)
  }

  lemma BoundConfidenceInRange(k: Criteria, families: nat)
    requires GoodCriteria(k)
    ensures 0.0 < BoundConfidence(k, families) < 1.0 && BoundConfidence(k, families) >= 0.5
  {
    hide GoodIdentifier;
    B.SplitError(1.0 - k.confidence, (families + 1) as real);
    SplitLeavesMore(1.0 - k.confidence, (families + 1) as real);
  }

  lemma SplitLeavesMore(error: real, n: real)
    requires error >= 0.0 && n >= 1.0
    ensures error / n <= error
  {
    var q := error / n;
    assert q * n == error;
    if q > error { MulLess(n, error, q); MulLeq(error, 1.0, n); }
  }

  /** The risk figures are the bounds they claim to be, and the verdict is the conjunction of the gates. */
  ghost predicate Gated(plan: Plan, targets: seq<Case>, v: Verdict) {
    var confidence := BoundConfidence(plan.criteria, |Families(v.adjusted)|);
    && IsRisk(v.risk, v.adjusted + v.reversedAdjusted, confidence)
    && v.families.Keys == Families(v.adjusted)
    && (forall f :: f in v.families ==>
          IsRisk(v.families[f], InFamily(v.adjusted, f) + InFamily(v.reversedAdjusted, f), confidence))
    && (v.passed <==> Passes(plan, targets, v))
  }

  /** No figure is looser than the resolution of the search. */
  ghost predicate TightFigures(v: Verdict) {
    R.Tight(v.risk) && forall f :: f in v.families ==> R.Tight(v.families[f])
  }

  ghost predicate Judged(a: Analysis, cases: seq<Case>, report: Report, x: Artifact, plan: Plan, v: Verdict)
    requires a.Lawful() && forall i :: 0 <= i < |report.rows| ==> report.rows[i].id in Expected(cases, Holdout)
  {
    var expected := Expected(cases, Holdout);
    && v.baseline == ReplayAll(a, report, expected, None, false)
    && v.adjusted == ReplayAll(a, report, expected, Some(FittedBy(x)), false)
    && v.reversedAdjusted == ReplayAll(a, report, expected, Some(FittedBy(x)), true)
    && Gated(plan, SplitCases(cases, CalibrationSplit) + CasesOf(report.rows, expected), v)
  }

  /** `sum(expert_reviewed(c) for c in cs) == len(cs)`. */
  method CountReviewed(cs: seq<Case>) returns (n: nat)
    ensures n <= |cs| && (n == |cs| <==> AllReviewed(cs))
  {
    hide ExpertReviewed;
    n := 0;
    for k := 0 to |cs|
      invariant n <= k && (n == k <==> forall i :: 0 <= i < k ==> ExpertReviewed(cs[i]))
    {
      if ExpertReviewed(cs[k]) { n := n + 1; }
    }
  }

  method Assess(a: Analysis, rows: seq<CaseRow>, confidence: real) returns (risk: R.Risk)
    requires a.Lawful() && 0.0 < confidence < 1.0
    ensures IsRisk(risk, rows, confidence) && R.Tight(risk)
  {
    hide R.Tight;
    var r := R.RiskOf(a, RiskRows(rows), confidence);
    risk := r.value;
  }

  /** `metrics(rows)`, as far as the gates read it. */
  method Shares(rows: seq<CaseRow>) returns (accuracy: real, coverage: real, failures: nat)
    requires rows != [] && forall i :: 0 <= i < |rows| ==> M.WellScored(MetricRow(rows[i]))
    ensures accuracy == Accuracy(rows) && coverage == Coverage(rows)
    ensures failures == 0 <==> NoFailures(rows)
  {
    hide M.WellScored, M.CountCorrect, M.AcceptedRows, M.ScoredRows, M.Totals, M.BinSizes;
    var m := M.MetricsOf(MetricRows(rows));
    accuracy := m.correct as real / m.attempted as real;
    coverage := m.accepted as real / m.attempted as real;
    failures := m.backendErrors;
  }

  method Replays(a: Analysis, normal: string -> string, cases: seq<Case>, report: Report, rows: seq<(Case, CaseRow)>,
                 calibration: Option<Fitted>, reverse: bool)
    returns (replayed: seq<CaseRow>)
    requires a.Lawful() && ValidDataset(normal, cases)
    requires |rows| == |report.rows| && forall i :: 0 <= i < |rows| ==>
      rows[i].1 == report.rows[i] && report.rows[i].id in Expected(cases, Holdout)
      && rows[i].0 == Expected(cases, Holdout)[report.rows[i].id]
    ensures replayed == ReplayAll(a, report, Expected(cases, Holdout), calibration, reverse)
    ensures forall i :: 0 <= i < |replayed| ==> M.WellScored(MetricRow(replayed[i]))
    ensures forall i :: 0 <= i < |replayed| ==> replayed[i].family == rows[i].0.family
  {
    hide Replay, GoodCase, Expected, SplitCases, NoLeak, M.WellScored;
    ExpectedFacts(cases, Holdout);
    replayed := [];
    for k := 0 to |rows|
      invariant |replayed| == k && forall i :: 0 <= i < k ==>
        && replayed[i] == ReplayOf(a, report, rows[i].0, rows[i].1, calibration, reverse)
        && M.WellScored(MetricRow(replayed[i])) && replayed[i].family == rows[i].0.family
    {
      var c, raw := rows[k].0, EvidenceOf(rows[k].1, reverse);
      ReplayIsWellScored(a, c, raw, report.model, report.policy, calibration, reverse);
      ReplayNames(a, c, raw, report.model, report.policy, calibration, reverse);
      replayed := replayed + [Replay(a, c, raw, report.model, report.policy, calibration, reverse)];
    }
    assert replayed == ReplayAll(a, report, Expected(cases, Holdout), calibration, reverse);
  }

  lemma ReplayNames(a: Analysis, c: Case, raw: Recorded, model: Identity, policy: Policy, calibration: Option<Fitted>,
                    reverse: bool)
    requires a.Lawful()
    ensures var r := Replay(a, c, raw, model, policy, calibration, reverse);
      r.family == c.family && r.groupId == c.groupId
  {
  }

  ghost predicate Paired(adjusted: seq<CaseRow>, reversed: seq<CaseRow>) {
    && |adjusted| == |reversed|
    && forall i :: 0 <= i < |adjusted| ==>
         && M.WellScored(MetricRow(adjusted[i])) && M.WellScored(MetricRow(reversed[i]))
         && adjusted[i].family == reversed[i].family
  }

  /** One risk bound and three gates. */
  method OneFamily(a: Analysis, k: Criteria, adjusted: seq<CaseRow>, reversed: seq<CaseRow>, confidence: real,
                   f: string)
    returns (risk: R.Risk, passes: bool)
    requires a.Lawful() && 0.0 < confidence < 1.0 && Paired(adjusted, reversed) && f in Families(adjusted)
    ensures IsRisk(risk, InFamily(adjusted, f) + InFamily(reversed, f), confidence) && R.Tight(risk)
    ensures passes <==> FamilyPasses(k, adjusted, reversed, f, risk)
  {
    hide M.WellScored, InFamily, IsRisk, R.Tight, Coverage, RiskAllowed, Paired, Families;
    FamilyRows(adjusted, reversed, f);
    risk := Assess(a, InFamily(adjusted, f) + InFamily(reversed, f), confidence);
    var accuracy, coverage, failures := Shares(InFamily(adjusted, f));
    var accuracy', coverage', failures' := Shares(InFamily(reversed, f));
    passes := RiskAllowed(risk, k.minAcceptedGroupsPerFamily, k.maxGroupRisk)
              && coverage >= k.minCoverage && coverage' >= k.minCoverage;
  }

  /** The loop over the families. */
  method FamilyGates(a: Analysis, k: Criteria, adjusted: seq<CaseRow>, reversed: seq<CaseRow>, confidence: real)
    returns (families: map<string, R.Risk>, ok: bool)
    requires a.Lawful() && 0.0 < confidence < 1.0 && Paired(adjusted, reversed)
    ensures families.Keys == Families(adjusted)
    ensures forall f :: f in families ==>
      IsRisk(families[f], InFamily(adjusted, f) + InFamily(reversed, f), confidence) && R.Tight(families[f])
    ensures ok <==> forall f :: f in families ==> FamilyPasses(k, adjusted, reversed, f, families[f])
  {
    hide InFamily, IsRisk, R.Tight, FamilyPasses, Paired, Families;
    families, ok := map[], true;
    var left := Families(adjusted);
    while left != {}
      invariant left <= Families(adjusted) && families.Keys == Families(adjusted) - left
      invariant forall f :: f in families ==>
        IsRisk(families[f], InFamily(adjusted, f) + InFamily(reversed, f), confidence) && R.Tight(families[f])
      invariant ok <==> forall f :: f in families ==> FamilyPasses(k, adjusted, reversed, f, families[f])
      decreases left
    {
      var f :| f in left;
      left := left - {f};
      var risk, passes := OneFamily(a, k, adjusted, reversed, confidence, f);
      families := families[f := risk];
      ok := ok && passes;
    }
  }

  lemma FamilyRows(adjusted: seq<CaseRow>, reversed: seq<CaseRow>, f: string)
    requires Paired(adjusted, reversed) && f in Families(adjusted)
    ensures InFamily(adjusted, f) != [] && InFamily(reversed, f) != []
    ensures forall i :: 0 <= i < |InFamily(adjusted, f)| ==> M.WellScored(MetricRow(InFamily(adjusted, f)[i]))
    ensures forall i :: 0 <= i < |InFamily(reversed, f)| ==> M.WellScored(MetricRow(InFamily(reversed, f)[i]))
  {
    hide M.WellScored, InFamily;
    var i :| 0 <= i < |adjusted| && adjusted[i].family == f;
    assert adjusted[i] in adjusted && reversed[i] in reversed;
    assert adjusted[i] in InFamily(adjusted, f) && reversed[i] in InFamily(reversed, f);
    FamilyIsScored(adjusted, f);
    FamilyIsScored(reversed, f);
  }

  lemma FamilyIsScored(rows: seq<CaseRow>, f: string)
    requires forall i :: 0 <= i < |rows| ==> M.WellScored(MetricRow(rows[i]))
    ensures forall i :: 0 <= i < |InFamily(rows, f)| ==> M.WellScored(MetricRow(InFamily(rows, f)[i]))
  {
    hide M.WellScored;
    forall k | 0 <= k < |InFamily(rows, f)| ensures M.WellScored(MetricRow(InFamily(rows, f)[k])) {
      assert InFamily(rows, f)[k] in rows;
    }
  }

  method CheckEvidence(a: Analysis, normal: string -> string, cases: seq<Case>, report: Report, x: Artifact, plan: Plan,
                       now: int)
    returns (rows: Option<seq<(Case, CaseRow)>>)
    requires a.Lawful()
    ensures rows.Some? <==> Qualifiable(a, normal, cases, report, x, plan, now)
    ensures rows.Some? ==> |rows.value| == |report.rows| && forall i :: 0 <= i < |report.rows| ==>
      rows.value[i].1 == report.rows[i] && report.rows[i].id in Expected(cases, Holdout)
      && rows.value[i].0 == Expected(cases, Holdout)[report.rows[i].id]
  {
    hide ValidPlan, Admissible, ValidEvidence, GoodArtifact, FittedOn, Expected;
    var valid := ValidatePlan(normal, plan, cases);
    if !valid || !GoodArtifact(x) || x.model != report.model || !FittedOn(x, plan, cases)
       || !(plan.createdAt <= x.createdAt <= report.startedAt)
    {
      return None;
    }
    rows := ScoringRows(a, report, cases, Holdout, true);
    if rows.Some? && !ValidEvidence(plan, report, now) { rows := None; }
  }

  method Gates(a: Analysis, plan: Plan, targets: seq<Case>, baseline: seq<CaseRow>, adjusted: seq<CaseRow>,
                  reversed: seq<CaseRow>)
    returns (v: Verdict)
    requires a.Lawful() && GoodCriteria(plan.criteria) && adjusted != [] && Paired(adjusted, reversed)
    ensures v.baseline == baseline && v.adjusted == adjusted && v.reversedAdjusted == reversed
      && Gated(plan, targets, v)
    ensures TightFigures(v)
  {
    hide M.WellScored, IsRisk, R.Tight, Accuracy, Coverage, NoFailures, AllReviewed, RiskAllowed, FamilyPasses,
         InFamily, GoodCriteria, Families, BoundConfidence;
    var k := plan.criteria;
    var confidence := BoundConfidence(k, |Families(adjusted)|);
    BoundConfidenceInRange(k, |Families(adjusted)|);
    var risk := Assess(a, adjusted + reversed, confidence);
    var reviewed := CountReviewed(targets);
    var accuracy, coverage, failures := Shares(adjusted);
    var accuracy', coverage', failures' := Shares(reversed);
    var families, familiesPass := FamilyGates(a, k, adjusted, reversed, confidence);
    var passed := plan.profile.Some? && reviewed == |targets| && failures + failures' == 0
                  && RiskAllowed(risk, k.minAcceptedGroups, k.maxGroupRisk)
                  && accuracy >= k.minAccuracy && accuracy' >= k.minAccuracy
                  && coverage >= k.minCoverage && coverage' >= k.minCoverage
                  && familiesPass;
    v := Verdict(baseline, adjusted, reversed, risk, families, passed);
  }

  /** The three replays of one case: of what was recorded in the given order, of that again, and in reverse. */
  ghost predicate CaseReplayed(a: Analysis, plan: Plan, x: Artifact, c: Case, row: CaseRow, baseline: CaseRow,
                               adjusted: CaseRow, reversedAdjusted: CaseRow)
  {
    && Parse(c.request).Success? && row.reversedResult.Some?
    && Recomputed(a, plan.policy, c, Asked(c, false), row.result, 1.0, baseline)
    && Replayed(a, plan, x, c, false, row.result, adjusted)
    && Replayed(a, plan, x, c, true, row.reversedResult.value, reversedAdjusted)
  }

  /** At the temperature of the artifact, or refused because the artifact was not fitted for such requests. */
  ghost predicate Replayed(a: Analysis, plan: Plan, x: Artifact, c: Case, reverse: bool, raw: Recorded,
                           again: CaseRow)
    requires Parse(c.request).Success?
  {
    && Repeats(c, raw, again)
    && (SchemaSha(Asked(c, reverse)) in x.scopes ==>
          Recomputed(a, plan.policy, c, Asked(c, reverse), raw, x.temperature, again))
    && (SchemaSha(Asked(c, reverse)) !in x.scopes && raw.decision.body.Computed? ==>
          again.result.decision.body == Failed(CalibrationOutOfScope))
  }

  /** Every row of the evidence belongs to a holdout case, and its replays are made from what it recorded. */
  ghost predicate ReplaysRecorded(a: Analysis, cases: seq<Case>, report: Report, x: Artifact, plan: Plan, v: Verdict) {
    && |v.baseline| == |v.adjusted| == |v.reversedAdjusted| == |report.rows|
    && forall i :: 0 <= i < |report.rows| ==>
         RowReplayed(a, cases, plan, x, report.rows[i], v.baseline[i], v.adjusted[i], v.reversedAdjusted[i])
  }

  ghost predicate RowReplayed(a: Analysis, cases: seq<Case>, plan: Plan, x: Artifact, row: CaseRow, baseline: CaseRow,
                              adjusted: CaseRow, reversedAdjusted: CaseRow)
  {
    && (exists c :: c in cases && c.split == Holdout && c.id == row.id)
    && forall c :: c in cases && c.split == Holdout && c.id == row.id ==>
         CaseReplayed(a, plan, x, c, row, baseline, adjusted, reversedAdjusted)
  }

  lemma ReplayInOrOut(a: Analysis, report: Report, plan: Plan, x: Artifact, c: Case, reverse: bool, raw: Recorded)
    requires a.Lawful() && GoodCase(c) && x.temperature > 0.0 && report.policy == plan.policy
    requires BoundTo(a, report, c, if reverse then ReversedRaw(c.request) else c.request, raw)
    ensures Parse(c.request).Success?
    ensures Replayed(a, plan, x, c, reverse, raw,
                     Replay(a, c, raw, report.model, report.policy, Some(FittedBy(x)), reverse))
  {
    hide BoundTo, GoodCase, Parse, Replay, Recomputed, Repeats, SchemaSha, ReversedRaw;
    AskedParses(c, reverse);
    ReplayRepeats(a, c, raw, report.model, report.policy, Some(FittedBy(x)), reverse);
    if SchemaSha(Asked(c, reverse)) in x.scopes {
      ReplayRecomputes(a, report, c, raw, Some(FittedBy(x)), reverse);
    } else if raw.decision.body.Computed? {
      ReplayOutOfScope(a, report, c, raw, FittedBy(x), reverse);
    }
  }

  lemma RowIsReplayed(a: Analysis, report: Report, plan: Plan, x: Artifact, c: Case, row: CaseRow)
    requires a.Lawful() && GoodCase(c) && x.temperature > 0.0 && report.policy == plan.policy
    requires GoodRow(a, report, c, true, row)
    ensures CaseReplayed(a, plan, x, c, row, ReplayOf(a, report, c, row, None, false),
                         ReplayOf(a, report, c, row, Some(FittedBy(x)), false),
                         ReplayOf(a, report, c, row, Some(FittedBy(x)), true))
  {
    hide BoundTo, GoodCase, Parse, Replay, Recomputed, Replayed, ReversedRaw;
    ReplayRecomputes(a, report, c, row.result, None, false);
    ReplayInOrOut(a, report, plan, x, c, false, row.result);
    ReplayInOrOut(a, report, plan, x, c, true, row.reversedResult.value);
  }

  lemma AdmittedRowFacts(a: Analysis, normal: string -> string, cases: seq<Case>, report: Report, i: nat)
    requires a.Lawful() && ValidDataset(normal, cases) && Admissible(a, report, cases, Holdout, true)
    requires i < |report.rows|
    ensures report.rows[i].id in Expected(cases, Holdout)
    ensures var c := Expected(cases, Holdout)[report.rows[i].id];
      && c in cases && c.split == Holdout && c.id == report.rows[i].id && GoodCase(c)
      && GoodRow(a, report, c, true, report.rows[i])
      && forall d :: d in cases && d.split == Holdout && d.id == report.rows[i].id ==> d == c
  {
    hide GoodRow, GoodCase, Expected, SplitCases, NoLeak;
    ExpectedFacts(cases, Holdout);
    forall d | d in cases && d.split == Holdout && d.id == report.rows[i].id
      ensures d == Expected(cases, Holdout)[report.rows[i].id]
    {
      ExpectedIs(cases, Holdout, d);
    }
  }

  lemma AdmittedRowReplayed(a: Analysis, normal: string -> string, cases: seq<Case>, report: Report, x: Artifact,
                            plan: Plan, i: nat)
    requires a.Lawful() && ValidDataset(normal, cases) && Admissible(a, report, cases, Holdout, true)
    requires x.temperature > 0.0 && report.policy == plan.policy
    requires i < |report.rows| && report.rows[i].id in Expected(cases, Holdout)
    ensures var c, row := Expected(cases, Holdout)[report.rows[i].id], report.rows[i];
      RowReplayed(a, cases, plan, x, row, ReplayOf(a, report, c, row, None, false),
                  ReplayOf(a, report, c, row, Some(FittedBy(x)), false),
                  ReplayOf(a, report, c, row, Some(FittedBy(x)), true))
  {
    hide Admissible, ValidDataset, GoodRow, GoodCase, Expected, ReplayOf, CaseReplayed;
    AdmittedRowFacts(a, normal, cases, report, i);
    RowIsReplayed(a, report, plan, x, Expected(cases, Holdout)[report.rows[i].id], report.rows[i]);
  }

  lemma JudgedRows(a: Analysis, cases: seq<Case>, report: Report, x: Artifact, plan: Plan, v: Verdict)
    requires a.Lawful() && forall i :: 0 <= i < |report.rows| ==> report.rows[i].id in Expected(cases, Holdout)
    requires Judged(a, cases, report, x, plan, v)
    ensures |v.baseline| == |v.adjusted| == |v.reversedAdjusted| == |report.rows|
    ensures forall i :: 0 <= i < |report.rows| ==>
      var c, row := Expected(cases, Holdout)[report.rows[i].id], report.rows[i];
      && v.baseline[i] == ReplayOf(a, report, c, row, None, false)
      && v.adjusted[i] == ReplayOf(a, report, c, row, Some(FittedBy(x)), false)
      && v.reversedAdjusted[i] == ReplayOf(a, report, c, row, Some(FittedBy(x)), true)
  {
    hide Expected, Gated, ReplayOf;
  }

  lemma JudgedReplaysRecorded(a: Analysis, normal: string -> string, cases: seq<Case>, report: Report, x: Artifact,
                              plan: Plan, now: int, v: Verdict)
    requires a.Lawful() && Qualifiable(a, normal, cases, report, x, plan, now)
    requires forall i :: 0 <= i < |report.rows| ==> report.rows[i].id in Expected(cases, Holdout)
    requires Judged(a, cases, report, x, plan, v)
    ensures ReplaysRecorded(a, cases, report, x, plan, v)
  {
    hide Qualifiable, Admissible, ValidDataset, Expected, Judged, ReplayOf, RowReplayed, GoodCriteria, FittedBy;
    EvidenceFacts(a, normal, cases, report, x, plan, now);
    QualifiableTemperature(a, normal, cases, report, x, plan, now);
    JudgedRows(a, cases, report, x, plan, v);
    forall i | 0 <= i < |report.rows|
      ensures RowReplayed(a, cases, plan, x, report.rows[i], v.baseline[i], v.adjusted[i], v.reversedAdjusted[i])
    {
      AdmittedRowReplayed(a, normal, cases, report, x, plan, i);
    }
  }

  lemma QualifiableTemperature(a: Analysis, normal: string -> string, cases: seq<Case>, report: Report, x: Artifact,
                               plan: Plan, now: int)
    requires a.Lawful() && Qualifiable(a, normal, cases, report, x, plan, now)
    ensures x.temperature > 0.0 && Admissible(a, report, cases, Holdout, true)
  {
    hide Admissible, ValidPlan, FittedOn, ValidEvidence;
  }

  /** Evidence is judged exactly when every provenance check holds; the verdict is then what `Judged` says. */
  method Qualify(a: Analysis, normal: string -> string, cases: seq<Case>, report: Report, x: Artifact, plan: Plan,
                 now: int)
    returns (r: Option<Verdict>)
    requires a.Lawful()
    ensures r.Some? <==> Qualifiable(a, normal, cases, report, x, plan, now)
    ensures r.Some? ==> (forall i :: 0 <= i < |report.rows| ==> report.rows[i].id in Expected(cases, Holdout))
                        && Judged(a, cases, report, x, plan, r.value) && TightFigures(r.value)
    ensures r.Some? ==> r.value.adjusted != [] && Paired(r.value.adjusted, r.value.reversedAdjusted)
    ensures r.Some? ==> ReplaysRecorded(a, cases, report, x, plan, r.value)
  {
    hide ReplaysRecorded, TightFigures, Qualifiable, Expected, SplitCases, M.WellScored, ReplayOf, ValidDataset, Gated,
         GoodCriteria;
    var rows := CheckEvidence(a, normal, cases, report, x, plan, now);
    if rows.None? { return None; }
    EvidenceFacts(a, normal, cases, report, x, plan, now);
    var baseline := Replays(a, normal, cases, report, rows.value, None, false);
    var adjusted := Replays(a, normal, cases, report, rows.value, Some(FittedBy(x)), false);
    var reversed := Replays(a, normal, cases, report, rows.value, Some(FittedBy(x)), true);
    var targets := SplitCases(cases, CalibrationSplit) + CasesOf(report.rows, Expected(cases, Holdout));
    var v := Gates(a, plan, targets, baseline, adjusted, reversed);
    JudgedReplaysRecorded(a, normal, cases, report, x, plan, now, v);
    r := Some(v);
  }

  lemma EvidenceFacts(a: Analysis, normal: string -> string, cases: seq<Case>, report: Report, x: Artifact, plan: Plan,
                      now: int)
    requires a.Lawful() && Qualifiable(a, normal, cases, report, x, plan, now)
    ensures ValidDataset(normal, cases) && GoodCriteria(plan.criteria) && report.rows != []
      && report.policy == plan.policy
    ensures forall i :: 0 <= i < |report.rows| ==> report.rows[i].id in Expected(cases, Holdout)
  {
    hide GoodRow, ValidDataset, GoodArtifact, FittedOn, Expected, GoodCriteria, GoodPolicy, GoodProfile;
  }

  // ----- What a verdict says -----

  /** Replaying in both orders never adds an independent sample: the groups counted are groups of the holdout. */
  lemma VariantsAddNoGroups(a: Analysis, normal: string -> string, cases: seq<Case>, report: Report, x: Artifact,
                            plan: Plan, now: int, v: Verdict)
    requires a.Lawful() && Qualifiable(a, normal, cases, report, x, plan, now)
    requires forall i :: 0 <= i < |report.rows| ==> report.rows[i].id in Expected(cases, Holdout)
    requires Judged(a, cases, report, x, plan, v)
    ensures R.AcceptedGroups(RiskRows(v.adjusted + v.reversedAdjusted)) <= GroupIds(SplitCases(cases, Holdout))
    ensures v.risk.acceptedGroups <= |GroupIds(SplitCases(cases, Holdout))|
  {
    hide Qualifiable, Expected, SplitCases, ReplayAll, Passes, IsRisk, GroupIds, R.AcceptedGroups, InFamily;
    var expected, fitted := Expected(cases, Holdout), Some(FittedBy(x));
    ReplayGroups(a, report, cases, fitted, false);
    ReplayGroups(a, report, cases, fitted, true);
    GroupsWithin(v.adjusted, v.reversedAdjusted, GroupIds(SplitCases(cases, Holdout)));
    RiskCount(v.risk, v.adjusted + v.reversedAdjusted, BoundConfidence(plan.criteria, |Families(v.adjusted)|));
    R.FewerInSubset(R.AcceptedGroups(RiskRows(v.adjusted + v.reversedAdjusted)), GroupIds(SplitCases(cases, Holdout)));
  }

  lemma GroupsWithin(first: seq<CaseRow>, second: seq<CaseRow>, groups: set<string>)
    requires forall r :: r in first || r in second ==> r.groupId in groups
    ensures R.AcceptedGroups(RiskRows(first + second)) <= groups
  {
    var both := first + second;
    forall i | 0 <= i < |both| ensures both[i].groupId in groups { assert both[i] in first || both[i] in second; }
  }

  lemma ReplayGroups(a: Analysis, report: Report, cases: seq<Case>, calibration: Option<Fitted>, reverse: bool)
    requires a.Lawful() && forall i :: 0 <= i < |report.rows| ==> report.rows[i].id in Expected(cases, Holdout)
    ensures forall r :: r in ReplayAll(a, report, Expected(cases, Holdout), calibration, reverse) ==>
      r.groupId in GroupIds(SplitCases(cases, Holdout))
  {
    hide Expected, SplitCases, Replay;
    ExpectedFacts(cases, Holdout);
    var expected := Expected(cases, Holdout);
    forall i | 0 <= i < |report.rows|
      ensures ReplayAll(a, report, expected, calibration, reverse)[i].groupId in GroupIds(SplitCases(cases, Holdout))
    {
      var c := expected[report.rows[i].id];
      ReplayNames(a, c, EvidenceOf(report.rows[i], reverse), report.model, report.policy, calibration, reverse);
    }
  }

  lemma RiskCount(risk: R.Risk, rows: seq<CaseRow>, confidence: real)
    requires IsRisk(risk, rows, confidence)
    ensures risk.acceptedGroups == |R.AcceptedGroups(RiskRows(rows))|
  {
  }

  /** Under a genuinely frozen plan the baseline and the calibrated replay have identical correctness flags. */
  lemma VerdictComparesFairly(a: Analysis, normal: string -> string, cases: seq<Case>, report: Report, x: Artifact,
                              plan: Plan, now: int, v: Verdict, i: nat)
    requires a.Lawful() && Qualifiable(a, normal, cases, report, x, plan, now) && Frozen(normal, plan)
    requires forall i :: 0 <= i < |report.rows| ==> report.rows[i].id in Expected(cases, Holdout)
    requires Judged(a, cases, report, x, plan, v) && i < |report.rows|
    ensures v.baseline[i].correct == v.adjusted[i].correct
    ensures v.baseline[i].result.decision.body.Computed? == v.adjusted[i].result.decision.body.Computed?
  {
    hide Qualifiable, Expected, SplitCases, Replay, Passes, IsRisk, Frozen;
    EvidenceFacts(a, normal, cases, report, x, plan, now);
    CalibratedMatchesBaseline(a, normal, cases, report, x, plan, now, i, false);
  }

  /** The gates are no stricter than the data: rates below a figure by more than the resolution are not excluded. */
  lemma FiguresAreTight(plan: Plan, targets: seq<Case>, v: Verdict, risk: R.Risk, p: real)
    requires GoodCriteria(plan.criteria) && Gated(plan, targets, v) && TightFigures(v) && 0.0 <= p <= 1.0
    requires (risk == v.risk || risk in v.families.Values) && 0 < risk.groupsWithErrors < risk.acceptedGroups
    ensures Median.Bracketed(risk.acceptedGroups, risk.groupsWithErrors,
                             BoundConfidence(plan.criteria, |Families(v.adjusted)|), risk.riskUpperBound, p)
  {
    hide Median.Bracketed, B.Bounds, Families, InFamily, GoodCriteria, BoundConfidence, Passes;
    BoundConfidenceInRange(plan.criteria, |Families(v.adjusted)|);
    if risk != v.risk {
      var f :| f in v.families && v.families[f] == risk;
      assert R.Tight(v.families[f]);
    }
  }

  // ----- What a pass is worth -----

  /** The figures of these rows on this draw: the accepted groups are the given ones, the failing ones as drawn. */
  ghost predicate Shows(risk: R.Risk, rows: seq<CaseRow>, groups: set<string>, bound: (nat, nat) -> real, d: J.Draw) {
    && R.AcceptedGroups(RiskRows(rows)) == groups && R.FailedGroups(RiskRows(rows)) == d.failing * groups
    && risk.riskUpperBound == bound(risk.acceptedGroups, risk.groupsWithErrors)
  }

  /** The verdict on one draw: overall and family by family, over fixed accepted groups. */
  ghost predicate Observed(v: Verdict, groups: set<string>, families: map<string, set<string>>,
                           bound: (nat, nat) -> real, d: J.Draw)
  {
    && Shows(v.risk, v.adjusted + v.reversedAdjusted, groups, bound, d)
    && v.families.Keys == families.Keys
    && forall f :: f in families ==>
         Shows(v.families[f], InFamily(v.adjusted, f) + InFamily(v.reversedAdjusted, f), families[f], bound, d)
  }

  ghost function PassesOn(verdict: J.Draw -> Verdict): J.Draw -> bool {
    d => verdict(d).passed
  }

  lemma ShownFigures(risk: R.Risk, rows: seq<CaseRow>, confidence: real, groups: set<string>,
                     bound: (nat, nat) -> real, d: J.Draw)
    requires IsRisk(risk, rows, confidence) && Shows(risk, rows, groups, bound, d)
    ensures risk.riskUpperBound == bound(|groups|, J.Failed(groups, d))
  {
  }

  /** A pass clears the risk gate with every bound. */
  lemma PassClears(plan: Plan, targets: seq<Case>, v: Verdict, groups: set<string>, families: map<string, set<string>>,
                   bound: (nat, nat) -> real, d: J.Draw, part: J.Part)
    requires Gated(plan, targets, v) && v.passed && Observed(v, groups, families, bound, d)
    requires part.groups == groups || part.groups in families.Values
    ensures J.Cleared(part, bound, plan.criteria.maxGroupRisk, d)
  {
    hide IsRisk, Shows, Families, NoFailures, AllReviewed, Accuracy, Coverage, InFamily, BoundConfidence;
    var confidence := BoundConfidence(plan.criteria, |Families(v.adjusted)|);
    if part.groups == groups {
      ShownFigures(v.risk, v.adjusted + v.reversedAdjusted, confidence, groups, bound, d);
    } else {
      var f :| f in families && families[f] == part.groups;
      assert FamilyPasses(plan.criteria, v.adjusted, v.reversedAdjusted, f, v.families[f]);
      ShownFigures(v.families[f], InFamily(v.adjusted, f) + InFamily(v.reversedAdjusted, f), confidence, families[f],
                   bound, d);
    }
  }

  /**
   Once the true risk behind the overall bound or behind one family bound exceeds the maximum of the plan, the chance
   of a passing verdict is at most the share of the error that this one bound was given.  Only the failures of the
   unsafe groups are constrained; how the other groups fail, and how all of this hangs together, is left open.
   */
  lemma UnsafeRarelyPasses(plan: Plan, targets: seq<Case>, verdict: J.Draw -> Verdict, groups: set<string>,
                           families: map<string, set<string>>, bound: (nat, nat) -> real, space: seq<J.Draw>,
                           unsafe: J.Part)
    requires GoodCriteria(plan.criteria) && J.NonNegative(space) && J.LowTail(space, unsafe)
    requires unsafe.groups == groups || unsafe.groups in families.Values
    requires unsafe.risk > plan.criteria.maxGroupRisk
    requires J.IsBound(bound, BoundConfidence(plan.criteria, |families|))
    requires forall d :: d in space ==>
      Gated(plan, targets, verdict(d)) && Observed(verdict(d), groups, families, bound, d)
    ensures J.Chance(space, PassesOn(verdict)) <= (1.0 - plan.criteria.confidence) / (|families| + 1) as real
  {
    hide Gated, Observed, J.Chance, J.LowTail, J.IsBound, J.Cleared, GoodCriteria;
    var maximum := plan.criteria.maxGroupRisk;
    BoundConfidenceInRange(plan.criteria, |families|);
    forall d | d in space && PassesOn(verdict)(d) ensures J.Clears(unsafe, bound, maximum)(d) {
      PassClears(plan, targets, verdict(d), groups, families, bound, d, unsafe);
    }
    J.Smaller(space, PassesOn(verdict), J.Clears(unsafe, bound, maximum));
    J.UnsafeClearsRarely(space, unsafe, bound, BoundConfidence(plan.criteria, |families|), maximum);
  }

  /**
   So when groups fail independently, each with a probability of its own, one family whose groups all fail with more
   than the maximum probability makes a pass unlikely, however safe the others are.
   */
  lemma UnsafeFamilyRarelyPasses(plan: Plan, targets: seq<Case>, verdict: J.Draw -> Verdict, groups: seq<string>,
                                 risk: string -> real, families: map<string, set<string>>, bound: (nat, nat) -> real,
                                 f: string, r: real)
    requires GoodCriteria(plan.criteria) && J.Distinct(groups) && J.AreRisks(groups, risk)
    requires f in families && families[f] <= J.Members(groups)
    requires plan.criteria.maxGroupRisk < r <= 1.0 && forall g :: g in families[f] ==> r <= risk(g)
    requires J.IsBound(bound, BoundConfidence(plan.criteria, |families|))
    requires forall d :: d in J.Independent(groups, risk) ==>
      Gated(plan, targets, verdict(d)) && Observed(verdict(d), J.Members(groups), families, bound, d)
    ensures J.Chance(J.Independent(groups, risk), PassesOn(verdict))
         <= (1.0 - plan.criteria.confidence) / (|families| + 1) as real
  {
    hide Gated, Observed, J.Chance, J.IsBound, J.Independent, J.LowTail, BoundConfidence;
    var unsafe := J.Part(families[f], r);
    J.IndependentIsJoint(groups, risk, [unsafe]);
    assert J.LowTail(J.Independent(groups, risk), [unsafe][0]);
    UnsafeRarelyPasses(plan, targets, verdict, J.Members(groups), families, bound, J.Independent(groups, risk), unsafe);
  }
}
