/**
 The frozen experiment: `freeze_plan`, `fit_calibration`, the preflight guard and the evidence checks of
 `qualify`.  A seal is an injective digest, so a sealed artifact is identified with its content; times are
 ticks of one nondecreasing clock.
 */
module Experiment {
  import opened Elementary
  import opened Outcomes
  import opened Softmax
  import opened Contracts
  import opened Engine
  import opened Dataset
  import opened Reports
  import C = Calibration
  import M = EvaluationMetrics
  import O = Optimizer

  datatype Criteria = Criteria(
    id: string, minAccuracy: real, minCoverage: real, maxGroupRisk: real, confidence: real,
    minAcceptedGroups: int, minAcceptedGroupsPerFamily: int)

  datatype Profile = Profile(runtimeVersion: string, model: Identity, policy: Policy, calibration: Option<Fitted>)

  /** With an execution profile the plan has schema v2, without one v1. */
  datatype Plan = Plan(
    createdAt: int, dataset: seq<Case>, policy: Policy, criteria: Criteria, model: Identity,
    scopes: set<Digest>, profile: Option<Profile>)

  datatype Artifact = Artifact(
    createdAt: int, temperature: real, dataset: seq<Case>, plan: Plan, report: Report, model: Identity,
    scopes: set<Digest>, caseIds: multiset<string>, groupIds: set<string>, fit: C.Fit)

  predicate GoodCriteria(k: Criteria) {
    && GoodIdentifier(k.id, 100)
    && 0.0 <= k.minAccuracy <= 1.0 && 0.0 <= k.minCoverage <= 1.0 && 0.0 <= k.maxGroupRisk <= 1.0
    && 0.5 <= k.confidence <= 0.9999
    && k.minAcceptedGroups >= 1 && k.minAcceptedGroupsPerFamily >= 1
  }

  /** Every entry of `part` appears in `whole`. */
  predicate Extends(whole: Identity, part: Identity) {
    forall k :: k in part ==> k in whole && whole[k] == part[k]
  }

  predicate GoodProfile(p: Profile, policy: Policy, model: Identity) {
    GoodString(p.runtimeVersion, 80) && Extends(p.model, model) && p.policy == policy && p.calibration == None
  }

  predicate GoodWeights(model: Identity) {
    && model.Keys == {"repository", "revision", "artifactSha256", "tokenizerSha256"}
    && forall k :: k in model ==> GoodString(model[k], 300)
  }

  // ----- freeze_plan and validate_plan -----

  function ScopeOf(c: Case): Option<Digest> {
    if Parse(c.request).Success? then Some(SchemaSha(Parse(c.request).value)) else None
  }

  function ScopesOf(cs: seq<Case>): set<Digest> {
    set c | c in cs && ScopeOf(c).Some? :: ScopeOf(c).value
  }

  ghost predicate Freezable(normal: string -> string, cases: seq<Case>, policy: Policy, criteria: Criteria,
                            model: Identity, profile: Option<Profile>)
  {
    && ValidDataset(normal, cases) && GoodCriteria(criteria) && GoodWeights(model)
    && SplitCases(cases, CalibrationSplit) != [] && SplitCases(cases, Holdout) != []
    && ScopesOf(SplitCases(cases, Holdout)) <= ScopesOf(SplitCases(cases, CalibrationSplit))
    && (profile.Some? ==> GoodProfile(profile.value, policy, model))
  }

  method FreezePlan(normal: string -> string, cases: seq<Case>, policy: Policy, criteria: Criteria, model: Identity,
                    profile: Option<Profile>, now: int)
    returns (r: Option<Plan>)
    ensures r.Some? <==> Freezable(normal, cases, policy, criteria, model, profile)
    ensures r.Some? ==>
      r.value == Plan(now, cases, policy, criteria, model, ScopesOf(SplitCases(cases, CalibrationSplit)), profile)
  {
    hide ValidDataset, ScopeOf, GoodCriteria, GoodWeights, GoodProfile;
    var valid := ValidateDataset(normal, cases);
    if !valid || !GoodCriteria(criteria) || !GoodWeights(model) { return None; }
    var calibration, holdout := SplitCases(cases, CalibrationSplit), SplitCases(cases, Holdout);
    if calibration == [] || holdout == [] { return None; }
    var scopes := ScopesOf(calibration);
    for k := 0 to |holdout|
      invariant forall i :: 0 <= i < k && ScopeOf(holdout[i]).Some? ==> ScopeOf(holdout[i]).value in scopes
    {
      if ScopeOf(holdout[k]).Some? && ScopeOf(holdout[k]).value !in scopes {
        assert ScopeOf(holdout[k]).value in ScopesOf(holdout) by { assert holdout[k] in holdout; }
        return None;
      }
    }
    if profile.Some? && !GoodProfile(profile.value, policy, model) { return None; }
    r := Some(Plan(now, cases, policy, criteria, model, scopes, profile));
  }

  ghost predicate ValidPlan(normal: string -> string, plan: Plan, cases: seq<Case>) {
    && ValidDataset(normal, cases) && GoodCriteria(plan.criteria) && GoodPolicy(plan.policy)
    && plan.dataset == cases
    && (plan.profile.Some? ==> GoodProfile(plan.profile.value, plan.policy, plan.model))
  }

  method ValidatePlan(normal: string -> string, plan: Plan, cases: seq<Case>) returns (ok: bool)
    ensures ok <==> ValidPlan(normal, plan, cases)
  {
    var valid := ValidateDataset(normal, cases);
    ok := valid && GoodCriteria(plan.criteria) && GoodPolicy(plan.policy) && plan.dataset == cases
          && (plan.profile.Some? ==> GoodProfile(plan.profile.value, plan.policy, plan.model));
  }

  /** A frozen plan validates against its own dataset and no other, provided its policy is in range. */
  lemma FrozenPlanValidates(normal: string -> string, cases: seq<Case>, policy: Policy, criteria: Criteria,
                            model: Identity, profile: Option<Profile>, now: int, other: seq<Case>)
    requires Freezable(normal, cases, policy, criteria, model, profile)
    ensures var plan := Plan(now, cases, policy, criteria, model, ScopesOf(SplitCases(cases, CalibrationSplit)),
                             profile);
      ValidPlan(normal, plan, other) <==> GoodPolicy(policy) && other == cases
  {
    hide ValidDataset, GoodPolicy, GoodCriteria, GoodProfile;
  }

  function SmallCase(id: string, group: string, split: Split, state: string): Case {
    Case(id, "f", group, "r", split, "x", SmallRequest(id, state), None, None)
  }

  lemma SmallCaseIsGood(id: string, group: string, split: Split, state: string)
    requires GoodIdentifier(id, 100) && GoodIdentifier(group, 100) && GoodString(state, 24000)
    ensures GoodCase(SmallCase(id, group, split, state))
    ensures ScopeOf(SmallCase(id, group, split, state))
         == Some(SchemaDigest("q", Choice, SortById(ParseOptions(TWO_OPTIONS)), None))
  {
    SmallRequestParses(id, state);
    SmallOptions();
    ShortIdentifier("f", 100);
    ShortIdentifier("r", 100);
    ShortIdentifier("x", 100);
    hide GoodIdentifier, Parse, SortById;
  }

  lemma PairSplits(c: Case, h: Case)
    requires c.split == CalibrationSplit && h.split == Holdout
    ensures SplitCases([c, h], CalibrationSplit) == [c] && SplitCases([c, h], Holdout) == [h]
  {
    assert [c, h][..1] == [c] && [c][..0] == [];
    assert SplitCases([c], CalibrationSplit) == [c] && SplitCases([c], Holdout) == [];
  }

  lemma PairIsValid(normal: string -> string, c: Case, h: Case)
    requires GoodCase(c) && GoodCase(h) && c.id != h.id && c.groupId != h.groupId
    requires normal(c.request.state) != normal(h.request.state) && c.provenance == None
    ensures ValidDataset(normal, [c, h])
  {
    hide GoodCase;
  }

  lemma SameScopes(c: Case, h: Case)
    requires ScopeOf(c) == ScopeOf(h)
    ensures ScopesOf([h]) <= ScopesOf([c])
  {
    hide ScopeOf;
    assert c in [c];
  }

  /** Two cases of one schema that share nothing, one in each split. */
  lemma SmallPair(normal: string -> string) returns (c: Case, h: Case)
    requires normal("s") != normal("t")
    ensures ValidDataset(normal, [c, h])
    ensures SplitCases([c, h], CalibrationSplit) == [c] && SplitCases([c, h], Holdout) == [h]
    ensures ScopesOf([h]) <= ScopesOf([c])
  {
    hide GoodIdentifier, GoodCase, ScopeOf, ValidDataset, ScopesOf, SplitCases, SmallRequest;
    c, h := SmallCase("c", "g", CalibrationSplit, "s"), SmallCase("h", "i", Holdout, "t");
    assert c.id[0] != h.id[0] && c.groupId[0] != h.groupId[0];
    ShortIdentifier("c", 100);
    ShortIdentifier("g", 100);
    ShortIdentifier("h", 100);
    ShortIdentifier("i", 100);
    SmallStates();
    SmallCaseIsGood("c", "g", CalibrationSplit, "s");
    SmallCaseIsGood("h", "i", Holdout, "t");
    assert c.request.state == "s" && h.request.state == "t" by { StateOfSmall("c", "s"); StateOfSmall("h", "t"); }
    PairIsValid(normal, c, h);
    PairSplits(c, h);
    SameScopes(c, h);
  }

  lemma SmallStates()
    ensures GoodString("s", 24000) && GoodString("t", 24000)
  {
    assert !IsBlank("s"[0]) && !IsBlank("t"[0]);
  }

  lemma StateOfSmall(id: string, state: string)
    ensures SmallRequest(id, state).state == state
  {
  }

  lemma SmallModel() returns (model: Identity)
    ensures GoodWeights(model)
  {
    model := map["repository" := "a", "revision" := "a", "artifactSha256" := "a", "tokenizerSha256" := "a"];
    ShortIdentifier("a", 300);
    hide GoodString;
  }

  lemma SmallCriteria() returns (criteria: Criteria)
    ensures GoodCriteria(criteria)
  {
    criteria := Criteria("k", 0.0, 0.0, 0.5, 0.9, 1, 1);
    ShortIdentifier("k", 100);
    hide GoodIdentifier;
  }

  /** A plan with an impossible policy can be frozen, under any normalisation that tells these two states apart. */
  lemma BadPolicyFreezes(normal: string -> string)
    returns (cases: seq<Case>, policy: Policy, criteria: Criteria, model: Identity)
    requires normal("s") != normal("t")
    ensures Freezable(normal, cases, policy, criteria, model, None) && !GoodPolicy(policy)
    ensures !ValidPlan(normal, Plan(0, cases, policy, criteria, model, ScopesOf(SplitCases(cases, CalibrationSplit)),
                                    None), cases)
  {
    policy := Policy("p", 2.0, 0.0);
    assert !GoodPolicy(policy);
    hide GoodPolicy, GoodCase, GoodWeights, GoodCriteria, ValidDataset, ScopesOf, SplitCases;
    criteria := SmallCriteria();
    model := SmallModel();
    var c, h := SmallPair(normal);
    cases := [c, h];
    FrozenPlanValidates(normal, cases, policy, criteria, model, None, 0, cases);
  }

  // ----- validate_execution_evidence -----

  function ProfileOf(r: Recorded): Profile {
    Profile(r.runtimeVersion, r.decision.model, r.decision.policy, r.decision.calibration)
  }

  predicate RowInProfile(row: CaseRow, p: Profile) {
    ProfileOf(row.result) == p && (row.reversedResult.Some? ==> ProfileOf(row.reversedResult.value) == p)
  }

  predicate ValidEvidence(plan: Plan, report: Report, now: int) {
    && report.policy == plan.policy
    && plan.createdAt <= report.startedAt <= report.createdAt <= now
    && (plan.profile.Some? ==>
          && report.runtimeVersion == plan.profile.value.runtimeVersion && report.model == plan.profile.value.model
          && forall i :: 0 <= i < |report.rows| ==> RowInProfile(report.rows[i], plan.profile.value))
  }

  // ----- fit_calibration -----

  function IdsOf(cs: seq<Case>): (ids: seq<string>)
    ensures |ids| == |cs| && forall i :: 0 <= i < |cs| ==> ids[i] == cs[i].id
  {
    seq(|cs|, i requires 0 <= i < |cs| => cs[i].id)
  }

  /** A sorted list is modelled as the multiset it sorts. */
  function CaseIds(cs: seq<Case>): multiset<string> {
    multiset(IdsOf(cs))
  }

  function GroupIds(cs: seq<Case>): set<string> {
    set c | c in cs :: c.groupId
  }

  function IndexOf(d: seq<Entry>, id: string): (k: nat)
    requires M.HasLabel(d, id)
    ensures k < |d| && d[k].id == id && forall j :: 0 <= j < k ==> d[j].id != id
  {
    if d[0].id == id then 0 else
      assert M.HasLabel(d[1..], id) by { var i :| 0 <= i < |d| && d[i].id == id; assert d[1..][i - 1].id == id; }
      1 + IndexOf(d[1..], id)
  }

  predicate IsExample(row: CaseRow) {
    row.result.decision.body.Computed? && M.HasLabel(row.result.decision.body.distribution, row.expectedOptionId)
  }

  /** The recorded logits of a case, with the position of its gold label. */
  function ExampleOf(row: CaseRow): C.Example
    requires IsExample(row)
  {
    var d := row.result.decision.body.distribution;
    C.Example(Logits(d), IndexOf(d, row.expectedOptionId))
  }

  /** The example has the logits of the row, and its gold position is that of the expected option. */
  ghost predicate Reads(e: C.Example, row: CaseRow)
    requires row.result.decision.body.Computed?
  {
    var d := row.result.decision.body.distribution;
    && |e.logits| == |d| && (forall i :: 0 <= i < |d| ==> e.logits[i] == d[i].logit)
    && 0 <= e.gold < |d| && d[e.gold].id == row.expectedOptionId
  }

  lemma ExampleReads(row: CaseRow)
    requires IsExample(row)
    ensures Reads(ExampleOf(row), row)
  {
  }

  function ExamplesOf(rows: seq<CaseRow>): (es: seq<C.Example>)
    requires forall i :: 0 <= i < |rows| ==> IsExample(rows[i])
    ensures |es| == |rows| && forall i :: 0 <= i < |rows| ==> es[i] == ExampleOf(rows[i])
  {
    seq(|rows|, i requires 0 <= i < |rows| => ExampleOf(rows[i]))
  }

  /** Every logit is one the optimizer supports. */
  predicate InRange(row: CaseRow) {
    row.result.decision.body.Computed? ==>
      forall i :: 0 <= i < |row.result.decision.body.distribution| ==>
        -C.LIMIT <= row.result.decision.body.distribution[i].logit <= C.LIMIT
  }

  ghost predicate Fittable(a: Analysis, normal: string -> string, cases: seq<Case>, report: Report, plan: Plan,
                           now: int)
    requires a.Lawful()
  {
    && ValidPlan(normal, plan, cases)
    && Admissible(a, report, cases, CalibrationSplit, false)
    && ValidEvidence(plan, report, now) && Extends(report.model, plan.model)
    && |report.rows| >= 2 && |GroupIds(SplitCases(cases, CalibrationSplit))| >= 2
    && forall i :: 0 <= i < |report.rows| ==> report.rows[i].result.decision.body.Computed? && InRange(report.rows[i])
  }

  lemma AdmittedRowIsExample(a: Analysis, normal: string -> string, cases: seq<Case>, report: Report, split: Split,
                             requireReverse: bool, i: nat)
    requires a.Lawful() && ValidDataset(normal, cases) && Admissible(a, report, cases, split, requireReverse)
    requires i < |report.rows| && report.rows[i].result.decision.body.Computed?
    ensures IsExample(report.rows[i])
    ensures |report.rows[i].result.decision.body.distribution| >= 2
  {
    hide NoLeak, DistinctCases, DistinctRows, GoodHeading, Probabilities, InputSha, Parse;
    var row := report.rows[i];
    ExpectedFacts(cases, split);
    var c := Expected(cases, split)[row.id];
    GoodCaseParses(c, c.request);
    RequestFacts(Parse(c.request).value);
    var q, d := Parse(c.request).value, row.result.decision.body.distribution;
    var k :| 0 <= k < |q.options| && q.options[k].id == c.expectedOptionId;
    assert d[k].id == row.expectedOptionId;
  }

  lemma CaseIdsSplit(cs: seq<Case>, ds: seq<Case>)
    ensures CaseIds(cs + ds) == CaseIds(cs) + CaseIds(ds)
  {
    assert IdsOf(cs + ds) == IdsOf(cs) + IdsOf(ds);
  }

  lemma Remove(ds: seq<Case>, k: nat)
    requires k < |ds|
    ensures CaseIds(ds) == multiset{ds[k].id} + CaseIds(ds[..k] + ds[k + 1..])
  {
    assert ds == ds[..k] + ([ds[k]] + ds[k + 1..]);
    assert IdsOf([ds[k]]) == [ds[k].id];
    CaseIdsSplit(ds[..k], [ds[k]] + ds[k + 1..]);
    CaseIdsSplit([ds[k]], ds[k + 1..]);
    CaseIdsSplit(ds[..k], ds[k + 1..]);
  }

  lemma Cancel<T>(x: multiset<T>, b: multiset<T>, c: multiset<T>)
    requires x + b == x + c
    ensures b == c
  {
    forall e ensures b[e] == c[e] { assert (x + b)[e] == (x + c)[e]; }
  }

  lemma SameRest(cs: seq<Case>, ds: seq<Case>, k: nat)
    requires cs != [] && multiset(cs) == multiset(ds) && k < |ds| && ds[k] == cs[0]
    ensures multiset(cs[1..]) == multiset(ds[..k] + ds[k + 1..])
  {
    assert cs == [cs[0]] + cs[1..];
    assert ds == ds[..k] + [ds[k]] + ds[k + 1..];
    assert multiset(ds) == multiset{ds[k]} + multiset(ds[..k] + ds[k + 1..]);
    Cancel(multiset{cs[0]}, multiset(cs[1..]), multiset(ds[..k] + ds[k + 1..]));
  }

  /** The head of one sequence can be taken out of any other with the same members. */
  lemma TakeHead(cs: seq<Case>, ds: seq<Case>) returns (rest: seq<Case>)
    requires cs != [] && multiset(cs) == multiset(ds)
    ensures multiset(cs[1..]) == multiset(rest)
    ensures CaseIds(cs) == multiset{cs[0].id} + CaseIds(cs[1..]) && CaseIds(ds) == multiset{cs[0].id} + CaseIds(rest)
  {
    hide CaseIds;
    assert cs[0] in multiset(ds);
    var k :| 0 <= k < |ds| && ds[k] == cs[0];
    rest := ds[..k] + ds[k + 1..];
    SameRest(cs, ds, k);
    Remove(cs, 0);
    Remove(ds, k);
    assert cs[..0] + cs[0 + 1..] == cs[1..];
  }

  lemma {:induction false} PermutedIds(cs: seq<Case>, ds: seq<Case>)
    requires multiset(cs) == multiset(ds)
    ensures CaseIds(cs) == CaseIds(ds)
  {
    hide CaseIds;
    if cs == [] {
      assert |multiset(ds)| == 0;
      assert ds == [];
    } else {
      assert cs[0] in multiset(cs);
      var rest := TakeHead(cs, ds);
      PermutedIds(cs[1..], rest);
    }
  }

  lemma PermutedGroups(cs: seq<Case>, ds: seq<Case>)
    requires multiset(cs) == multiset(ds)
    ensures GroupIds(cs) == GroupIds(ds)
  {
    assert forall c :: c in cs <==> c in multiset(cs);
    assert forall c :: c in ds <==> c in multiset(ds);
  }

  function ArtifactOf(cases: seq<Case>, report: Report, plan: Plan, now: int, fit: C.Fit): Artifact {
    Artifact(now, fit.temperature, cases, plan, report, report.model, plan.scopes,
             CaseIds(SplitCases(cases, CalibrationSplit)), GroupIds(SplitCases(cases, CalibrationSplit)), fit)
  }

  /** The defects of `fit_temperature` come down to logits out of range. */
  lemma AcceptableExample(row: CaseRow)
    requires IsExample(row) && |row.result.decision.body.distribution| >= 2
    ensures C.Acceptable(ExampleOf(row)) <==> InRange(row)
  {
    var d, e := row.result.decision.body.distribution, ExampleOf(row);
    assert |e.logits| == |d|;
    if InRange(row) {
      forall i | 0 <= i < |e.logits| ensures -C.LIMIT <= e.logits[i] <= C.LIMIT { assert e.logits[i] == d[i].logit; }
    } else {
      var i :| 0 <= i < |d| && !(-C.LIMIT <= d[i].logit <= C.LIMIT);
      assert e.logits[i] == d[i].logit;
    }
  }

  /** The cases read back from an admitted report carry the ids and groups of the whole split. */
  lemma AdmittedIds(a: Analysis, report: Report, cases: seq<Case>, split: Split, requireReverse: bool)
    requires a.Lawful() && DistinctCases(cases) && Admissible(a, report, cases, split, requireReverse)
    ensures var cs := CasesOf(report.rows, Expected(cases, split));
      CaseIds(cs) == CaseIds(SplitCases(cases, split)) && GroupIds(cs) == GroupIds(SplitCases(cases, split))
    ensures |report.rows| == |SplitCases(cases, split)|
  {
    AdmittedIsPermutation(a, report, cases, split, requireReverse);
    assert |multiset(CasesOf(report.rows, Expected(cases, split)))| == |multiset(SplitCases(cases, split))|;
    PermutedIds(CasesOf(report.rows, Expected(cases, split)), SplitCases(cases, split));
    PermutedGroups(CasesOf(report.rows, Expected(cases, split)), SplitCases(cases, split));
  }

  /**
   The fit uses every calibration case once, in any order: the artifact names exactly the ids and groups of the
   split, and its temperature is optimal on the whole supported range for the recorded logits.
   */
  method FitCalibration(a: Analysis, normal: string -> string, cases: seq<Case>, report: Report, plan: Plan, now: int)
    returns (r: Option<Artifact>)
    requires a.Lawful()
    ensures r.Some? <==> Fittable(a, normal, cases, report, plan, now)
    ensures r.Some? ==> r.value == ArtifactOf(cases, report, plan, now, r.value.fit)
    ensures r.Some? ==> (forall i :: 0 <= i < |report.rows| ==> IsExample(report.rows[i]))
                        && ExamplesOf(report.rows) != [] && C.WellLabelled(ExamplesOf(report.rows))
                        && C.FitsWell(a, ExamplesOf(report.rows), r.value.fit)
    ensures r.Some? ==> Seals(r.value, cases, report, plan, now) && OptimalTemperature(a, report.rows, r.value)
  {
    hide Seals, OptimalTemperature;
    hide ValidPlan, Admissible, ValidEvidence, IsExample, C.FitsWell, C.Acceptable, InRange, SplitCases, CaseIds,
         GroupIds, Expected, Extends, C.FirstDefect, AreExamples, C.AllAcceptable;
    var valid := ValidatePlan(normal, plan, cases);
    if !valid { return None; }
    var rows := ScoringRows(a, report, cases, CalibrationSplit, false);
    if rows.None? || !ValidEvidence(plan, report, now) || !Extends(report.model, plan.model) { return None; }
    PlanKeepsDistinct(normal, plan, cases);
    RowsNamed(a, report, cases, CalibrationSplit, false);
    AdmittedIds(a, report, cases, CalibrationSplit, false);
    var cs := CasesOf(report.rows, Expected(cases, CalibrationSplit));
    if |rows.value| < 2 || |GroupIds(cs)| < 2 { return None; }
    var examples := Examples(a, normal, cases, report, plan);
    if examples.None? { return None; }
    var fit := C.FitTemperature(a, examples.value);
    if fit.Failure? {
      NotInRange(report.rows, examples.value);
      return None;
    }
    FitIsFittable(report.rows, examples.value);
    r := Some(Artifact(now, fit.value.temperature, cases, plan, report, report.model, plan.scopes,
                       CaseIds(cs), GroupIds(cs), fit.value));
    SealsWhatItNames(cases, report, plan, now, r.value);
    FitIsOptimal(a, report.rows, r.value);
  }

  /** The artifact names its evidence, and exactly the ids and groups of the calibration cases. */
  ghost predicate Seals(x: Artifact, cases: seq<Case>, report: Report, plan: Plan, now: int) {
    && x.createdAt == now && x.dataset == cases && x.plan == plan && x.report == report
    && x.model == report.model && x.scopes == plan.scopes
    && (forall id :: id in x.caseIds <==> exists c :: c in cases && c.split == CalibrationSplit && c.id == id)
    && (forall g :: g in x.groupIds <==> exists c :: c in cases && c.split == CalibrationSplit && c.groupId == g)
    && |x.caseIds| == |report.rows|
  }

  /** No temperature in the supported range explains the recorded logits better than the one that is applied. */
  ghost predicate OptimalTemperature(a: Analysis, rows: seq<CaseRow>, x: Artifact)
    requires a.Lawful()
  {
    && (forall i :: 0 <= i < |rows| ==> IsExample(rows[i]))
    && var examples := ExamplesOf(rows);
    && (forall i :: 0 <= i < |rows| ==> Reads(examples[i], rows[i]))
    && examples != [] && C.WellLabelled(examples)
    && x.temperature == x.fit.temperature == FittedBy(x).temperature && FittedBy(x).scopes == x.scopes
    && O.LOWEST <= x.temperature <= O.HIGHEST
    && forall t :: O.LOWEST <= t <= O.HIGHEST ==>
         C.MeanGoldLoss(a, examples, x.temperature) <= C.MeanGoldLoss(a, examples, t) + O.SLACK
  }

  lemma SealsWhatItNames(cases: seq<Case>, report: Report, plan: Plan, now: int, x: Artifact)
    requires x.createdAt == now && x.dataset == cases && x.plan == plan && x.report == report
    requires x.model == report.model && x.scopes == plan.scopes
    requires x.caseIds == CaseIds(SplitCases(cases, CalibrationSplit))
    requires |report.rows| == |SplitCases(cases, CalibrationSplit)|
    requires x.groupIds == GroupIds(SplitCases(cases, CalibrationSplit))
    ensures Seals(x, cases, report, plan, now)
  {
    hide SplitCases;
    var cs := SplitCases(cases, CalibrationSplit);
    forall id ensures id in x.caseIds <==> exists c :: c in cases && c.split == CalibrationSplit && c.id == id {
      IdIn(cs, id);
    }
  }

  lemma IdIn(cs: seq<Case>, id: string)
    ensures id in CaseIds(cs) <==> exists c :: c in cs && c.id == id
  {
    if id in CaseIds(cs) {
      var i :| 0 <= i < |cs| && IdsOf(cs)[i] == id;
      assert cs[i] in cs;
    }
    forall c | c in cs && c.id == id ensures id in CaseIds(cs) {
      var i :| 0 <= i < |cs| && cs[i] == c;
      assert IdsOf(cs)[i] == id;
    }
  }

  lemma FitIsOptimal(a: Analysis, rows: seq<CaseRow>, x: Artifact)
    requires a.Lawful() && forall i :: 0 <= i < |rows| ==> IsExample(rows[i])
    requires ExamplesOf(rows) != [] && C.WellLabelled(ExamplesOf(rows))
    requires C.FitsWell(a, ExamplesOf(rows), x.fit) && x.temperature == x.fit.temperature
    ensures OptimalTemperature(a, rows, x)
  {
    forall i | 0 <= i < |rows| ensures Reads(ExamplesOf(rows)[i], rows[i]) { ExampleReads(rows[i]); }
    hide IsExample, O.IsExit, C.MeanGoldLoss, Reads;
  }

  /** The recorded logits of each case with its gold position; refused when any case failed. */
  method Examples(a: Analysis, normal: string -> string, cases: seq<Case>, report: Report, plan: Plan)
    returns (r: Option<seq<C.Example>>)
    requires a.Lawful() && ValidPlan(normal, plan, cases) && Admissible(a, report, cases, CalibrationSplit, false)
    ensures r.None? <==> exists i :: 0 <= i < |report.rows| && report.rows[i].result.decision.body.Failed?
    ensures r.Some? ==> AreExamples(report.rows, r.value) && |r.value| == |report.rows|
  {
    hide ValidPlan, Admissible, IsExample, C.Acceptable, InRange;
    var examples: seq<C.Example> := [];
    for k := 0 to |report.rows|
      invariant forall i :: 0 <= i < k ==> IsExample(report.rows[i]) && report.rows[i].result.decision.body.Computed?
      invariant forall i :: 0 <= i < k ==> (C.Acceptable(ExampleOf(report.rows[i])) <==> InRange(report.rows[i]))
      invariant |examples| == k && forall i :: 0 <= i < k ==> examples[i] == ExampleOf(report.rows[i])
    {
      var row := report.rows[k];
      if row.result.decision.body.Failed? { return None; }
      AdmittedRow(a, normal, cases, report, plan, CalibrationSplit, false, k);
      AcceptableExample(row);
      examples := examples + [ExampleOf(row)];
    }
    assert examples == ExamplesOf(report.rows);
    r := Some(examples);
  }

  /** `es` are the examples of the rows, and the optimizer accepts each exactly when its logits are in range. */
  ghost predicate AreExamples(rows: seq<CaseRow>, es: seq<C.Example>) {
    && (forall i :: 0 <= i < |rows| ==> IsExample(rows[i]))
    && (forall i :: 0 <= i < |rows| ==> (C.Acceptable(ExampleOf(rows[i])) <==> InRange(rows[i])))
    && (forall i :: 0 <= i < |rows| ==> rows[i].result.decision.body.Computed?)
    && es == ExamplesOf(rows)
  }

  lemma NotInRange(rows: seq<CaseRow>, es: seq<C.Example>)
    requires AreExamples(rows, es) && !C.AllAcceptable(es)
    ensures exists i :: 0 <= i < |rows| && !InRange(rows[i])
  {
    hide InRange, C.Acceptable, IsExample;
    var i :| 0 <= i < |es| && !C.Acceptable(es[i]);
    assert !InRange(rows[i]);
  }

  lemma FitIsFittable(rows: seq<CaseRow>, es: seq<C.Example>)
    requires AreExamples(rows, es) && C.AllAcceptable(es)
    ensures forall i :: 0 <= i < |rows| ==> IsExample(rows[i])
    ensures C.WellLabelled(ExamplesOf(rows)) && es == ExamplesOf(rows)
    ensures forall i :: 0 <= i < |rows| ==> rows[i].result.decision.body.Computed? && InRange(rows[i])
  {
    C.Labelled(es);
    hide InRange, C.Acceptable, IsExample;
    forall i | 0 <= i < |rows| ensures InRange(rows[i]) { assert C.Acceptable(es[i]); }
  }

  lemma PlanIsFor(normal: string -> string, plan: Plan, cases: seq<Case>)
    requires ValidPlan(normal, plan, cases)
    ensures plan.dataset == cases && GoodPolicy(plan.policy) && ValidDataset(normal, cases)
    ensures plan.profile.Some? ==> GoodProfile(plan.profile.value, plan.policy, plan.model)
  {
  }

  lemma PlanKeepsDistinct(normal: string -> string, plan: Plan, cases: seq<Case>)
    requires ValidPlan(normal, plan, cases)
    ensures DistinctCases(cases)
  {
  }

  lemma RowsNamed(a: Analysis, report: Report, cases: seq<Case>, split: Split, requireReverse: bool)
    requires a.Lawful() && Admissible(a, report, cases, split, requireReverse)
    ensures forall i :: 0 <= i < |report.rows| ==> report.rows[i].id in Expected(cases, split)
  {
  }

  lemma AdmittedRow(a: Analysis, normal: string -> string, cases: seq<Case>, report: Report, plan: Plan, split: Split,
                    requireReverse: bool, i: nat)
    requires a.Lawful() && ValidPlan(normal, plan, cases) && Admissible(a, report, cases, split, requireReverse)
    requires i < |report.rows| && report.rows[i].result.decision.body.Computed?
    ensures IsExample(report.rows[i]) && |report.rows[i].result.decision.body.distribution| >= 2
  {
    hide Admissible, ValidDataset, IsExample;
    AdmittedRowIsExample(a, normal, cases, report, split, requireReverse, i);
  }

  // ----- validate_evaluation_start -----

  /** The checks of the `Calibration` constructor. */
  predicate GoodArtifact(x: Artifact) {
    0.05 <= x.temperature <= 20.0 && x.model != map[] && x.scopes != {}
  }

  /** The artifact names exactly the calibration split of this dataset and the scopes of this plan. */
  predicate FittedOn(x: Artifact, plan: Plan, cases: seq<Case>) {
    && x.plan == plan && x.dataset == cases && x.scopes == plan.scopes
    && x.caseIds == CaseIds(SplitCases(cases, CalibrationSplit))
    && x.groupIds == GroupIds(SplitCases(cases, CalibrationSplit))
  }

  /** When `validate_evaluation_start` lets an evaluation begin. */
  ghost predicate MayStart(normal: string -> string, cases: seq<Case>, split: Split, plan: Option<Plan>,
                           artifact: Option<Artifact>, reverse: bool, calibrated: bool, now: int)
  {
    if split == Development then plan == None && artifact == None
    else
      && plan.Some? && ValidPlan(normal, plan.value, cases) && plan.value.profile.Some? && !calibrated
      && plan.value.createdAt <= now
      && if split == CalibrationSplit then artifact == None
         else
           && split == Holdout && artifact.Some? && reverse
           && GoodArtifact(artifact.value) && artifact.value.model == plan.value.profile.value.model
           && FittedOn(artifact.value, plan.value, cases)
           && plan.value.createdAt <= artifact.value.createdAt <= now
  }

  /** `plan` is what `FreezePlan` returns. */
  ghost predicate Frozen(normal: string -> string, plan: Plan) {
    && Freezable(normal, plan.dataset, plan.policy, plan.criteria, plan.model, plan.profile)
    && plan.scopes == ScopesOf(SplitCases(plan.dataset, CalibrationSplit))
  }

  lemma ScopesExist(normal: string -> string, plan: Plan)
    requires Frozen(normal, plan)
    ensures plan.scopes != {}
  {
    hide NoLeak, Parse;
    var calibration := SplitCases(plan.dataset, CalibrationSplit);
    assert calibration[0] in calibration;
    GoodCaseParses(calibration[0], calibration[0].request);
    assert ScopeOf(calibration[0]).value in ScopesOf(calibration);
  }

  /** What `FitCalibration` returns lets the holdout evaluation of the same profiled plan begin. */
  lemma FitOpensHoldout(a: Analysis, normal: string -> string, cases: seq<Case>, report: Report, plan: Plan,
                        fittedAt: int, fit: C.Fit, now: int)
    requires a.Lawful() && Frozen(normal, plan) && plan.profile.Some?
    requires Fittable(a, normal, cases, report, plan, fittedAt) && 0.05 <= fit.temperature <= 20.0 && fittedAt <= now
    ensures MayStart(normal, cases, Holdout, Some(plan), Some(ArtifactOf(cases, report, plan, fittedAt, fit)),
                     true, false, now)
  {
    hide ValidPlan, CaseIds, GroupIds, SplitCases, Frozen, GoodRow;
    ScopesExist(normal, plan);
  }

  // ----- qualify: the evidence checks and the replays -----

  ghost predicate Qualifiable(a: Analysis, normal: string -> string, cases: seq<Case>, report: Report, x: Artifact,
                              plan: Plan, now: int)
    requires a.Lawful()
  {
    && ValidPlan(normal, plan, cases) && GoodArtifact(x) && x.model == report.model && FittedOn(x, plan, cases)
    && plan.createdAt <= x.createdAt <= report.startedAt
    && Admissible(a, report, cases, Holdout, true) && ValidEvidence(plan, report, now)
  }

  function FittedBy(x: Artifact): Fitted {
    Fitted(x.temperature, x.scopes)
  }

  lemma FittableFacts(a: Analysis, normal: string -> string, cases: seq<Case>, report: Report, plan: Plan,
                      fittedAt: int)
    requires a.Lawful() && Fittable(a, normal, cases, report, plan, fittedAt) && plan.profile.Some?
    ensures ValidPlan(normal, plan, cases) && plan.createdAt <= fittedAt
    ensures report.model == plan.profile.value.model && report.model != map[]
  {
    hide ValidPlan, GoodRow;
  }

  lemma FrozenFacts(normal: string -> string, plan: Plan)
    requires Frozen(normal, plan)
    ensures plan.scopes != {} && SplitCases(plan.dataset, Holdout) != []
    ensures SplitCases(plan.dataset, CalibrationSplit) != []
  {
    hide ValidDataset, ScopesOf;
    ScopesExist(normal, plan);
  }

  lemma FrozenEvidence(a: Analysis, cases: seq<Case>, plan: Plan, split: Split, reverse: bool, call: nat -> Call,
                       startedAt: int, createdAt: int, now: int)
    requires a.Lawful() && plan.profile.Some? && plan.profile.value.runtimeVersion == VERSION
    requires GoodProfile(plan.profile.value, plan.policy, plan.model)
    requires plan.createdAt <= startedAt <= createdAt <= now
    ensures var e := DecisionEngine(plan.profile.value.model, plan.policy, None);
      ValidEvidence(plan, ReportOf(a, e, cases, split, reverse, call, startedAt, createdAt), now)
  {
    hide Answer, SplitCases;
    var e := DecisionEngine(plan.profile.value.model, plan.policy, None);
    forall i | 0 <= i < |SplitCases(cases, split)|
      ensures RowInProfile(RowAt(a, e, SplitCases(cases, split), reverse, call, i), plan.profile.value)
    {
      var raw := SplitCases(cases, split)[i].request;
      AnswerHasProfile(a, e, raw, call(if reverse then 2 * i else i));
      AnswerHasProfile(a, e, ReversedRaw(raw), call(2 * i + 1));
    }
  }

  /**
   The whole chain agrees.  After freezing a profiled plan and fitting on it, evaluating the holdout in both
   orders under the frozen profile yields evidence that passes every check of `qualify`, provided exactly
   that each backend call was proper (a token count and a duration in range).
   */
  lemma HoldoutRunQualifies(a: Analysis, normal: string -> string, cases: seq<Case>, calibrationReport: Report,
                            plan: Plan, fittedAt: int, fit: C.Fit, call: nat -> Call, startedAt: int, createdAt: int,
                            now: int)
    requires a.Lawful() && Frozen(normal, plan) && plan.profile.Some? && plan.profile.value.runtimeVersion == VERSION
    requires Fittable(a, normal, cases, calibrationReport, plan, fittedAt) && 0.05 <= fit.temperature <= 20.0
    requires fittedAt <= startedAt <= createdAt <= now
    ensures var chosen, e := SplitCases(cases, Holdout), DecisionEngine(plan.profile.value.model, plan.policy, None);
      Qualifiable(a, normal, cases, ReportOf(a, e, cases, Holdout, true, call, startedAt, createdAt),
                  ArtifactOf(cases, calibrationReport, plan, fittedAt, fit), plan, now)
      <==> forall i :: 0 <= i < |chosen| ==> ProperAt(e, chosen, true, call, i)
  {
    hide ProperAt, CaseIds, GroupIds, SplitCases, ScopesOf, Admissible, ValidEvidence, ValidPlan, Fittable, Frozen,
         ValidDataset, RowsOf;
    var e := DecisionEngine(plan.profile.value.model, plan.policy, None);
    FittableFacts(a, normal, cases, calibrationReport, plan, fittedAt);
    PlanIsFor(normal, plan, cases);
    FrozenFacts(normal, plan);
    EvaluationIsAdmitted(a, normal, e, cases, Holdout, true, call, startedAt, createdAt);
    FrozenEvidence(a, cases, plan, Holdout, true, call, startedAt, createdAt, now);
  }

  /** Likewise the calibration run: fitting succeeds exactly when the evidence is there and within range. */
  lemma CalibrationRunFits(a: Analysis, normal: string -> string, cases: seq<Case>, plan: Plan, call: nat -> Call,
                           startedAt: int, createdAt: int, now: int)
    requires a.Lawful() && Frozen(normal, plan) && plan.profile.Some? && plan.profile.value.runtimeVersion == VERSION
    requires ValidPlan(normal, plan, cases) && plan.profile.value.model != map[]
    requires plan.createdAt <= startedAt <= createdAt <= now
    ensures var chosen := SplitCases(cases, CalibrationSplit);
      var e := DecisionEngine(plan.profile.value.model, plan.policy, None);
      var report := ReportOf(a, e, cases, CalibrationSplit, false, call, startedAt, createdAt);
      Fittable(a, normal, cases, report, plan, now)
      <==> && (forall i :: 0 <= i < |chosen| ==> ProperAt(e, chosen, false, call, i))
           && |chosen| >= 2 && |GroupIds(chosen)| >= 2
           && forall i :: 0 <= i < |chosen| ==>
                report.rows[i].result.decision.body.Computed? && InRange(report.rows[i])
  {
    hide ProperAt, CaseIds, GroupIds, SplitCases, ScopesOf, Admissible, ValidEvidence, ValidPlan, Frozen, ValidDataset,
         InRange, RowAt;
    var e := DecisionEngine(plan.profile.value.model, plan.policy, None);
    PlanIsFor(normal, plan, cases);
    FrozenFacts(normal, plan);
    EvaluationIsAdmitted(a, normal, e, cases, CalibrationSplit, false, call, startedAt, createdAt);
    FrozenEvidence(a, cases, plan, CalibrationSplit, false, call, startedAt, createdAt, now);
  }

  lemma AnswerHasProfile(a: Analysis, e: DecisionEngine, raw: RawRequest, call: Call)
    requires a.Lawful()
    ensures ProfileOf(Answer(a, e, raw, call)) == Profile(VERSION, e.model, e.policy, e.calibration)
  {
  }

  /** A holdout case of a frozen plan, and its reversal, are in the scope that was calibrated. */
  lemma HoldoutInScope(normal: string -> string, plan: Plan, c: Case)
    requires Frozen(normal, plan) && c in SplitCases(plan.dataset, Holdout)
    ensures GoodCase(c) && Parse(c.request).Success? && SchemaSha(Parse(c.request).value) in plan.scopes
    ensures Parse(ReversedRaw(c.request)).Success? && SchemaSha(Parse(ReversedRaw(c.request)).value) in plan.scopes
  {
    hide NoLeak, DistinctCases, Parse, SchemaSha;
    GoodCaseParses(c, c.request);
    ScopeIgnoresReversal(c);
    assert ScopeOf(c).value in ScopesOf(SplitCases(plan.dataset, Holdout));
  }

  /**
   Calibration cannot buy accuracy: on every holdout case, in either option order, the baseline and the
   calibrated replay select the same option, are correct together and fail together.
   */
  lemma CalibratedMatchesBaseline(a: Analysis, normal: string -> string, cases: seq<Case>, report: Report, x: Artifact,
                                  plan: Plan, now: int, i: nat, reverse: bool)
    requires a.Lawful() && Qualifiable(a, normal, cases, report, x, plan, now) && Frozen(normal, plan)
    requires i < |report.rows|
    ensures var row := report.rows[i];
      && row.id in Expected(cases, Holdout) && row.reversedResult.Some?
      && var c, raw := Expected(cases, Holdout)[row.id], if reverse then row.reversedResult.value else row.result;
         var b := Replay(a, c, raw, report.model, plan.policy, None, reverse);
         var f := Replay(a, c, raw, report.model, plan.policy, Some(FittedBy(x)), reverse);
         && f.correct == b.correct
         && SelectedOf(f.result.decision.body) == SelectedOf(b.result.decision.body)
         && b.result.decision.body.Computed? == f.result.decision.body.Computed? == raw.decision.body.Computed?
  {
    hide ValidPlan, Frozen, BoundTo, Replay, CaseIds, GroupIds, SplitCases, Expected;
    var row := report.rows[i];
    var c := Expected(cases, Holdout)[row.id];
    ExpectedFacts(cases, Holdout);
    PlanIsFor(normal, plan, cases);
    HoldoutInScope(normal, plan, c);
    var recorded := if reverse then row.reversedResult.value else row.result;
    FittingKeepsCorrectness(a, report, c, recorded, FittedBy(x), reverse);
  }

  /** No case the calibration was fitted on shares its group, state or source with a qualified holdout case. */
  lemma FitAndHoldoutAreSeparate(a: Analysis, normal: string -> string, cases: seq<Case>, report: Report, x: Artifact,
                                 plan: Plan, now: int, c: Case, i: nat)
    requires a.Lawful() && Qualifiable(a, normal, cases, report, x, plan, now)
    requires c in cases && c.id in x.caseIds && i < |report.rows|
    ensures report.rows[i].id in Expected(cases, Holdout)
    ensures !Related(normal, c, Expected(cases, Holdout)[report.rows[i].id])
  {
    hide Related, Admissible, ValidEvidence, ValidPlan, Expected, SplitCases, CaseIds, GroupIds, GoodArtifact,
         ValidDataset;
    PlanIsFor(normal, plan, cases);
    RowsNamed(a, report, cases, Holdout, true);
    ExpectedFacts(cases, Holdout);
    IdsComeFromCases(SplitCases(cases, CalibrationSplit), c.id);
    var k :| 0 <= k < |SplitCases(cases, CalibrationSplit)| && SplitCases(cases, CalibrationSplit)[k].id == c.id;
    var f := SplitCases(cases, CalibrationSplit)[k];
    SplitsApart(normal, cases, c, f, Expected(cases, Holdout)[report.rows[i].id]);
  }

  lemma SplitsApart(normal: string -> string, cases: seq<Case>, c: Case, f: Case, d: Case)
    requires ValidDataset(normal, cases) && c in cases && f in cases && d in cases && f.id == c.id
    requires f.split == CalibrationSplit && d.split == Holdout
    ensures !Related(normal, c, d)
  {
    hide Related, GoodCase;
  }

  lemma IdsComeFromCases(cs: seq<Case>, id: string)
    requires id in CaseIds(cs)
    ensures exists k :: 0 <= k < |cs| && cs[k].id == id
  {
    assert id in IdsOf(cs);
    var k :| 0 <= k < |cs| && IdsOf(cs)[k] == id;
    assert cs[k].id == id;
  }
}
