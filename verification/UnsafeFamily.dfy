/**
 An unsafe family beside a safe one: two families of one group each, failing independently with probabilities 0.95 and
 0.01, judged under a plan that tolerates 0.9.  It meets every hypothesis of the bound on the chance of a pass.
 */
module UnsafeFamily {
  import opened Outcomes
  import Contracts
  import opened Engine
  import opened Reports
  import opened Experiment
  import opened Qualification
  import B = Binomial
  import J = JointRisk
  import M = EvaluationMetrics
  import R = GroupRisk

  const GROUPS := ["g", "h"]

  const FAMILIES: map<string, set<string>> := map["a" := {"g"}, "b" := {"h"}]

  const CRITERIA := Criteria("k", 0.0, 0.0, 0.9, 0.5, 1, 1)

  function RiskOfGroup(g: string): real {
    if g == "g" then 0.95 else 0.01
  }

  /** An accepted answer, correct unless its group fails. */
  function RowFor(group: string, family: string, failing: set<string>): CaseRow {
    var correct := group !in failing;
    var body := Computed(Accepted, if correct then "yes" else "no", NoValue, 0.9, 0.8,
                         [Entry("yes", 0.9, 0.0), Entry("no", 0.1, 0.0)], 1);
    var decision := Decision(Some(group), None, map[], Policy("p", 0.5, 0.0), None, body);
    CaseRow(group, family, group, "expert", "yes", Recorded(VERSION, decision, 1.0), correct, None, None)
  }

  function RowsFor(failing: set<string>): (rows: seq<CaseRow>)
    ensures |rows| == 2
  {
    [RowFor("g", "a", failing), RowFor("h", "b", failing)]
  }

  function Bound(): (nat, nat) -> real {
    J.PlainBound(BoundConfidence(CRITERIA, |FAMILIES|))
  }

  ghost function FiguresOf(groups: set<string>, d: J.Draw): R.Risk {
    R.Risk(|groups|, J.Failed(groups, d), Bound()(|groups|, J.Failed(groups, d)),
           BoundConfidence(CRITERIA, |FAMILIES|))
  }

  ghost function VerdictOn(plan: Plan): J.Draw -> Verdict {
    (d: J.Draw) =>
      var rows := RowsFor(d.failing);
      var v := Verdict(rows, rows, rows, FiguresOf(J.Members(GROUPS), d),
                       map f | f in FAMILIES :: FiguresOf(FAMILIES[f], d), false);
      v.(passed := Passes(plan, [], v))
  }

  lemma FamiliesSize()
    ensures |FAMILIES| == 2 && FAMILIES.Keys == {"a", "b"} && J.Members(GROUPS) == {"g", "h"}
  {
    assert FAMILIES.Keys == {"a", "b"};
    assert "g" in GROUPS && "h" in GROUPS;
  }

  lemma CriteriaAreGood()
    ensures GoodCriteria(CRITERIA)
  {
    assert !Contracts.IsBlank("k"[0]);
  }

  /** Accepted rows that are wrong exactly when their group fails. */
  ghost predicate Honest(rows: seq<CaseRow>, failing: set<string>) {
    forall r :: r in rows ==> M.IsAccepted(MetricRow(r)) && (r.correct <==> r.groupId !in failing)
  }

  ghost function GroupsOf(rows: seq<CaseRow>): set<string> {
    set r | r in rows :: r.groupId
  }

  lemma CountedGroups(rows: seq<CaseRow>, failing: set<string>)
    requires Honest(rows, failing)
    ensures R.AcceptedGroups(RiskRows(rows)) == GroupsOf(rows)
    ensures R.FailedGroups(RiskRows(rows)) == failing * GroupsOf(rows)
  {
    var rs := RiskRows(rows);
    forall r | r in rows
      ensures r.groupId in R.AcceptedGroups(rs)
      ensures r.groupId in failing ==> r.groupId in R.FailedGroups(rs)
    {
      var i :| 0 <= i < |rows| && rows[i] == r;
      assert rs[i].groupId == r.groupId && rs[i].accepted && (rs[i].correct <==> r.correct);
    }
    forall i | 0 <= i < |rs|
      ensures rs[i].groupId in GroupsOf(rows) && (!rs[i].correct ==> rs[i].groupId in failing)
    {
      assert rows[i] in rows;
    }
  }

  /** The figures are what `group_risk` reports on such rows. */
  lemma FiguresHold(rows: seq<CaseRow>, groups: set<string>, d: J.Draw)
    requires Honest(rows, d.failing) && GroupsOf(rows) == groups
    ensures IsRisk(FiguresOf(groups, d), rows, BoundConfidence(CRITERIA, |FAMILIES|))
    ensures Shows(FiguresOf(groups, d), rows, groups, Bound(), d)
  {
    hide Honest, BoundConfidence, B.Bounds, R.AcceptedGroups, R.FailedGroups;
    CountedGroups(rows, d.failing);
    CriteriaAreGood();
    BoundConfidenceInRange(CRITERIA, |FAMILIES|);
    J.PlainBoundHolds(BoundConfidence(CRITERIA, |FAMILIES|));
  }

  lemma InFamilyStep(rows: seq<CaseRow>, r: CaseRow, f: string)
    ensures InFamily(rows + [r], f) == InFamily(rows, f) + if r.family == f then [r] else []
  {
    assert (rows + [r])[..|rows|] == rows;
  }

  lemma InFamilyOfTwo(r: CaseRow, s: CaseRow, f: string)
    ensures InFamily([r, s], f) == (if r.family == f then [r] else []) + (if s.family == f then [s] else [])
  {
    assert InFamily([], f) == [];
    hide InFamily;
    InFamilyStep([], r, f);
    InFamilyStep([r], s, f);
    assert [] + [r] == [r] && [r] + [s] == [r, s];
  }

  lemma FamiliesOfTwo(r: CaseRow, s: CaseRow)
    ensures Families([r, s]) == {r.family, s.family}
  {
    assert r in [r, s] && s in [r, s];
  }

  lemma RowsOfFamilies(failing: set<string>)
    ensures var rows := RowsFor(failing);
      && Families(rows) == FAMILIES.Keys
      && InFamily(rows, "a") == [rows[0]] && InFamily(rows, "b") == [rows[1]]
  {
    hide InFamily, Families;
    var rows := RowsFor(failing);
    FamiliesSize();
    InFamilyOfTwo(rows[0], rows[1], "a");
    InFamilyOfTwo(rows[0], rows[1], "b");
    FamiliesOfTwo(rows[0], rows[1]);
  }

  lemma VerdictFields(plan: Plan, d: J.Draw)
    ensures var v, rows := VerdictOn(plan)(d), RowsFor(d.failing);
      && v.adjusted == rows && v.reversedAdjusted == rows && v.risk == FiguresOf(J.Members(GROUPS), d)
      && v.families.Keys == {"a", "b"}
      && v.families["a"] == FiguresOf({"g"}, d) && v.families["b"] == FiguresOf({"h"}, d)
      && (v.passed <==> Passes(plan, [], v))
  {
    hide RowsFor, FiguresOf, RiskAllowed, Coverage, Accuracy, NoFailures, FamilyPasses;
    FamiliesSize();
  }

  /** What makes a verdict over these two families gated. */
  lemma IntoGated(plan: Plan, v: Verdict)
    requires Families(v.adjusted) == v.families.Keys == {"a", "b"} && (v.passed <==> Passes(plan, [], v))
    requires IsRisk(v.risk, v.adjusted + v.reversedAdjusted, BoundConfidence(plan.criteria, 2))
    requires forall f :: f in v.families ==>
      IsRisk(v.families[f], InFamily(v.adjusted, f) + InFamily(v.reversedAdjusted, f),
             BoundConfidence(plan.criteria, 2))
    ensures Gated(plan, [], v)
  {
    hide IsRisk, Passes, BoundConfidence, InFamily, Families;
    assert |{"a", "b"}| == 2;
  }

  lemma FamilyFigures(plan: Plan, d: J.Draw)
    ensures var v, rows := VerdictOn(plan)(d), RowsFor(d.failing);
      && Families(v.adjusted) == v.families.Keys == {"a", "b"}
      && InFamily(v.adjusted, "a") + InFamily(v.reversedAdjusted, "a") == [rows[0]] + [rows[0]]
      && InFamily(v.adjusted, "b") + InFamily(v.reversedAdjusted, "b") == [rows[1]] + [rows[1]]
  {
    hide *;
    FamiliesSize();
    VerdictFields(plan, d);
    RowsOfFamilies(d.failing);
  }

  lemma VerdictIsGated(plan: Plan, d: J.Draw)
    requires plan.criteria == CRITERIA
    ensures Gated(plan, [], VerdictOn(plan)(d))
  {
    hide *;
    var rows, v := RowsFor(d.failing), VerdictOn(plan)(d);
    FamiliesSize();
    VerdictFields(plan, d);
    FamilyFigures(plan, d);
    HonestRows(d.failing);
    FiguresHold(rows + rows, J.Members(GROUPS), d);
    FiguresHold([rows[0]] + [rows[0]], {"g"}, d);
    FiguresHold([rows[1]] + [rows[1]], {"h"}, d);
    IntoGated(plan, v);
  }

  lemma IntoObserved(v: Verdict, d: J.Draw)
    requires v.families.Keys == {"a", "b"}
    requires Shows(v.risk, v.adjusted + v.reversedAdjusted, J.Members(GROUPS), Bound(), d)
    requires Shows(v.families["a"], InFamily(v.adjusted, "a") + InFamily(v.reversedAdjusted, "a"), {"g"}, Bound(), d)
    requires Shows(v.families["b"], InFamily(v.adjusted, "b") + InFamily(v.reversedAdjusted, "b"), {"h"}, Bound(), d)
    ensures Observed(v, J.Members(GROUPS), FAMILIES, Bound(), d)
  {
    hide Shows, InFamily, Bound;
    FamiliesSize();
  }

  lemma VerdictIsObserved(plan: Plan, d: J.Draw)
    ensures Observed(VerdictOn(plan)(d), J.Members(GROUPS), FAMILIES, Bound(), d)
  {
    hide *;
    var rows, v := RowsFor(d.failing), VerdictOn(plan)(d);
    VerdictFields(plan, d);
    FamilyFigures(plan, d);
    HonestRows(d.failing);
    FiguresHold(rows + rows, J.Members(GROUPS), d);
    FiguresHold([rows[0]] + [rows[0]], {"g"}, d);
    FiguresHold([rows[1]] + [rows[1]], {"h"}, d);
    IntoObserved(v, d);
  }

  lemma HonestRows(failing: set<string>)
    ensures var rows := RowsFor(failing);
      && Honest(rows + rows, failing) && GroupsOf(rows + rows) == J.Members(GROUPS)
      && Honest([rows[0]] + [rows[0]], failing) && GroupsOf([rows[0]] + [rows[0]]) == {"g"}
      && Honest([rows[1]] + [rows[1]], failing) && GroupsOf([rows[1]] + [rows[1]]) == {"h"}
  {
    var rows := RowsFor(failing);
    FamiliesSize();
    assert rows[0] in rows + rows && rows[1] in rows + rows;
    assert rows[0] in [rows[0]] + [rows[0]] && rows[1] in [rows[1]] + [rows[1]];
  }

  /** When nobody fails, the verdict is a pass. */
  lemma SafeDrawPasses(plan: Plan, d: J.Draw)
    requires plan.criteria == CRITERIA && plan.profile.Some? && d.failing == {}
    ensures VerdictOn(plan)(d).passed
  {
    hide VerdictOn, RowsFor, FiguresOf, RiskAllowed, Coverage, Accuracy, NoFailures, InFamily, Families;
    var rows, v := RowsFor(d.failing), VerdictOn(plan)(d);
    VerdictFields(plan, d);
    RowsOfFamilies(d.failing);
    SafeFigures(J.Members(GROUPS), d);
    SafeFigures({"g"}, d);
    SafeFigures({"h"}, d);
    ScoredRows(d.failing);
    forall f | f in v.families ensures FamilyPasses(CRITERIA, rows, rows, f, v.families[f]) {
      assert f == "a" || f == "b";
    }
  }

  lemma SafeFigures(groups: set<string>, d: J.Draw)
    requires d.failing == {} && (groups == J.Members(GROUPS) || groups == {"g"} || groups == {"h"})
    ensures RiskAllowed(FiguresOf(groups, d), 1, 0.9)
  {
    hide BoundConfidence;
    FamiliesSize();
    SplitOfHalf();
    assert groups != {} && d.failing * groups == {};
  }

  lemma ScoredRows(failing: set<string>)
    ensures var rows := RowsFor(failing);
      forall rs :: rs == rows || rs == [rows[0]] || rs == [rows[1]] ==>
        rs != [] && NoFailures(rs) && Coverage(rs) >= 0.0 && Accuracy(rs) >= 0.0
  {
    var rows := RowsFor(failing);
    AllScored(rows);
    AllScored([rows[0]]);
    AllScored([rows[1]]);
  }

  lemma SplitOfHalf()
    ensures BoundConfidence(CRITERIA, 2) <= 0.9
  {
  }

  lemma {:induction false} AllScored(rows: seq<CaseRow>)
    requires rows != [] && forall r :: r in rows ==> r.result.decision.body.Computed?
    ensures NoFailures(rows) && Coverage(rows) >= 0.0 && Accuracy(rows) >= 0.0
  {
    CountScored(MetricRows(rows));
  }

  lemma {:induction false} CountScored(rows: seq<M.Row>)
    requires forall r :: r in rows ==> r.result.Computed?
    ensures |M.ScoredRows(rows)| == |rows|
  {
    if rows != [] {
      assert rows[|rows| - 1] in rows;
      CountScored(rows[..|rows| - 1]);
    }
  }

  lemma AddsUp(d: J.Draw)
    ensures J.Failed(J.Members(GROUPS), d) == J.Failed({"g"}, d) + J.Failed({"h"}, d)
  {
    var parts: seq<set<string>> := [{"g"}, {"h"}];
    FamiliesSize();
    assert parts[1..] == [{"h"}] && parts[1..][1..] == [];
    assert J.Union(parts[1..]) == {"h"} && J.Union(parts) == {"g", "h"};
    J.OverallIsSum(parts, d);
    assert J.TotalFailed(parts[1..], d) == J.Failed({"h"}, d);
  }

  /** The hypotheses of `UnsafeFamilyRarelyPasses` hold for these two families, and a pass is still possible. */
  lemma HypothesesAreMet(plan: Plan) returns (safe: J.Draw)
    requires plan.criteria == CRITERIA && plan.profile.Some?
    ensures GoodCriteria(plan.criteria) && J.Distinct(GROUPS) && J.AreRisks(GROUPS, RiskOfGroup)
    ensures FAMILIES["a"] <= J.Members(GROUPS) && plan.criteria.maxGroupRisk < 0.95
    ensures forall g :: g in FAMILIES["a"] ==> 0.95 <= RiskOfGroup(g)
    ensures J.IsBound(Bound(), BoundConfidence(plan.criteria, |FAMILIES|))
    ensures forall d :: d in J.Independent(GROUPS, RiskOfGroup) ==>
      && Gated(plan, [], VerdictOn(plan)(d))
      && Observed(VerdictOn(plan)(d), J.Members(GROUPS), FAMILIES, Bound(), d)
      && J.Failed(J.Members(GROUPS), d) == J.Failed({"g"}, d) + J.Failed({"h"}, d)
    ensures safe in J.Independent(GROUPS, RiskOfGroup) && safe.chance > 0.0 && VerdictOn(plan)(safe).passed
  {
    hide Gated, Observed, VerdictOn, J.IsBound, BoundConfidence, GoodCriteria, J.Independent;
    CriteriaAreGood();
    FamiliesSize();
    BoundConfidenceInRange(CRITERIA, |FAMILIES|);
    J.PlainBoundHolds(BoundConfidence(CRITERIA, |FAMILIES|));
    forall d | d in J.Independent(GROUPS, RiskOfGroup)
      ensures Gated(plan, [], VerdictOn(plan)(d))
      ensures Observed(VerdictOn(plan)(d), J.Members(GROUPS), FAMILIES, Bound(), d)
      ensures J.Failed(J.Members(GROUPS), d) == J.Failed({"g"}, d) + J.Failed({"h"}, d)
    {
      AddsUp(d);
      VerdictIsGated(plan, d);
      VerdictIsObserved(plan, d);
    }
    safe := J.SafeDraw(GROUPS, RiskOfGroup);
    SafeDrawPasses(plan, safe);
  }

  lemma ErrorShare()
    ensures (1.0 - CRITERIA.confidence) / (|FAMILIES| + 1) as real == 0.5 / 3.0
  {
    FamiliesSize();
  }

  /** So it applies: the pass, though possible, is unlikely. */
  lemma PassIsUnlikely(plan: Plan)
    requires plan.criteria == CRITERIA && plan.profile.Some?
    ensures J.Chance(J.Independent(GROUPS, RiskOfGroup), PassesOn(VerdictOn(plan))) <= 0.5 / 3.0
  {
    hide *;
    var safe := HypothesesAreMet(plan);
    FamiliesSize();
    ErrorShare();
    UnsafeFamilyRarelyPasses(plan, [], VerdictOn(plan), GROUPS, RiskOfGroup, FAMILIES, Bound(), "a", 0.95);
  }
}
