/** `group_risk`: a group fails as soon as one of its accepted results, in either order, is wrong. */
module GroupRisk {
  import opened Elementary
  import opened Outcomes
  import opened Binomial
  import Median

  datatype Row = Row(groupId: string, accepted: bool, correct: bool)

  datatype Risk = Risk(acceptedGroups: nat, groupsWithErrors: nat, riskUpperBound: real, confidence: real)

  ghost function AcceptedGroups(rows: seq<Row>): set<string> {
    set i | 0 <= i < |rows| && rows[i].accepted :: rows[i].groupId
  }

  ghost function FailedGroups(rows: seq<Row>): set<string> {
    set i | 0 <= i < |rows| && rows[i].accepted && !rows[i].correct :: rows[i].groupId
  }

  lemma GroupsExtend(rows: seq<Row>, k: nat)
    requires k < |rows|
    ensures AcceptedGroups(rows[..k + 1])
         == AcceptedGroups(rows[..k]) + if rows[k].accepted then {rows[k].groupId} else {}
    ensures FailedGroups(rows[..k + 1])
         == FailedGroups(rows[..k]) + if rows[k].accepted && !rows[k].correct then {rows[k].groupId} else {}
  {
    var before, after := rows[..k], rows[..k + 1];
    forall g | g in AcceptedGroups(before) ensures g in AcceptedGroups(after) {
      var i :| 0 <= i < k && before[i].accepted && before[i].groupId == g;
      assert after[i] == before[i];
    }
    forall g | g in FailedGroups(before) ensures g in FailedGroups(after) {
      var i :| 0 <= i < k && before[i].accepted && !before[i].correct && before[i].groupId == g;
      assert after[i] == before[i];
    }
    assert after[k] == rows[k];
    forall g | g in AcceptedGroups(after) && !(rows[k].accepted && g == rows[k].groupId)
      ensures g in AcceptedGroups(before)
    {
      var i :| 0 <= i < k + 1 && after[i].accepted && after[i].groupId == g;
      assert before[i] == after[i];
    }
    forall g | g in FailedGroups(after) && !(rows[k].accepted && !rows[k].correct && g == rows[k].groupId)
      ensures g in FailedGroups(before)
    {
      var i :| 0 <= i < k + 1 && after[i].accepted && !after[i].correct && after[i].groupId == g;
      assert before[i] == after[i];
    }
  }

  ghost function FlaggedAmong(groups: map<string, bool>, keys: set<string>): set<string> {
    set g | g in keys && g in groups && groups[g]
  }

  ghost function Flagged(groups: map<string, bool>): set<string> {
    FlaggedAmong(groups, groups.Keys)
  }

  lemma FlagOne(groups: map<string, bool>, g: string, flag: bool)
    ensures Flagged(groups[g := flag]) == Flagged(groups) - {g} + if flag then {g} else {}
    ensures g in Flagged(groups) <==> g in groups && groups[g]
  {
  }

  lemma FlaggedSplit(groups: map<string, bool>, left: set<string>, g: string)
    requires g in left && g in groups
    ensures |FlaggedAmong(groups, left)| == |FlaggedAmong(groups, left - {g})| + if groups[g] then 1 else 0
  {
    if groups[g] {
      assert FlaggedAmong(groups, left) == FlaggedAmong(groups, left - {g}) + {g};
    } else {
      assert FlaggedAmong(groups, left) == FlaggedAmong(groups, left - {g});
    }
  }

  lemma FlaggedWithin(groups: map<string, bool>)
    ensures Flagged(groups) <= groups.Keys
  {
  }

  /** `sum(groups.values())`. */
  method CountFlagged(groups: map<string, bool>) returns (n: nat)
    ensures n == |Flagged(groups)|
  {
    n := 0;
    var left := groups.Keys;
    while left != {}
      invariant left <= groups.Keys
      invariant n + |FlaggedAmong(groups, left)| == |Flagged(groups)|
      decreases left
    {
      var g :| g in left;
      FlaggedSplit(groups, left, g);
      left := left - {g};
      if groups[g] { n := n + 1; }
    }
  }

  /**
   The counts are of distinct groups, so repeating or reversing a case never adds a sample, and the bound
   keeps the promises of `BinomialUpper` for exactly those counts.
   */
  method RiskOf(a: Analysis, rows: seq<Row>, confidence: real) returns (r: Option<Risk>)
    requires a.Lawful()
    ensures r.Some? <==> 0.0 < confidence < 1.0
    ensures r.Some? ==>
      && r.value.acceptedGroups == |AcceptedGroups(rows)|
      && r.value.groupsWithErrors == |FailedGroups(rows)| <= |AcceptedGroups(rows)|
      && Bounds(r.value.acceptedGroups, r.value.groupsWithErrors, confidence, r.value.riskUpperBound)
      && r.value.confidence == confidence && Tight(r.value)
  {
    var groups: map<string, bool> := map[];
    assert Flagged(groups) == {} == FailedGroups(rows[..0]) == AcceptedGroups(rows[..0]);
    hide Bounds, Sharp, Tight, Flagged, FailedGroups, AcceptedGroups;
    for k := 0 to |rows|
      invariant groups.Keys == AcceptedGroups(rows[..k])
      invariant Flagged(groups) == FailedGroups(rows[..k])
    {
      GroupsExtend(rows, k);
      var row := rows[k];
      if row.accepted {
        var flag := (if row.groupId in groups then groups[row.groupId] else false) || !row.correct;
        FlagOne(groups, row.groupId, flag);
        groups := groups[row.groupId := flag];
      }
    }
    assert rows[..|rows|] == rows;
    var errors := CountFlagged(groups);
    FlaggedWithin(groups);
    FewerInSubset(Flagged(groups), groups.Keys);
    var bound := BinomialUpper(a, errors, |groups|, confidence);
    if bound.Some? {
      var risk := Risk(|groups|, errors, bound.value, confidence);
      FigureIsTight(risk);
      r := Some(risk);
    } else {
      r := None;
    }
  }

  /** At one half or more the bound is where the excluded rates begin, up to the resolution of the search. */
  ghost predicate Tight(risk: Risk) {
    0 < risk.groupsWithErrors < risk.acceptedGroups && risk.confidence >= 0.5 ==>
      forall p :: 0.0 <= p <= 1.0 ==>
        Median.Bracketed(risk.acceptedGroups, risk.groupsWithErrors, risk.confidence, risk.riskUpperBound, p)
  }

  lemma FigureIsTight(risk: Risk)
    requires risk.groupsWithErrors <= risk.acceptedGroups
    requires Bounds(risk.acceptedGroups, risk.groupsWithErrors, risk.confidence, risk.riskUpperBound)
    requires 0 < risk.groupsWithErrors < risk.acceptedGroups ==>
      Sharp(risk.acceptedGroups, risk.groupsWithErrors, risk.confidence, risk.riskUpperBound)
    ensures Tight(risk)
  {
    hide Bounds, Sharp, Median.Bracketed;
    var n, k, u := risk.acceptedGroups, risk.groupsWithErrors, risk.riskUpperBound;
    if 0 < k < n && risk.confidence >= 0.5 {
      forall p | 0.0 <= p <= 1.0 ensures Median.Bracketed(n, k, risk.confidence, u, p) {
        Median.BoundIsBracketed(n, k, risk.confidence, u, p);
      }
    }
  }

  lemma FewerInSubset<T>(s: set<T>, t: set<T>)
    requires s <= t
    ensures |s| <= |t|
  {
    assert t == s + (t - s);
  }
}
