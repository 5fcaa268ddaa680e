/**
 `compare_development`: several candidates on the same development cases, recomputed from their logits and
 aligned case by case.
 */
module Development {
  import opened Elementary
  import opened Outcomes
  import opened Contracts
  import opened Engine
  import opened Dataset
  import opened Reports
  import opened Qualification
  import opened Recomputation

  /** The replays of one candidate, in the order of the dataset. */
  datatype Contender = Contender(model: Identity, original: seq<CaseRow>, reversed: seq<CaseRow>)

  datatype Pairing = Pairing(
    attempted: nat, scored: nat, failures: nat, bothCorrect: nat, leftOnly: nat, rightOnly: nat, bothWrong: nat,
    disagreements: nat)

  datatype Comparison = Comparison(
    policy: Policy, candidates: seq<Contender>, pairwise: map<(nat, nat), (Pairing, Pairing)>)

  // ----- Alignment by case -----

  /** `{case["id"]: row for case, row in scored}`. */
  function RowsById(rows: seq<CaseRow>): map<string, CaseRow> {
    if rows == [] then map[] else RowsById(rows[..|rows| - 1])[rows[|rows| - 1].id := rows[|rows| - 1]]
  }

  lemma {:induction false} RowsByIdFacts(rows: seq<CaseRow>)
    ensures forall k :: k in RowsById(rows) ==> RowsById(rows)[k] in rows && RowsById(rows)[k].id == k
    ensures forall r :: r in rows ==> r.id in RowsById(rows)
  {
    if rows != [] {
      RowsByIdFacts(rows[..|rows| - 1]);
      assert rows == rows[..|rows| - 1] + [rows[|rows| - 1]];
    }
  }

  ghost predicate Covers(rows: seq<CaseRow>, chosen: seq<Case>) {
    forall i :: 0 <= i < |chosen| ==> chosen[i].id in RowsById(rows)
  }

  function AlignedRow(a: Analysis, report: Report, c: Case, reverse: bool): CaseRow
    requires a.Lawful() && c.id in RowsById(report.rows)
  {
    ReplayOf(a, report, c, RowsById(report.rows)[c.id], None, reverse)
  }

  function Aligned(a: Analysis, report: Report, chosen: seq<Case>, reverse: bool): (rows: seq<CaseRow>)
    requires a.Lawful() && Covers(report.rows, chosen)
    ensures |rows| == |chosen| && forall i :: 0 <= i < |rows| ==> rows[i] == AlignedRow(a, report, chosen[i], reverse)
  {
    seq(|chosen|, i requires 0 <= i < |chosen| => AlignedRow(a, report, chosen[i], reverse))
  }

  /** Every case of the split has its row in an admitted report. */
  lemma AdmittedCovers(a: Analysis, report: Report, cases: seq<Case>, split: Split, requireReverse: bool)
    requires a.Lawful() && Admissible(a, report, cases, split, requireReverse)
    ensures Covers(report.rows, SplitCases(cases, split))
  {
    hide GoodRow, GoodHeading, Expected, SplitCases, RowsById;
    ExpectedFacts(cases, split);
    RowsByIdFacts(report.rows);
    var chosen := SplitCases(cases, split);
    forall i | 0 <= i < |chosen| ensures chosen[i].id in RowsById(report.rows) {
      assert chosen[i] in chosen;
      var j :| 0 <= j < |report.rows| && report.rows[j].id == chosen[i].id;
      assert report.rows[j] in report.rows;
    }
  }

  lemma SameElements<T>(s: seq<T>, t: seq<T>)
    requires multiset(s) == multiset(t)
    ensures forall x :: x in s <==> x in t
  {
    assert forall x :: x in s <==> x in multiset(s);
    assert forall x :: x in t <==> x in multiset(t);
  }

  lemma RowIsFound(rows: seq<CaseRow>, r: CaseRow)
    requires DistinctRows(rows) && r in rows
    ensures r.id in RowsById(rows) && RowsById(rows)[r.id] == r
  {
    hide RowsById;
    RowsByIdFacts(rows);
  }

  /** The dictionary depends on the rows, not on their order. */
  lemma SameRowsById(rows: seq<CaseRow>, shuffled: seq<CaseRow>)
    requires DistinctRows(rows) && DistinctRows(shuffled) && multiset(rows) == multiset(shuffled)
    ensures RowsById(rows) == RowsById(shuffled)
  {
    hide RowsById, DistinctRows;
    SameElements(rows, shuffled);
    RowsByIdFacts(rows);
    RowsByIdFacts(shuffled);
    forall k | k in RowsById(rows) ensures k in RowsById(shuffled) && RowsById(shuffled)[k] == RowsById(rows)[k] {
      RowIsFound(shuffled, RowsById(rows)[k]);
    }
    forall k | k in RowsById(shuffled) ensures k in RowsById(rows) {
      RowIsFound(rows, RowsById(shuffled)[k]);
    }
  }

  /** So the order in which a candidate's report lists its cases changes nothing in the comparison. */
  lemma RowOrderDoesNotMatter(a: Analysis, report: Report, shuffled: seq<CaseRow>, chosen: seq<Case>, reverse: bool)
    requires a.Lawful() && DistinctRows(report.rows) && DistinctRows(shuffled)
    requires multiset(report.rows) == multiset(shuffled) && Covers(report.rows, chosen)
    ensures Covers(shuffled, chosen)
    ensures Aligned(a, report.(rows := shuffled), chosen, reverse) == Aligned(a, report, chosen, reverse)
  {
    hide RowsById, Replay;
    SameRowsById(report.rows, shuffled);
  }

  // ----- _paired -----

  predicate BothScored(x: CaseRow, y: CaseRow) {
    x.result.decision.body.Computed? && y.result.decision.body.Computed?
  }

  function CountPairs(left: seq<CaseRow>, right: seq<CaseRow>, f: (CaseRow, CaseRow) -> bool): nat
    requires |left| == |right|
  {
    if left == [] then 0
    else
      var n := |left| - 1;
      CountPairs(left[..n], right[..n], f) + if BothScored(left[n], right[n]) && f(left[n], right[n]) then 1 else 0
  }

  function Always(): (CaseRow, CaseRow) -> bool { (x: CaseRow, y: CaseRow) => true }
  function BothRight(): (CaseRow, CaseRow) -> bool { (x: CaseRow, y: CaseRow) => x.correct && y.correct }
  function LeftRight(): (CaseRow, CaseRow) -> bool { (x: CaseRow, y: CaseRow) => x.correct && !y.correct }
  function RightRight(): (CaseRow, CaseRow) -> bool { (x: CaseRow, y: CaseRow) => !x.correct && y.correct }
  function BothWrong(): (CaseRow, CaseRow) -> bool { (x: CaseRow, y: CaseRow) => !x.correct && !y.correct }

  function Differ(): (CaseRow, CaseRow) -> bool {
    (x: CaseRow, y: CaseRow) => SelectedOf(x.result.decision.body) != SelectedOf(y.result.decision.body)
  }

  ghost predicate IsPairing(p: Pairing, left: seq<CaseRow>, right: seq<CaseRow>)
    requires |left| == |right|
  {
    && p.attempted == |left| && p.scored == CountPairs(left, right, Always()) && p.failures + p.scored == p.attempted
    && p.bothCorrect == CountPairs(left, right, BothRight()) && p.leftOnly == CountPairs(left, right, LeftRight())
    && p.rightOnly == CountPairs(left, right, RightRight()) && p.bothWrong == CountPairs(left, right, BothWrong())
    && p.disagreements == CountPairs(left, right, Differ())
    && p.bothCorrect + p.leftOnly + p.rightOnly + p.bothWrong == p.scored && p.disagreements <= p.scored
  }

  lemma PairsGrow(left: seq<CaseRow>, right: seq<CaseRow>, k: nat, f: (CaseRow, CaseRow) -> bool)
    requires |left| == |right| && k < |left|
    ensures CountPairs(left[..k + 1], right[..k + 1], f)
         == CountPairs(left[..k], right[..k], f)
            + if BothScored(left[k], right[k]) && f(left[k], right[k]) then 1 else 0
  {
    assert left[..k + 1][..k] == left[..k] && right[..k + 1][..k] == right[..k];
  }

  /** The tallies after one more pair. */
  function Extended(p: Pairing, x: CaseRow, y: CaseRow): Pairing {
    if !BothScored(x, y) then p.(attempted := p.attempted + 1, failures := p.failures + 1)
    else
      var q := p.(attempted := p.attempted + 1, scored := p.scored + 1,
                  disagreements := p.disagreements
                    + if SelectedOf(x.result.decision.body) != SelectedOf(y.result.decision.body) then 1 else 0);
      if x.correct then (if y.correct then q.(bothCorrect := q.bothCorrect + 1) else q.(leftOnly := q.leftOnly + 1))
      else if y.correct then q.(rightOnly := q.rightOnly + 1) else q.(bothWrong := q.bothWrong + 1)
  }

  /** The tallies of the first k pairs. */
  ghost predicate PairedTo(p: Pairing, left: seq<CaseRow>, right: seq<CaseRow>, k: nat)
    requires k <= |left| == |right|
  {
    IsPairing(p, left[..k], right[..k])
  }

  lemma ExtendPairing(p: Pairing, left: seq<CaseRow>, right: seq<CaseRow>, k: nat)
    requires |left| == |right| && k < |left| && PairedTo(p, left, right, k)
    ensures PairedTo(Extended(p, left[k], right[k]), left, right, k + 1)
  {
    hide CountPairs, BothScored, SelectedOf;
    PairsGrow(left, right, k, Always());
    PairsGrow(left, right, k, BothRight());
    PairsGrow(left, right, k, LeftRight());
    PairsGrow(left, right, k, RightRight());
    PairsGrow(left, right, k, BothWrong());
    PairsGrow(left, right, k, Differ());
  }

  /** Nothing is lost: every scored pair falls into exactly one of the four cells, failures make up the rest. */
  method PairUp(left: seq<CaseRow>, right: seq<CaseRow>) returns (p: Pairing)
    requires |left| == |right|
    ensures IsPairing(p, left, right)
  {
    hide *;
    p := Pairing(0, 0, 0, 0, 0, 0, 0, 0);
    NoPairs(left, right);
    for k := 0 to |left|
      invariant PairedTo(p, left, right, k)
    {
      ExtendPairing(p, left, right, k);
      p := Extended(p, left[k], right[k]);
    }
    PairedWhole(p, left, right);
  }

  lemma PairedWhole(p: Pairing, left: seq<CaseRow>, right: seq<CaseRow>)
    requires |left| == |right| && PairedTo(p, left, right, |left|)
    ensures IsPairing(p, left, right)
  {
    hide IsPairing;
    assert left[..|left|] == left && right[..|right|] == right;
  }

  lemma NoPairs(left: seq<CaseRow>, right: seq<CaseRow>)
    requires |left| == |right|
    ensures PairedTo(Pairing(0, 0, 0, 0, 0, 0, 0, 0), left, right, 0)
  {
  }

  lemma {:induction false} CountSwapped(left: seq<CaseRow>, right: seq<CaseRow>, f: (CaseRow, CaseRow) -> bool,
                                        g: (CaseRow, CaseRow) -> bool)
    requires |left| == |right| && forall x, y :: f(x, y) == g(y, x)
    ensures CountPairs(left, right, f) == CountPairs(right, left, g)
  {
    if left != [] { CountSwapped(left[..|left| - 1], right[..|right| - 1], f, g); }
  }

  /** Exchanging two candidates exchanges the one-sided cells and nothing else. */
  lemma SwapPairing(p: Pairing, left: seq<CaseRow>, right: seq<CaseRow>)
    requires |left| == |right| && IsPairing(p, left, right)
    ensures IsPairing(p.(leftOnly := p.rightOnly, rightOnly := p.leftOnly), right, left)
  {
    hide CountPairs;
    CountSwapped(left, right, Always(), Always());
    CountSwapped(left, right, BothRight(), BothRight());
    CountSwapped(left, right, LeftRight(), RightRight());
    CountSwapped(left, right, RightRight(), LeftRight());
    CountSwapped(left, right, BothWrong(), BothWrong());
    CountSwapped(left, right, Differ(), Differ());
  }

  function ScoredCorrect(): (CaseRow, CaseRow) -> bool { (x: CaseRow, y: CaseRow) => x.correct }

  /** The one-sided cells are the whole difference between the candidates' scores on common ground. */
  lemma {:induction false} LeftTotal(left: seq<CaseRow>, right: seq<CaseRow>)
    requires |left| == |right|
    ensures CountPairs(left, right, ScoredCorrect())
         == CountPairs(left, right, BothRight()) + CountPairs(left, right, LeftRight())
  {
    if left != [] { LeftTotal(left[..|left| - 1], right[..|right| - 1]); }
  }

  // ----- compare_development -----

  /** The candidates can be compared: raw evidence on the same cases under one policy, by different models. */
  ghost predicate Comparable(a: Analysis, normal: string -> string, cases: seq<Case>, reports: seq<Report>)
    requires a.Lawful()
  {
    && ValidDataset(normal, cases) && |reports| >= 2 && SplitCases(cases, Split.Development) != []
    && (forall i :: 0 <= i < |reports| ==> Admissible(a, reports[i], cases, Split.Development, true))
    && (forall i :: 0 <= i < |reports| ==> reports[i].policy == reports[0].policy)
    && (forall i, j :: 0 <= i < j < |reports| ==> reports[i].model != reports[j].model)
  }

  ghost predicate IsContender(a: Analysis, report: Report, chosen: seq<Case>, c: Contender)
    requires a.Lawful()
  {
    && Covers(report.rows, chosen) && c.model == report.model
    && c.original == Aligned(a, report, chosen, false) && c.reversed == Aligned(a, report, chosen, true)
  }

  method AlignRows(a: Analysis, report: Report, chosen: seq<Case>, reverse: bool) returns (rows: seq<CaseRow>)
    requires a.Lawful() && Covers(report.rows, chosen)
    ensures rows == Aligned(a, report, chosen, reverse)
  {
    hide ReplayOf, RowsById;
    var byId := RowsById(report.rows);
    rows := [];
    for k := 0 to |chosen|
      invariant |rows| == k && forall i :: 0 <= i < k ==> rows[i] == AlignedRow(a, report, chosen[i], reverse)
    {
      rows := rows + [ReplayOf(a, report, chosen[k], byId[chosen[k].id], None, reverse)];
    }
  }

  /** The loop over the candidate reports. */
  method Candidates(a: Analysis, cases: seq<Case>, reports: seq<Report>) returns (r: Option<seq<Contender>>)
    requires a.Lawful()
    ensures r.Some? <==>
      && (forall i :: 0 <= i < |reports| ==> Admissible(a, reports[i], cases, Split.Development, true))
      && (forall i :: 0 <= i < |reports| ==> reports[i].policy == reports[0].policy)
      && (forall i, j :: 0 <= i < j < |reports| ==> reports[i].model != reports[j].model)
    ensures r.Some? ==> |r.value| == |reports|
    ensures r.Some? ==> forall i :: 0 <= i < |reports| ==>
      IsContender(a, reports[i], SplitCases(cases, Split.Development), r.value[i])
  {
    hide Admissible, Aligned, Covers, SplitCases, Gathered, IsContender, ModelsOf;
    var chosen := SplitCases(cases, Split.Development);
    var candidates: seq<Contender>, models: set<Identity> := [], {};
    NothingGathered(a, cases, reports);
    for k := 0 to |reports|
      invariant |candidates| == k && Gathered(a, cases, reports, k) && ModelsOf(reports, k, models)
      invariant forall i :: 0 <= i < k ==> IsContender(a, reports[i], chosen, candidates[i])
    {
      var report := reports[k];
      var rows := ScoringRows(a, report, cases, Split.Development, true);
      if rows.None? || report.policy != reports[0].policy || report.model in models {
        NotGathered(a, cases, reports, k, models);
        return None;
      }
      GatherOne(a, cases, reports, k, models);
      AdmittedCovers(a, report, cases, Split.Development, true);
      var original := AlignRows(a, report, chosen, false);
      var reversed := AlignRows(a, report, chosen, true);
      ContenderOf(a, report, chosen, original, reversed);
      models := models + {report.model};
      candidates := candidates + [Contender(report.model, original, reversed)];
    }
    AllGathered(a, cases, reports);
    r := Some(candidates);
  }

  /** The first k reports are admissible, share their policy and name different models. */
  ghost predicate Gathered(a: Analysis, cases: seq<Case>, reports: seq<Report>, k: nat)
    requires a.Lawful() && k <= |reports|
  {
    && (forall i :: 0 <= i < k ==> Admissible(a, reports[i], cases, Split.Development, true))
    && (forall i :: 0 <= i < k ==> reports[i].policy == reports[0].policy)
    && (forall i, j :: 0 <= i < j < k ==> reports[i].model != reports[j].model)
  }

  ghost predicate ModelsOf(reports: seq<Report>, k: nat, models: set<Identity>)
    requires k <= |reports|
  {
    forall m :: m in models <==> exists i :: 0 <= i < k && reports[i].model == m
  }

  lemma NothingGathered(a: Analysis, cases: seq<Case>, reports: seq<Report>)
    requires a.Lawful()
    ensures Gathered(a, cases, reports, 0) && ModelsOf(reports, 0, {})
  {
    hide Admissible;
  }

  lemma GatherOne(a: Analysis, cases: seq<Case>, reports: seq<Report>, k: nat, models: set<Identity>)
    requires a.Lawful() && k < |reports| && Gathered(a, cases, reports, k) && ModelsOf(reports, k, models)
    requires Admissible(a, reports[k], cases, Split.Development, true)
    requires reports[k].policy == reports[0].policy && reports[k].model !in models
    ensures Gathered(a, cases, reports, k + 1) && ModelsOf(reports, k + 1, models + {reports[k].model})
  {
    hide Admissible;
    forall m | m in models + {reports[k].model} ensures exists i :: 0 <= i < k + 1 && reports[i].model == m {
      if m in models { var i :| 0 <= i < k && reports[i].model == m; } else { assert reports[k].model == m; }
    }
  }

  lemma NotGathered(a: Analysis, cases: seq<Case>, reports: seq<Report>, k: nat, models: set<Identity>)
    requires a.Lawful() && k < |reports| && ModelsOf(reports, k, models)
    requires !Admissible(a, reports[k], cases, Split.Development, true)
      || reports[k].policy != reports[0].policy || reports[k].model in models
    ensures !(&& (forall i :: 0 <= i < |reports| ==> Admissible(a, reports[i], cases, Split.Development, true))
              && (forall i :: 0 <= i < |reports| ==> reports[i].policy == reports[0].policy)
              && (forall i, j :: 0 <= i < j < |reports| ==> reports[i].model != reports[j].model))
  {
    hide Admissible;
  }

  lemma AllGathered(a: Analysis, cases: seq<Case>, reports: seq<Report>)
    requires a.Lawful() && Gathered(a, cases, reports, |reports|)
    ensures forall i :: 0 <= i < |reports| ==> Admissible(a, reports[i], cases, Split.Development, true)
    ensures forall i :: 0 <= i < |reports| ==> reports[i].policy == reports[0].policy
    ensures forall i, j :: 0 <= i < j < |reports| ==> reports[i].model != reports[j].model
  {
    hide Admissible;
  }

  lemma ContenderOf(a: Analysis, report: Report, chosen: seq<Case>, original: seq<CaseRow>, reversed: seq<CaseRow>)
    requires a.Lawful() && Covers(report.rows, chosen)
    requires original == Aligned(a, report, chosen, false) && reversed == Aligned(a, report, chosen, true)
    ensures IsContender(a, report, chosen, Contender(report.model, original, reversed))
  {
    hide Covers, Aligned;
  }

  /** Both orders of two candidates, paired. */
  ghost predicate PairedAs(x: Contender, y: Contender, pairs: (Pairing, Pairing)) {
    && |x.original| == |y.original| && |x.reversed| == |y.reversed|
    && IsPairing(pairs.0, x.original, y.original) && IsPairing(pairs.1, x.reversed, y.reversed)
  }

  method PairAll(candidates: seq<Contender>) returns (pairwise: map<(nat, nat), (Pairing, Pairing)>)
    requires forall i, j :: 0 <= i < j < |candidates| ==>
      |candidates[i].original| == |candidates[j].original| && |candidates[i].reversed| == |candidates[j].reversed|
    ensures forall i: nat, j: nat :: (i, j) in pairwise <==> i < j < |candidates|
    ensures forall i: nat, j: nat :: i < j < |candidates| ==> PairedAs(candidates[i], candidates[j], pairwise[(i, j)])
  {
    hide IsPairing;
    pairwise := map[];
    for k := 0 to |candidates|
      invariant forall i: nat, j: nat :: (i, j) in pairwise <==> i < k && i < j < |candidates|
      invariant forall i: nat, j: nat :: (i, j) in pairwise ==> PairedAs(candidates[i], candidates[j], pairwise[(i, j)])
    {
      for l := k + 1 to |candidates|
        invariant forall i: nat, j: nat ::
          (i, j) in pairwise <==> (i < k && i < j < |candidates|) || (i == k && k < j < l)
        invariant forall i: nat, j: nat :: (i, j) in pairwise ==>
          PairedAs(candidates[i], candidates[j], pairwise[(i, j)])
      {
        var original := PairUp(candidates[k].original, candidates[l].original);
        var reversed := PairUp(candidates[k].reversed, candidates[l].reversed);
        pairwise := pairwise[(k, l) := (original, reversed)];
      }
    }
  }

  /** Both replays of one case, made from what the report recorded for it in that order. */
  ghost predicate CaseCompared(a: Analysis, report: Report, c: Case, original: CaseRow, reversed: CaseRow) {
    && Parse(c.request).Success?
    && (exists row :: row in report.rows && row.id == c.id)
    && forall row :: row in report.rows && row.id == c.id ==>
         && row.reversedResult.Some?
         && Recomputed(a, report.policy, c, Asked(c, false), row.result, 1.0, original)
         && Recomputed(a, report.policy, c, Asked(c, true), row.reversedResult.value, 1.0, reversed)
  }

  /** Row i of either order belongs to the i-th development case. */
  ghost predicate FromRecords(a: Analysis, report: Report, chosen: seq<Case>, c: Contender) {
    && c.model == report.model && |c.original| == |c.reversed| == |chosen|
    && forall i :: 0 <= i < |chosen| ==> CaseCompared(a, report, chosen[i], c.original[i], c.reversed[i])
  }

  lemma AdmittedCase(a: Analysis, report: Report, cases: seq<Case>, c: Case, row: CaseRow)
    requires a.Lawful() && DistinctCases(cases) && Admissible(a, report, cases, Split.Development, true)
    requires c in SplitCases(cases, Split.Development) && row in report.rows && row.id == c.id
    ensures GoodRow(a, report, c, true, row) && DistinctRows(report.rows)
  {
    hide GoodRow, GoodHeading, Expected, SplitCases;
    ExpectedIs(cases, Split.Development, c);
    var i :| 0 <= i < |report.rows| && report.rows[i] == row;
  }

  lemma ContenderIsRecorded(a: Analysis, normal: string -> string, cases: seq<Case>, report: Report, c: Contender)
    requires a.Lawful() && ValidDataset(normal, cases) && Admissible(a, report, cases, Split.Development, true)
    requires IsContender(a, report, SplitCases(cases, Split.Development), c)
    ensures FromRecords(a, report, SplitCases(cases, Split.Development), c)
  {
    hide Admissible, GoodCase, SplitCases, NoLeak, CaseCompared, ReplayOf, RowsById;
    var chosen := SplitCases(cases, Split.Development);
    forall i | 0 <= i < |chosen| ensures CaseCompared(a, report, chosen[i], c.original[i], c.reversed[i]) {
      assert chosen[i] in chosen;
      CaseIsCompared(a, cases, report, chosen[i]);
    }
  }

  lemma CaseIsCompared(a: Analysis, cases: seq<Case>, report: Report, c: Case)
    requires a.Lawful() && DistinctCases(cases) && Admissible(a, report, cases, Split.Development, true)
    requires c in SplitCases(cases, Split.Development) && GoodCase(c) && c.id in RowsById(report.rows)
    ensures CaseCompared(a, report, c, AlignedRow(a, report, c, false), AlignedRow(a, report, c, true))
  {
    hide Admissible, DistinctCases, GoodCase, SplitCases, BoundTo, Replay, Recomputed, RowsById, ReversedRaw;
    RowsByIdFacts(report.rows);
    AskedParses(c, false);
    var row := RowsById(report.rows)[c.id];
    AdmittedCase(a, report, cases, c, row);
    ReplayRecomputes(a, report, c, row.result, None, false);
    ReplayRecomputes(a, report, c, row.reversedResult.value, None, true);
    forall other | other in report.rows && other.id == c.id ensures other == row {
      RowIsFound(report.rows, other);
    }
  }

  /**
   Compares exactly the comparable candidates: each is replayed case by case in dataset order, and every two of
   them are paired, in both option orders, on the same cases.
   */
  method CompareDevelopment(a: Analysis, normal: string -> string, cases: seq<Case>, reports: seq<Report>)
    returns (r: Option<Comparison>)
    requires a.Lawful()
    ensures r.Some? <==> Comparable(a, normal, cases, reports)
    ensures r.Some? ==> |r.value.candidates| == |reports| && forall i :: 0 <= i < |reports| ==>
      IsContender(a, reports[i], SplitCases(cases, Split.Development), r.value.candidates[i])
    ensures r.Some? ==> forall i :: 0 <= i < |reports| ==>
      FromRecords(a, reports[i], SplitCases(cases, Split.Development), r.value.candidates[i])
    ensures r.Some? ==> forall i: nat, j: nat :: i < j < |reports| ==>
      (i, j) in r.value.pairwise && PairedAs(r.value.candidates[i], r.value.candidates[j], r.value.pairwise[(i, j)])
  {
    hide Admissible, SplitCases, ValidDataset, PairedAs, Covers, FromRecords;
    var valid := ValidateDataset(normal, cases);
    if !valid || |reports| < 2 || SplitCases(cases, Split.Development) == [] { return None; }
    var candidates := Candidates(a, cases, reports);
    if candidates.None? { return None; }
    forall i | 0 <= i < |reports|
      ensures FromRecords(a, reports[i], SplitCases(cases, Split.Development), candidates.value[i])
    {
      ContenderIsRecorded(a, normal, cases, reports[i], candidates.value[i]);
    }
    var pairwise := PairAll(candidates.value);
    r := Some(Comparison(reports[0].policy, candidates.value, pairwise));
  }
}
