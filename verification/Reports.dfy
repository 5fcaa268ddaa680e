/**
 Labelled evaluation, the strict reader of its reports, and replay: `evaluate`, `scoring_rows` and
 `replay_scores`.  The backend answers every call with arbitrary scores or an arbitrary failure and takes
 an arbitrary time, so it may be stateful.
 */
module Reports {
  import opened Elementary
  import opened Outcomes
  import opened Softmax
  import opened Contracts
  import opened Engine
  import opened Dataset
  import M = EvaluationMetrics
  import OptionOrder

  const VERSION := "0.12.3"

  /** One call of the backend: what came back, and the milliseconds the whole decision took. */
  datatype Call = Call(reply: Result<Scores, Code>, durationMs: real)

  /** A decision as it is stored in a report. */
  datatype Recorded = Recorded(runtimeVersion: string, decision: Decision, durationMs: real)

  datatype CaseRow = CaseRow(
    id: string, family: string, groupId: string, labelSource: string, expectedOptionId: string,
    result: Recorded, correct: bool, reversedResult: Option<Recorded>, orderAgreement: Option<bool>)

  /** The digest of the dataset is modelled as the cases themselves; times are ticks of one clock. */
  datatype Report = Report(
    runtimeVersion: string, startedAt: int, createdAt: int, dataset: seq<Case>, split: Split,
    model: Identity, policy: Policy, rows: seq<CaseRow>)

  function SelectedOf(b: Body): Option<string> {
    if b.Computed? then Some(b.selected) else None
  }

  // ----- evaluate -----

  function SplitCases(cases: seq<Case>, split: Split): (chosen: seq<Case>)
    ensures forall c :: c in chosen <==> c in cases && c.split == split
  {
    if cases == [] then []
    else
      var last := cases[|cases| - 1];
      assert cases == cases[..|cases| - 1] + [last];
      SplitCases(cases[..|cases| - 1], split) + if last.split == split then [last] else []
  }

  lemma SplitLast(cases: seq<Case>, c: Case, split: Split)
    ensures SplitCases(cases + [c], split) == SplitCases(cases, split) + if c.split == split then [c] else []
  {
    assert (cases + [c])[..|cases|] == cases;
  }

  lemma Reassociate<T>(x: seq<T>, y: seq<T>, z: seq<T>)
    ensures x + (y + z) == (x + y) + z
  {
  }

  /** The split keeps the order of the dataset and takes nothing twice. */
  lemma {:induction false} SplitKeepsOrder(cases: seq<Case>, more: seq<Case>, split: Split)
    ensures SplitCases(cases + more, split) == SplitCases(cases, split) + SplitCases(more, split)
  {
    if more == [] {
      assert cases + more == cases;
    } else {
      hide *;
      var before, last := more[..|more| - 1], more[|more| - 1];
      var tail := if last.split == split then [last] else [];
      assert more == before + [last];
      Reassociate(cases, before, [last]);
      SplitKeepsOrder(cases, before, split);
      SplitLast(cases + before, last, split);
      SplitLast(before, last, split);
      Reassociate(SplitCases(cases, split), SplitCases(before, split), tail);
    }
  }

  function Answer(a: Analysis, e: DecisionEngine, raw: RawRequest, call: Call): Recorded
    requires a.Lawful()
  {
    Recorded(VERSION, Decide(a, e, raw, Inference(false, call.reply, false)), call.durationMs)
  }

  function Agreement(b: Body, c: Body): Option<bool> {
    if b.Computed? && c.Computed? then Some(b.selected == c.selected) else None
  }

  function RowOf(a: Analysis, e: DecisionEngine, c: Case, forward: Call, backward: Option<Call>): CaseRow
    requires a.Lawful()
  {
    var result := Answer(a, e, c.request, forward);
    var reversed := if backward.Some? then Some(Answer(a, e, ReversedRaw(c.request), backward.value)) else None;
    CaseRow(c.id, c.family, c.groupId, c.labelSource, c.expectedOptionId,
            result, SelectedOf(result.decision.body) == Some(c.expectedOptionId), reversed,
            if reversed.Some? then Agreement(result.decision.body, reversed.value.decision.body) else None)
  }

  /** The calls of case i: one each, or two in a row when the options are also reversed. */
  function RowAt(a: Analysis, e: DecisionEngine, chosen: seq<Case>, reverse: bool, call: nat -> Call, i: nat): CaseRow
    requires a.Lawful() && i < |chosen|
  {
    if reverse then RowOf(a, e, chosen[i], call(2 * i), Some(call(2 * i + 1)))
    else RowOf(a, e, chosen[i], call(i), None)
  }

  function RowsOf(a: Analysis, e: DecisionEngine, chosen: seq<Case>, reverse: bool, call: nat -> Call)
    : (rows: seq<CaseRow>)
    requires a.Lawful()
    ensures |rows| == |chosen| && forall i :: 0 <= i < |rows| ==> rows[i] == RowAt(a, e, chosen, reverse, call, i)
  {
    seq(|chosen|, i requires 0 <= i < |chosen| => RowAt(a, e, chosen, reverse, call, i))
  }

  /** What the aggregate metrics are computed from. */
  function MetricRow(r: CaseRow): (m: M.Row)
    ensures m.id == r.id && m.family == r.family && m.groupId == r.groupId && m.labelSource == r.labelSource
    ensures m.expectedOptionId == r.expectedOptionId && m.result == r.result.decision.body && m.correct == r.correct
  {
    M.Row(r.id, r.family, r.groupId, r.labelSource, r.expectedOptionId, r.result.decision.body, r.correct)
  }

  function MetricRows(rows: seq<CaseRow>): (ms: seq<M.Row>)
    ensures |ms| == |rows| && forall i :: 0 <= i < |rows| ==> ms[i] == MetricRow(rows[i])
  {
    seq(|rows|, i requires 0 <= i < |rows| => MetricRow(rows[i]))
  }

  /** A computed result lists the options in order, selects one of them, and reports proper probabilities. */
  lemma ComputedFacts(a: Analysis, e: DecisionEngine, q: Request, run: Inference)
    requires a.Lawful() && IsRequest(q) && Evaluate(a, e, q, run).Computed?
    ensures var b := Evaluate(a, e, q, run);
      && run.reply.Success? && |run.reply.value.logits| == |q.options|
      && b.inputTokens == run.reply.value.inputTokens
      && |b.distribution| == |q.options|
      && (forall i :: 0 <= i < |q.options| ==>
            b.distribution[i].id == q.options[i].id && b.distribution[i].logit == run.reply.value.logits[i])
      && M.HasLabel(b.distribution, b.selected) && 0.0 <= b.probability <= 1.0
  {
    hide Evaluate, Judge, Probabilities, Ranking, IsRequest;
    RequestFacts(q);
    EvaluateJudges(a, e, q, run);
    var scores, t := run.reply.value, Temperature(e.calibration);
    var ps := Probabilities(a, scores.logits, |q.options|, t).value;
    ProbabilitiesAreADistribution(a, scores.logits, t);
    JudgeTakesTop(e.policy, q, ps, scores);
    var top := Ranking(ps, |ps|)[0];
    assert Distribution(q, ps, scores.logits)[top].id == q.options[top].id;
  }

  lemma EvaluateJudges(a: Analysis, e: DecisionEngine, q: Request, run: Inference)
    requires a.Lawful() && |q.options| >= 2 && Evaluate(a, e, q, run).Computed?
    ensures run.reply.Success? && |run.reply.value.logits| == |q.options| && Temperature(e.calibration) > 0.0
    ensures Evaluate(a, e, q, run)
         == Judge(e.policy, q, Probabilities(a, run.reply.value.logits, |q.options|, Temperature(e.calibration)).value,
                  run.reply.value)
  {
    hide Judge, Probabilities;
  }

  lemma JudgeTakesTop(policy: Policy, q: Request, ps: seq<real>, scores: Scores)
    requires |ps| == |scores.logits| == |q.options| >= 2
    ensures var b, top := Judge(policy, q, ps, scores), Ranking(ps, |ps|)[0];
      top < |ps| && b.selected == q.options[top].id && b.probability == ps[top]
  {
    hide Ranking;
  }

  lemma DecisionIsWellScored(a: Analysis, e: DecisionEngine, c: Case, raw: RawRequest, run: Inference, row: M.Row)
    requires a.Lawful() && GoodCase(c) && (raw == c.request || raw == ReversedRaw(c.request))
    requires row.result == Decide(a, e, raw, run).body && row.expectedOptionId == c.expectedOptionId
    requires row.correct == (SelectedOf(row.result) == Some(c.expectedOptionId))
    ensures M.WellScored(row)
  {
    hide GoodCase, Parse, Evaluate, IsRequest;
    GoodCaseParses(c, raw);
    var q := Parse(raw).value;
    if row.result.Computed? {
      ComputedFacts(a, e, q, run);
      RequestFacts(q);
      var d := row.result.distribution;
      var i :| 0 <= i < |q.options| && q.options[i].id == c.expectedOptionId;
      assert d[i].id == c.expectedOptionId;
    }
  }

  lemma ReversedKeepsOption(q: Request, p: Request, id: string)
    requires IsOptionOf(q, id) && p.options == Reversed(q.options)
    ensures IsOptionOf(p, id)
  {
    var i :| 0 <= i < |q.options| && q.options[i].id == id;
    assert p.options[|q.options| - 1 - i].id == id;
  }

  /** A good case parses in both orders, to the same options. */
  lemma GoodCaseParses(c: Case, raw: RawRequest)
    requires GoodCase(c) && (raw == c.request || raw == ReversedRaw(c.request))
    ensures Parse(raw).Success? && IsRequest(Parse(raw).value)
    ensures Parse(raw).value.id == c.id && IsOptionOf(Parse(raw).value, c.expectedOptionId)
  {
    ParseReversed(c.request);
    var q := Parse(c.request).value;
    ReversedKeepsOption(q, q.(options := Reversed(q.options)), c.expectedOptionId);
    hide Parse, GoodIdentifier, IsOptionOf, IsRequest;
  }

  lemma RowIsWellScored(a: Analysis, e: DecisionEngine, c: Case, forward: Call, backward: Option<Call>)
    requires a.Lawful() && GoodCase(c)
    ensures M.WellScored(MetricRow(RowOf(a, e, c, forward, backward)))
  {
    DecisionIsWellScored(a, e, c, c.request, Inference(false, forward.reply, false),
                         MetricRow(RowOf(a, e, c, forward, backward)));
  }

  /**
   What the agreement flag of a row measures: a backend whose scores follow the options is never reported to
   disagree because of its scores, only because of ties; the flag is missing exactly when the decision failed.
   */
  lemma AgreementDetectsTies(a: Analysis, e: DecisionEngine, c: Case, forward: Call, backward: Call)
    requires a.Lawful() && GoodCase(c) && Temperature(e.calibration) > 0.0
    requires backward.reply == OptionOrder.ReversedRun(Inference(false, forward.reply, false)).reply
    ensures var row := RowOf(a, e, c, forward, Some(backward));
      && (row.orderAgreement == None <==> row.result.decision.body.Failed?)
      && (row.orderAgreement == Some(true)
          <==> row.result.decision.body.Computed? && OptionOrder.UniqueLeader(forward.reply.value.logits))
  {
    hide GoodCase, Parse, Evaluate, Answer, IsRequest, InputSha, OptionOrder.UniqueLeader;
    GoodCaseParses(c, c.request);
    GoodCaseParses(c, ReversedRaw(c.request));
    ParseReversed(c.request);
    var q, run := Parse(c.request).value, Inference(false, forward.reply, false);
    RequestFacts(q);
    AnswerIs(a, e, c.request, forward);
    AnswerIs(a, e, ReversedRaw(c.request), backward);
    OptionOrder.ReversalKeepsDecision(a, e, q, run);
    if Evaluate(a, e, q, run).Computed? { ComputedFacts(a, e, q, run); }
  }

  function ReportOf(a: Analysis, e: DecisionEngine, cases: seq<Case>, split: Split, reverse: bool, call: nat -> Call,
                    startedAt: int, createdAt: int): Report
    requires a.Lawful()
  {
    Report(VERSION, startedAt, createdAt, cases, split, e.model, e.policy,
           RowsOf(a, e, SplitCases(cases, split), reverse, call))
  }

  method EvaluateSplit(a: Analysis, normal: string -> string, e: DecisionEngine, cases: seq<Case>, split: Split,
                       reverse: bool, call: nat -> Call, startedAt: int, createdAt: int)
    returns (r: Option<Report>, metrics: M.Summary)
    requires a.Lawful()
    ensures r.Some? <==> ValidDataset(normal, cases) && SplitCases(cases, split) != []
    ensures r.Some? ==> r.value == ReportOf(a, e, cases, split, reverse, call, startedAt, createdAt)
    ensures r.Some? ==> M.Conserves(MetricRows(r.value.rows), metrics)
  {
    hide GoodCase, M.Conserves, RowOf, M.WellScored, SplitCases, NoLeak, DistinctCases;
    metrics := M.MetricsOf([]);
    var valid := ValidateDataset(normal, cases);
    if !valid { return None, metrics; }
    var chosen := SplitCases(cases, split);
    if chosen == [] { return None, metrics; }
    var rows: seq<CaseRow>, calls := [], 0;
    for k := 0 to |chosen|
      invariant calls == if reverse then 2 * k else k
      invariant |rows| == k && forall i :: 0 <= i < k ==> rows[i] == RowAt(a, e, chosen, reverse, call, i)
      invariant forall i :: 0 <= i < k ==> M.WellScored(MetricRow(rows[i]))
    {
      var c := chosen[k];
      assert c in chosen;
      if reverse {
        RowIsWellScored(a, e, c, call(calls), Some(call(calls + 1)));
        rows := rows + [RowOf(a, e, c, call(calls), Some(call(calls + 1)))];
        calls := calls + 2;
      } else {
        RowIsWellScored(a, e, c, call(calls), None);
        rows := rows + [RowOf(a, e, c, call(calls), None)];
        calls := calls + 1;
      }
    }
    assert rows == RowsOf(a, e, chosen, reverse, call);
    metrics := M.MetricsOf(MetricRows(rows));
    r := Some(Report(VERSION, startedAt, createdAt, cases, split, e.model, e.policy, rows));
  }

  // ----- scoring_rows -----

  /** `{c["id"]: c for c in cases if c["split"] == split}`: of equal ids the last one stays. */
  function Expected(cases: seq<Case>, split: Split): map<string, Case> {
    if cases == [] then map[]
    else
      var last := cases[|cases| - 1];
      var before := Expected(cases[..|cases| - 1], split);
      if last.split == split then before[last.id := last] else before
  }

  lemma {:induction false} ExpectedFacts(cases: seq<Case>, split: Split)
    ensures forall k :: k in Expected(cases, split) ==>
      Expected(cases, split)[k] in SplitCases(cases, split) && Expected(cases, split)[k].id == k
    ensures forall c :: c in SplitCases(cases, split) ==> c.id in Expected(cases, split)
  {
    if cases != [] { ExpectedFacts(cases[..|cases| - 1], split); }
  }

  /** With distinct ids the dictionary is just the split, looked up by id. */
  lemma ExpectedIs(cases: seq<Case>, split: Split, c: Case)
    requires DistinctCases(cases) && c in SplitCases(cases, split)
    ensures c.id in Expected(cases, split) && Expected(cases, split)[c.id] == c
  {
    ExpectedFacts(cases, split);
    var d := Expected(cases, split)[c.id];
    assert c in cases && d in cases;
  }

  predicate GoodPolicy(p: Policy) {
    GoodIdentifier(p.id, 100) && 0.0 <= p.minProbability <= 1.0 && 0.0 <= p.minMargin <= 1.0
  }

  function Logits(d: seq<Entry>): (v: seq<real>)
    ensures |v| == |d| && forall i :: 0 <= i < |d| ==> v[i] == d[i].logit
  {
    seq(|d|, i requires 0 <= i < |d| => d[i].logit)
  }

  predicate Labels(d: seq<Entry>, q: Request) {
    |d| == |q.options| && forall i :: 0 <= i < |d| ==> d[i].id == q.options[i].id
  }

  /** The recorded result is raw evidence for this request of this case. */
  predicate BoundTo(a: Analysis, report: Report, c: Case, raw: RawRequest, r: Recorded)
    requires a.Lawful()
  {
    && Parse(raw).Success?
    && r.decision.input == Some(InputSha(Parse(raw).value))
    && r.decision.model == report.model && r.decision.id == Some(c.id)
    && r.decision.policy == report.policy && r.decision.calibration == None
    && (r.decision.body.Computed? ==>
          && Labels(r.decision.body.distribution, Parse(raw).value)
          && Probabilities(a, Logits(r.decision.body.distribution), |Parse(raw).value.options|, 1.0).Success?
          && r.decision.body.inputTokens >= 1)
    && 0.0 <= r.durationMs <= 1.0e12
  }

  predicate SameMetadata(row: CaseRow, c: Case) {
    && row.family == c.family && row.groupId == c.groupId
    && row.labelSource == c.labelSource && row.expectedOptionId == c.expectedOptionId
  }

  predicate GoodRow(a: Analysis, report: Report, c: Case, requireReverse: bool, row: CaseRow)
    requires a.Lawful()
  {
    && SameMetadata(row, c)
    && BoundTo(a, report, c, c.request, row.result)
    && (requireReverse ==> row.reversedResult.Some?)
    && (row.reversedResult.Some? ==> BoundTo(a, report, c, ReversedRaw(c.request), row.reversedResult.value))
  }

  predicate GoodHeading(report: Report, cases: seq<Case>, split: Split) {
    report.dataset == cases && report.split == split && report.model != map[] && GoodPolicy(report.policy)
  }

  ghost predicate DistinctRows(rows: seq<CaseRow>) {
    forall i, j :: 0 <= i < j < |rows| ==> rows[i].id != rows[j].id
  }

  ghost predicate GoodRows(a: Analysis, report: Report, expected: map<string, Case>, requireReverse: bool)
    requires a.Lawful()
  {
    forall i :: 0 <= i < |report.rows| ==>
      report.rows[i].id in expected
      && GoodRow(a, report, expected[report.rows[i].id], requireReverse, report.rows[i])
  }

  ghost predicate Covers(rows: seq<CaseRow>, expected: map<string, Case>) {
    forall k :: k in expected ==> exists i :: 0 <= i < |rows| && rows[i].id == k
  }

  /** What an accepted report guarantees: every case of the split once, each result bound to its own request. */
  ghost predicate Admissible(a: Analysis, report: Report, cases: seq<Case>, split: Split, requireReverse: bool)
    requires a.Lawful()
  {
    var expected := Expected(cases, split);
    && GoodHeading(report, cases, split)
    && expected != map[]
    && GoodRows(a, report, expected, requireReverse)
    && DistinctRows(report.rows)
    && Covers(report.rows, expected)
  }

  method ScoringRows(a: Analysis, report: Report, cases: seq<Case>, split: Split, requireReverse: bool)
    returns (r: Option<seq<(Case, CaseRow)>>)
    requires a.Lawful()
    ensures r.Some? <==> Admissible(a, report, cases, split, requireReverse)
    ensures r.Some? ==> |r.value| == |report.rows|
    ensures r.Some? ==>
      forall i :: 0 <= i < |r.value| ==>
        && r.value[i].1 == report.rows[i] && report.rows[i].id in Expected(cases, split)
        && r.value[i].0 == Expected(cases, split)[report.rows[i].id]
  {
    hide GoodRow, GoodHeading, Expected, Admissible, Scanned;
    if !GoodHeading(report, cases, split) || Expected(cases, split) == map[] {
      NoHeading(a, report, cases, split, requireReverse);
      return None;
    }
    var expected := Expected(cases, split);
    var found: set<string>, output: seq<(Case, CaseRow)> := {}, [];
    NothingScanned(a, report, expected, requireReverse);
    for k := 0 to |report.rows|
      invariant Scanned(a, report, expected, requireReverse, found, k)
      invariant |output| == k && forall i :: 0 <= i < k ==>
        report.rows[i].id in expected && output[i] == (expected[report.rows[i].id], report.rows[i])
    {
      var row := report.rows[k];
      if row.id !in expected || row.id in found || !GoodRow(a, report, expected[row.id], requireReverse, row) {
        NotAdmissible(a, report, cases, split, requireReverse, found, k);
        return None;
      }
      ScanRow(a, report, expected, requireReverse, found, k);
      found := found + {row.id};
      output := output + [(expected[row.id], row)];
    }
    AdmissibleIffCovered(a, report, cases, split, requireReverse, found);
    if found != expected.Keys { return None; }
    r := Some(output);
  }

  lemma NoHeading(a: Analysis, report: Report, cases: seq<Case>, split: Split, requireReverse: bool)
    requires a.Lawful() && (!GoodHeading(report, cases, split) || Expected(cases, split) == map[])
    ensures !Admissible(a, report, cases, split, requireReverse)
  {
    hide GoodRow, GoodHeading, Expected;
  }

  lemma NothingScanned(a: Analysis, report: Report, expected: map<string, Case>, requireReverse: bool)
    requires a.Lawful()
    ensures Scanned(a, report, expected, requireReverse, {}, 0)
  {
    hide GoodRow;
  }

  lemma ScanRow(a: Analysis, report: Report, expected: map<string, Case>, requireReverse: bool, found: set<string>,
                k: nat)
    requires a.Lawful() && k < |report.rows| && Scanned(a, report, expected, requireReverse, found, k)
    requires var row := report.rows[k];
      row.id in expected && row.id !in found && GoodRow(a, report, expected[row.id], requireReverse, row)
    ensures Scanned(a, report, expected, requireReverse, found + {report.rows[k].id}, k + 1)
  {
    hide GoodRow;
  }

  /** The first k rows are good and distinct, and `found` holds their ids. */
  ghost predicate Scanned(a: Analysis, report: Report, expected: map<string, Case>, requireReverse: bool,
                          found: set<string>, k: nat)
    requires a.Lawful() && k <= |report.rows|
  {
    && (forall x :: x in found <==> exists i :: 0 <= i < k && report.rows[i].id == x)
    && (forall i, j :: 0 <= i < j < k ==> report.rows[i].id != report.rows[j].id)
    && (forall i :: 0 <= i < k ==>
          report.rows[i].id in expected
          && GoodRow(a, report, expected[report.rows[i].id], requireReverse, report.rows[i]))
  }

  lemma NotAdmissible(a: Analysis, report: Report, cases: seq<Case>, split: Split, requireReverse: bool,
                      found: set<string>, k: nat)
    requires a.Lawful() && k < |report.rows| && Scanned(a, report, Expected(cases, split), requireReverse, found, k)
    requires var row, expected := report.rows[k], Expected(cases, split);
      row.id !in expected || row.id in found || !GoodRow(a, report, expected[row.id], requireReverse, row)
    ensures !Admissible(a, report, cases, split, requireReverse)
  {
    hide GoodRow, GoodHeading, Expected;
  }

  lemma AdmissibleIffCovered(a: Analysis, report: Report, cases: seq<Case>, split: Split, requireReverse: bool,
                             found: set<string>)
    requires a.Lawful() && Scanned(a, report, Expected(cases, split), requireReverse, found, |report.rows|)
    requires GoodHeading(report, cases, split) && Expected(cases, split) != map[]
    ensures Admissible(a, report, cases, split, requireReverse) <==> found == Expected(cases, split).Keys
  {
    hide GoodRow, GoodHeading, Expected;
  }

  // ----- Every case of the split, exactly once -----

  function CasesOf(rows: seq<CaseRow>, expected: map<string, Case>): (cs: seq<Case>)
    requires forall i :: 0 <= i < |rows| ==> rows[i].id in expected
    ensures |cs| == |rows| && forall i :: 0 <= i < |rows| ==> cs[i] == expected[rows[i].id]
  {
    seq(|rows|, i requires 0 <= i < |rows| => expected[rows[i].id])
  }

  lemma {:induction false} SplitKeepsDistinct(cases: seq<Case>, split: Split)
    requires DistinctCases(cases)
    ensures DistinctCases(SplitCases(cases, split))
  {
    if cases != [] {
      SplitKeepsDistinct(cases[..|cases| - 1], split);
      var before := SplitCases(cases[..|cases| - 1], split);
      forall i | 0 <= i < |before| ensures before[i].id != cases[|cases| - 1].id {
        assert before[i] in cases[..|cases| - 1];
      }
    }
  }

  lemma SameMembers(cs: seq<Case>, ds: seq<Case>)
    requires DistinctCases(cs) && DistinctCases(ds) && forall c :: c in cs <==> c in ds
    ensures multiset(cs) == multiset(ds)
  {
    forall c ensures multiset(cs)[c] == multiset(ds)[c] {
      if c in cs { CountIsOne(cs, c); CountIsOne(ds, c); }
    }
  }

  /** The cases read back from an accepted report are the cases of the split, each exactly once, in some order. */
  lemma AdmittedIsPermutation(a: Analysis, report: Report, cases: seq<Case>, split: Split, requireReverse: bool)
    requires a.Lawful() && DistinctCases(cases) && Admissible(a, report, cases, split, requireReverse)
    ensures multiset(CasesOf(report.rows, Expected(cases, split))) == multiset(SplitCases(cases, split))
  {
    hide GoodRow, GoodHeading, Expected, SplitCases;
    var expected, chosen := Expected(cases, split), SplitCases(cases, split);
    var cs := CasesOf(report.rows, expected);
    ExpectedFacts(cases, split);
    SplitKeepsDistinct(cases, split);
    forall i, j | 0 <= i < j < |cs| ensures cs[i].id != cs[j].id { assert report.rows[i].id != report.rows[j].id; }
    forall c | c in chosen ensures c in cs {
      ExpectedIs(cases, split, c);
      var i :| 0 <= i < |report.rows| && report.rows[i].id == c.id;
      assert cs[i] == c;
    }
    SameMembers(cs, chosen);
  }

  // ----- Producer and validator agree -----

  /** What one call must obey for its result to be admissible. */
  predicate Proper(e: DecisionEngine, raw: RawRequest, call: Call) {
    && 0.0 <= call.durationMs <= 1.0e12
    && (Parse(raw).Success? && call.reply.Success? && |call.reply.value.logits| == |Parse(raw).value.options|
        ==> call.reply.value.inputTokens >= 1)
  }

  /** An uncalibrated engine computes exactly when the backend returned one score per option. */
  lemma RawComputes(a: Analysis, e: DecisionEngine, q: Request, reply: Result<Scores, Code>)
    requires a.Lawful() && IsRequest(q) && e.calibration == None && |q.options| >= 2
    ensures Evaluate(a, e, q, Inference(false, reply, false)).Computed?
      <==> reply.Success? && |reply.value.logits| == |q.options|
  {
    hide Judge;
  }

  lemma AnswerIs(a: Analysis, e: DecisionEngine, raw: RawRequest, call: Call)
    requires a.Lawful() && Parse(raw).Success? && |Parse(raw).value.options| >= 2
    ensures var q := Parse(raw).value;
      Answer(a, e, raw, call) == Recorded(VERSION,
        Decision(Some(q.id), Some(InputSha(q)), e.model, e.policy, e.calibration,
                 Evaluate(a, e, q, Inference(false, call.reply, false))), call.durationMs)
  {
    hide Evaluate, Parse;
  }

  /** On its own request an uncalibrated answer is bound exactly when the call was proper. */
  lemma AnswerIsBound(a: Analysis, e: DecisionEngine, report: Report, c: Case, raw: RawRequest, call: Call)
    requires a.Lawful() && GoodCase(c) && (raw == c.request || raw == ReversedRaw(c.request))
    requires e.calibration == None && report.model == e.model && report.policy == e.policy
    ensures BoundTo(a, report, c, raw, Answer(a, e, raw, call)) <==> Proper(e, raw, call)
  {
    hide GoodCase, Parse, Evaluate, Answer, Probabilities, IsRequest, InputSha, ReversedRaw;
    GoodCaseParses(c, raw);
    var q, run := Parse(raw).value, Inference(false, call.reply, false);
    RequestFacts(q);
    AnswerIs(a, e, raw, call);
    RawComputes(a, e, q, call.reply);
    if Evaluate(a, e, q, run).Computed? { ComputedFacts(a, e, q, run); }
  }

  /** The calls the evaluation of case i makes. */
  predicate ProperAt(e: DecisionEngine, chosen: seq<Case>, reverse: bool, call: nat -> Call, i: nat)
    requires i < |chosen|
  {
    if reverse then
      Proper(e, chosen[i].request, call(2 * i)) && Proper(e, ReversedRaw(chosen[i].request), call(2 * i + 1))
    else Proper(e, chosen[i].request, call(i))
  }

  lemma RowIsGood(a: Analysis, e: DecisionEngine, report: Report, chosen: seq<Case>, reverse: bool, call: nat -> Call,
                  i: nat)
    requires a.Lawful() && i < |chosen| && GoodCase(chosen[i])
    requires e.calibration == None && report.model == e.model && report.policy == e.policy
    ensures GoodRow(a, report, chosen[i], reverse, RowAt(a, e, chosen, reverse, call, i))
      <==> ProperAt(e, chosen, reverse, call, i)
  {
    hide GoodCase, BoundTo, Proper, Answer;
    var c := chosen[i];
    if reverse {
      AnswerIsBound(a, e, report, c, c.request, call(2 * i));
      AnswerIsBound(a, e, report, c, ReversedRaw(c.request), call(2 * i + 1));
    } else {
      AnswerIsBound(a, e, report, c, c.request, call(i));
    }
  }

  /**
   `evaluate` and `scoring_rows` agree: the report of an evaluation is admitted exactly when the engine
   was uncalibrated, its identity and policy are well formed and every backend call was proper.
   */
  lemma EvaluationIsAdmitted(a: Analysis, normal: string -> string, e: DecisionEngine, cases: seq<Case>, split: Split,
                             reverse: bool, call: nat -> Call, startedAt: int, createdAt: int)
    requires a.Lawful() && ValidDataset(normal, cases) && SplitCases(cases, split) != []
    ensures Admissible(a, ReportOf(a, e, cases, split, reverse, call, startedAt, createdAt), cases, split, reverse)
      <==> e.calibration == None && e.model != map[] && GoodPolicy(e.policy)
           && forall i :: 0 <= i < |SplitCases(cases, split)| ==>
                ProperAt(e, SplitCases(cases, split), reverse, call, i)
  {
    hide GoodRow, GoodPolicy, GoodCase, SplitCases, Expected, ProperAt, RowAt, NoLeak;
    var report, chosen := ReportOf(a, e, cases, split, reverse, call, startedAt, createdAt), SplitCases(cases, split);
    RowsMatchCases(a, normal, e, cases, split, reverse, call);
    if e.calibration == None {
      forall i | 0 <= i < |chosen|
        ensures GoodRow(a, report, chosen[i], reverse, report.rows[i]) <==> ProperAt(e, chosen, reverse, call, i)
      {
        assert chosen[i] in chosen;
        RowIsGood(a, e, report, chosen, reverse, call, i);
      }
    } else {
      CalibratedIsRefused(a, e, report, chosen, reverse, call, 0);
    }
    AdmissibleMeansGoodRows(a, report, cases, split, reverse, chosen);
  }

  /** When the rows name the cases of the split in order, admission is a matter of the heading and each row. */
  lemma AdmissibleMeansGoodRows(a: Analysis, report: Report, cases: seq<Case>, split: Split, reverse: bool,
                                chosen: seq<Case>)
    requires a.Lawful() && chosen != [] && |report.rows| == |chosen| && DistinctCases(chosen)
    requires forall i :: 0 <= i < |chosen| ==>
      report.rows[i].id == chosen[i].id && chosen[i].id in Expected(cases, split)
      && Expected(cases, split)[chosen[i].id] == chosen[i]
    requires forall k :: k in Expected(cases, split) ==> exists i :: 0 <= i < |chosen| && chosen[i].id == k
    ensures Admissible(a, report, cases, split, reverse)
      <==> GoodHeading(report, cases, split)
           && forall i :: 0 <= i < |chosen| ==> GoodRow(a, report, chosen[i], reverse, report.rows[i])
  {
    hide GoodRow, GoodRows, Covers, GoodHeading, Expected, DistinctCases, DistinctRows;
    var expected := Expected(cases, split);
    assert chosen[0].id in expected;
    DistinctLike(report.rows, chosen);
    CoversLike(report.rows, expected, chosen);
    GoodRowsLike(a, report, expected, reverse, chosen);
  }

  lemma CoversLike(rows: seq<CaseRow>, expected: map<string, Case>, chosen: seq<Case>)
    requires |rows| == |chosen| && forall i :: 0 <= i < |chosen| ==> rows[i].id == chosen[i].id
    requires forall k :: k in expected ==> exists i :: 0 <= i < |chosen| && chosen[i].id == k
    ensures Covers(rows, expected)
  {
    forall k | k in expected ensures exists i :: 0 <= i < |rows| && rows[i].id == k {
      var i :| 0 <= i < |chosen| && chosen[i].id == k;
      assert rows[i].id == k;
    }
  }

  lemma DistinctLike(rows: seq<CaseRow>, chosen: seq<Case>)
    requires |rows| == |chosen| && DistinctCases(chosen) && forall i :: 0 <= i < |chosen| ==> rows[i].id == chosen[i].id
    ensures DistinctRows(rows)
  {
  }

  lemma GoodRowsLike(a: Analysis, report: Report, expected: map<string, Case>, reverse: bool, chosen: seq<Case>)
    requires a.Lawful() && |report.rows| == |chosen|
    requires forall i :: 0 <= i < |chosen| ==>
      report.rows[i].id == chosen[i].id && chosen[i].id in expected && expected[chosen[i].id] == chosen[i]
    ensures (forall i :: 0 <= i < |chosen| ==> GoodRow(a, report, chosen[i], reverse, report.rows[i]))
      <==> GoodRows(a, report, expected, reverse)
  {
    hide GoodRow;
  }

  lemma RowsMatchCases(a: Analysis, normal: string -> string, e: DecisionEngine, cases: seq<Case>, split: Split,
                       reverse: bool, call: nat -> Call)
    requires a.Lawful() && ValidDataset(normal, cases)
    ensures var chosen, expected := SplitCases(cases, split), Expected(cases, split);
      && DistinctCases(chosen)
      && (forall i :: 0 <= i < |chosen| ==>
            && RowsOf(a, e, chosen, reverse, call)[i].id == chosen[i].id
            && chosen[i].id in expected && expected[chosen[i].id] == chosen[i])
      && (forall k :: k in expected ==> exists i :: 0 <= i < |chosen| && chosen[i].id == k)
  {
    hide GoodCase, SplitCases, Expected, NoLeak, Answer;
    var chosen, expected := SplitCases(cases, split), Expected(cases, split);
    ExpectedFacts(cases, split);
    SplitKeepsDistinct(cases, split);
    forall i | 0 <= i < |chosen|
      ensures chosen[i].id in expected && expected[chosen[i].id] == chosen[i]
    {
      assert chosen[i] in chosen;
      ExpectedIs(cases, split, chosen[i]);
    }
  }

  lemma CalibratedIsRefused(a: Analysis, e: DecisionEngine, report: Report, chosen: seq<Case>, reverse: bool,
                            call: nat -> Call, i: nat)
    requires a.Lawful() && i < |chosen| && e.calibration != None
    ensures !GoodRow(a, report, chosen[i], reverse, RowAt(a, e, chosen, reverse, call, i))
  {
  }

  // ----- replay_scores -----

  function Replay(a: Analysis, c: Case, raw: Recorded, model: Identity, policy: Policy, calibration: Option<Fitted>,
                  reverse: bool): CaseRow
    requires a.Lawful()
  {
    var request := if reverse then ReversedRaw(c.request) else c.request;
    var e := DecisionEngine(model, policy, calibration);
    var reply :=
      match raw.decision.body
      case Failed(code) => Failure(code)
      case Computed(_, _, _, _, _, d, tokens) => Success(Scores(Logits(d), tokens));
    var decision :=
      if raw.decision.body.Failed? && Parse(request).Success?
      then Decision(Some(Parse(request).value.id), Some(InputSha(Parse(request).value)), model, policy, calibration,
                    raw.decision.body)
      else Decide(a, e, request, Inference(false, reply, false));
    CaseRow(c.id, c.family, c.groupId, c.labelSource, c.expectedOptionId, Recorded(VERSION, decision, raw.durationMs),
            SelectedOf(decision.body) == Some(c.expectedOptionId), None, None)
  }

  lemma ReplayOfAnswer(a: Analysis, e: DecisionEngine, c: Case, call: Call, reverse: bool)
    requires a.Lawful() && GoodCase(c) && e.calibration == None
    ensures var raw := if reverse then ReversedRaw(c.request) else c.request;
      Replay(a, c, Answer(a, e, raw, call), e.model, e.policy, None, reverse).result == Answer(a, e, raw, call)
  {
    hide GoodCase, Parse, Evaluate, Decide, Answer, Probabilities, IsRequest, InputSha, ReversedRaw;
    var raw := if reverse then ReversedRaw(c.request) else c.request;
    GoodCaseParses(c, raw);
    var q, run := Parse(raw).value, Inference(false, call.reply, false);
    RequestFacts(q);
    AnswerIs(a, e, raw, call);
    AnswerIsDecide(a, e, raw, call);
    var b := Evaluate(a, e, q, run);
    if b.Computed? {
      ComputedFacts(a, e, q, run);
      assert Logits(b.distribution) == call.reply.value.logits;
      assert Success(Scores(Logits(b.distribution), b.inputTokens)) == call.reply;
    }
  }

  lemma AnswerIsDecide(a: Analysis, e: DecisionEngine, raw: RawRequest, call: Call)
    requires a.Lawful()
    ensures Answer(a, e, raw, call)
         == Recorded(VERSION, Decide(a, e, raw, Inference(false, call.reply, false)), call.durationMs)
  {
  }

  /**
   Replaying the recorded logits reproduces every recorded outcome, in both option orders: result,
   probabilities, reason, value, failure code, duration and the correctness flag.
   */
  lemma ReplayReproduces(a: Analysis, normal: string -> string, e: DecisionEngine, cases: seq<Case>, split: Split,
                         reverse: bool, call: nat -> Call, startedAt: int, createdAt: int, i: nat)
    requires a.Lawful() && ValidDataset(normal, cases) && e.calibration == None && i < |SplitCases(cases, split)|
    ensures var report := ReportOf(a, e, cases, split, reverse, call, startedAt, createdAt);
      var c := SplitCases(cases, split)[i];
      var again := Replay(a, c, report.rows[i].result, report.model, report.policy, None, false);
      && again.result == report.rows[i].result && again.correct == report.rows[i].correct
      && (reverse ==>
            && report.rows[i].reversedResult.Some?
            && Replay(a, c, report.rows[i].reversedResult.value, report.model, report.policy, None, true).result
               == report.rows[i].reversedResult.value)
  {
    hide GoodCase, Answer, Replay;
    var c := SplitCases(cases, split)[i];
    assert c in SplitCases(cases, split);
    ReplayOfAnswer(a, e, c, call(if reverse then 2 * i else i), false);
    ReplayOfAnswer(a, e, c, call(2 * i + 1), true);
    ReplayCorrect(a, c, RowAt(a, e, SplitCases(cases, split), reverse, call, i).result, e.model, e.policy, None, false);
  }

  lemma ReplayCorrect(a: Analysis, c: Case, raw: Recorded, model: Identity, policy: Policy, calibration: Option<Fitted>,
                      reverse: bool)
    requires a.Lawful()
    ensures var r := Replay(a, c, raw, model, policy, calibration, reverse);
      r.correct == (SelectedOf(r.result.decision.body) == Some(c.expectedOptionId))
  {
  }

  // ----- Replay under a fitted temperature -----

  /** Whatever evidence was admitted, its replay meets what the metrics rely on. */
  lemma ReplayIsWellScored(a: Analysis, c: Case, raw: Recorded, model: Identity, policy: Policy,
                           calibration: Option<Fitted>, reverse: bool)
    requires a.Lawful() && GoodCase(c)
    ensures M.WellScored(MetricRow(Replay(a, c, raw, model, policy, calibration, reverse)))
  {
    var request := if reverse then ReversedRaw(c.request) else c.request;
    if raw.decision.body.Computed? {
      var scores := Scores(Logits(raw.decision.body.distribution), raw.decision.body.inputTokens);
      var run := Inference(false, Success(scores), false);
      DecisionIsWellScored(a, DecisionEngine(model, policy, calibration), c, request, run,
                           MetricRow(Replay(a, c, raw, model, policy, calibration, reverse)));
    } else {
      GoodCaseParses(c, request);
    }
  }

  /**
   On admitted evidence in the calibration's scope, fitting changes no selected option: the baseline
   and the calibrated replay are correct on exactly the same cases and fail on exactly the same ones.
   */
  lemma FittingKeepsCorrectness(a: Analysis, report: Report, c: Case, raw: Recorded, fitted: Fitted, reverse: bool)
    requires a.Lawful() && GoodCase(c) && fitted.temperature > 0.0
    requires var request := if reverse then ReversedRaw(c.request) else c.request;
      BoundTo(a, report, c, request, raw) && SchemaSha(Parse(request).value) in fitted.scopes
    ensures var b := Replay(a, c, raw, report.model, report.policy, None, reverse);
      var f := Replay(a, c, raw, report.model, report.policy, Some(fitted), reverse);
      && f.correct == b.correct
      && SelectedOf(f.result.decision.body) == SelectedOf(b.result.decision.body)
      && b.result.decision.body.Computed? == f.result.decision.body.Computed? == raw.decision.body.Computed?
  {
    hide GoodCase, Parse, Evaluate, Decide, Probabilities, IsRequest, InputSha, SchemaSha, ReversedRaw, Replay;
    var request := if reverse then ReversedRaw(c.request) else c.request;
    GoodCaseParses(c, request);
    var q := Parse(request).value;
    RequestFacts(q);
    ReplayIs(a, c, raw, report.model, report.policy, None, reverse);
    ReplayIs(a, c, raw, report.model, report.policy, Some(fitted), reverse);
    if raw.decision.body.Computed? {
      var d := raw.decision.body.distribution;
      var reply := Success(Scores(Logits(d), raw.decision.body.inputTokens));
      var e := DecisionEngine(report.model, report.policy, None);
      RawComputes(a, e, q, reply);
      CalibrationKeepsSelection(a, e, fitted, q, Inference(false, reply, false));
    }
  }

  /** What a replay computes, on a case that parses. */
  lemma ReplayIs(a: Analysis, c: Case, raw: Recorded, model: Identity, policy: Policy, calibration: Option<Fitted>,
                 reverse: bool)
    requires a.Lawful()
    requires var request := if reverse then ReversedRaw(c.request) else c.request;
      Parse(request).Success? && |Parse(request).value.options| >= 2
    ensures var q := Parse(if reverse then ReversedRaw(c.request) else c.request).value;
      var again := Replay(a, c, raw, model, policy, calibration, reverse);
      && again.correct == (SelectedOf(again.result.decision.body) == Some(c.expectedOptionId))
      && again.result.decision.body
         == match raw.decision.body
            case Failed(_) => raw.decision.body
            case Computed(_, _, _, _, _, d, tokens) =>
              Evaluate(a, DecisionEngine(model, policy, calibration), q,
                       Inference(false, Success(Scores(Logits(d), tokens)), false))
  {
    hide Parse, Evaluate, ReversedRaw;
  }

  /** Both orders of a case share one calibration scope. */
  lemma ScopeIgnoresReversal(c: Case)
    requires GoodCase(c)
    ensures Parse(ReversedRaw(c.request)).Success?
    ensures SchemaSha(Parse(ReversedRaw(c.request)).value) == SchemaSha(Parse(c.request).value)
  {
    GoodCaseParses(c, c.request);
    ParseReversed(c.request);
    var q := Parse(c.request).value;
    ReversedIsPermutation(q.options);
    SchemaShaIsOrderFree(q, q.(options := Reversed(q.options)));
  }
}
