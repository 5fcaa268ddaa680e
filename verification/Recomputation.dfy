/**
 What a replay repeats and what it recomputes, stated from the recorded result alone: the recorded logits under the
 recorded option ids, the textbook softmax at the temperature in use, and the decision that follows from it.
 */
module Recomputation {
  import opened Elementary
  import opened Outcomes
  import opened Softmax
  import opened Contracts
  import opened Engine
  import opened Dataset
  import opened Reports
  import opened Decisions

  /** The request of a case, or the same request with its options in reverse. */
  ghost function Asked(c: Case, reversed: bool): Request
    requires Parse(c.request).Success?
  {
    var q := Parse(c.request).value;
    if reversed then q.(options := Reversed(q.options)) else q
  }

  /** The row belongs to the case, keeps the recorded time, and is correct when it selects the expected option. */
  ghost predicate Repeats(c: Case, raw: Recorded, row: CaseRow) {
    && row.id == c.id && row.family == c.family && row.groupId == c.groupId
    && row.labelSource == c.labelSource && row.expectedOptionId == c.expectedOptionId
    && row.result.durationMs == raw.durationMs
    && (row.correct <==>
          row.result.decision.body.Computed? && row.result.decision.body.selected == c.expectedOptionId)
  }

  /** A recorded failure stays as it was; recorded logits are decided anew at temperature t, for the same options. */
  ghost predicate Recomputed(a: Analysis, policy: Policy, c: Case, q: Request, raw: Recorded, t: real, row: CaseRow) {
    var body := raw.decision.body;
    && Repeats(c, raw, row)
    && (body.Failed? ==> row.result.decision.body == body)
    && (body.Computed? ==>
          && t > 0.0 && |body.distribution| == |q.options| >= 2
          && (forall k :: 0 <= k < |q.options| ==> body.distribution[k].id == q.options[k].id)
          && forall i: nat, j: nat :: Leads(Logits(body.distribution), i, j) ==>
               Says(a, policy, q, Scores(Logits(body.distribution), body.inputTokens), t, i, j,
                    row.result.decision.body))
  }

  lemma AskedParses(c: Case, reverse: bool)
    requires GoodCase(c)
    ensures var raw := if reverse then ReversedRaw(c.request) else c.request;
      && Parse(c.request).Success? && Parse(raw) == Success(Asked(c, reverse)) && IsRequest(Asked(c, reverse))
      && |Asked(c, reverse).options| >= 2
  {
    hide WellFormed, ReversedRaw;
    ParseReversed(c.request);
    RequestFacts(Asked(c, reverse));
  }

  lemma ReplayRepeats(a: Analysis, c: Case, raw: Recorded, model: Identity, policy: Policy,
                      calibration: Option<Fitted>, reverse: bool)
    requires a.Lawful()
    ensures Repeats(c, raw, Replay(a, c, raw, model, policy, calibration, reverse))
  {
    hide Decide, Parse, InputSha;
  }

  lemma BoundLabels(a: Analysis, report: Report, c: Case, reverse: bool, raw: Recorded)
    requires a.Lawful() && GoodCase(c)
    requires BoundTo(a, report, c, if reverse then ReversedRaw(c.request) else c.request, raw)
    ensures var body, q := raw.decision.body, Asked(c, reverse);
      body.Computed? ==>
        |body.distribution| == |q.options|
        && forall k :: 0 <= k < |q.options| ==> body.distribution[k].id == q.options[k].id
  {
    AskedParses(c, reverse);
    hide GoodCase, WellFormed, ReversedRaw, InputSha, Probabilities, Asked;
  }

  /** Admitted evidence in the scope of the calibration is recomputed from what was recorded, in either order. */
  lemma ReplayRecomputes(a: Analysis, report: Report, c: Case, raw: Recorded, calibration: Option<Fitted>,
                         reverse: bool)
    requires a.Lawful() && GoodCase(c)
    requires BoundTo(a, report, c, if reverse then ReversedRaw(c.request) else c.request, raw)
    requires calibration.Some? ==>
      calibration.value.temperature > 0.0 && SchemaSha(Asked(c, reverse)) in calibration.value.scopes
    ensures Recomputed(a, report.policy, c, Asked(c, reverse), raw,
                       if calibration.Some? then calibration.value.temperature else 1.0,
                       Replay(a, c, raw, report.model, report.policy, calibration, reverse))
  {
    hide *;
    var again := Replay(a, c, raw, report.model, report.policy, calibration, reverse);
    AskedParses(c, reverse);
    ReplayRepeats(a, c, raw, report.model, report.policy, calibration, reverse);
    ReplayIs(a, c, raw, report.model, report.policy, calibration, reverse);
    BoundLabels(a, report, c, reverse, raw);
    var q, body := Asked(c, reverse), raw.decision.body;
    if body.Computed? {
      ReplaySays(a, DecisionEngine(report.model, report.policy, calibration), q, Logits(body.distribution),
                 body.inputTokens, again.result.decision.body);
    }
    IntoRecomputed(a, report.policy, c, q, raw, if calibration.Some? then calibration.value.temperature else 1.0,
                   again);
  }

  lemma ReplaySays(a: Analysis, e: DecisionEngine, q: Request, zs: seq<real>, tokens: int, b: Body)
    requires a.Lawful() && IsRequest(q) && |zs| == |q.options| >= 2
    requires e.calibration.Some? ==>
      e.calibration.value.temperature > 0.0 && SchemaSha(q) in e.calibration.value.scopes
    requires b == Evaluate(a, e, q, Inference(false, Success(Scores(zs, tokens)), false))
    ensures forall i: nat, j: nat :: Leads(zs, i, j) ==>
      Says(a, e.policy, q, Scores(zs, tokens), UsedTemperature(e), i, j, b)
    ensures UsedTemperature(e) == if e.calibration.Some? then e.calibration.value.temperature else 1.0
  {
    hide Evaluate, IsRequest, SchemaSha, Says;
    forall i: nat, j: nat | Leads(zs, i, j)
      ensures Says(a, e.policy, q, Scores(zs, tokens), UsedTemperature(e), i, j, b)
    {
      EvaluateSays(a, e, q, Inference(false, Success(Scores(zs, tokens)), false), i, j);
    }
  }

  lemma IntoRecomputed(a: Analysis, policy: Policy, c: Case, q: Request, raw: Recorded, t: real, row: CaseRow)
    requires Repeats(c, raw, row) && (raw.decision.body.Failed? ==> row.result.decision.body == raw.decision.body)
    requires raw.decision.body.Computed? ==>
      && t > 0.0 && |raw.decision.body.distribution| == |q.options| >= 2
      && (forall k :: 0 <= k < |q.options| ==> raw.decision.body.distribution[k].id == q.options[k].id)
      && forall i: nat, j: nat :: Leads(Logits(raw.decision.body.distribution), i, j) ==>
           Says(a, policy, q, Scores(Logits(raw.decision.body.distribution), raw.decision.body.inputTokens), t, i, j,
                row.result.decision.body)
    ensures Recomputed(a, policy, c, q, raw, t, row)
  {
    hide Repeats, Says, Leads;
  }

  /** Outside the scope of the calibration the recorded logits are refused. */
  lemma ReplayOutOfScope(a: Analysis, report: Report, c: Case, raw: Recorded, fitted: Fitted, reverse: bool)
    requires a.Lawful() && GoodCase(c) && raw.decision.body.Computed?
    requires Parse(c.request).Success? && SchemaSha(Asked(c, reverse)) !in fitted.scopes
    ensures Replay(a, c, raw, report.model, report.policy, Some(fitted), reverse).result.decision.body
         == Failed(CalibrationOutOfScope)
  {
    AskedParses(c, reverse);
    hide GoodCase, WellFormed, ReversedRaw, SchemaSha, Asked;
    ReplayIs(a, c, raw, report.model, report.policy, Some(fitted), reverse);
  }

  // ----- Evidence belongs to one case in one order -----

  /** A result bound to two cases was made for one input: the cases share their id and everything the model saw. */
  lemma BoundToOneInput(a: Analysis, report: Report, c: Case, d: Case, reverse: bool, r: Recorded)
    requires a.Lawful() && GoodCase(c) && GoodCase(d)
    requires BoundTo(a, report, c, if reverse then ReversedRaw(c.request) else c.request, r)
    requires BoundTo(a, report, d, if reverse then ReversedRaw(d.request) else d.request, r)
    ensures c.id == d.id
    ensures var q, p := Asked(c, reverse), Asked(d, reverse);
      q.state == p.state && q.question == p.question && q.kind == p.kind && q.options == p.options
      && q.version == p.version
  {
    AskedParses(c, reverse);
    AskedParses(d, reverse);
    InputShaIsTheInput(Asked(c, reverse), Asked(d, reverse));
    hide GoodCase, WellFormed, ReversedRaw, InputSha, Asked, Probabilities, Labels;
  }

  /** A result recorded in one option order is never evidence for the other one. */
  lemma BoundToOneOrder(a: Analysis, report: Report, c: Case, r: Recorded)
    requires a.Lawful() && GoodCase(c)
    ensures !(BoundTo(a, report, c, c.request, r) && BoundTo(a, report, c, ReversedRaw(c.request), r))
  {
    if BoundTo(a, report, c, c.request, r) && BoundTo(a, report, c, ReversedRaw(c.request), r) {
      OrdersDiffer(c);
      AskedParses(c, false);
      AskedParses(c, true);
      hide GoodCase, WellFormed, ReversedRaw, InputSha, Asked, Probabilities, Labels;
      InputShaIsTheInput(Asked(c, false), Asked(c, true));
      assert false;
    }
  }

  lemma OrdersDiffer(c: Case)
    requires GoodCase(c)
    ensures Parse(c.request).Success? && Asked(c, false).options != Asked(c, true).options
  {
    AskedParses(c, false);
    hide GoodCase, WellFormed, IsRequest;
    var q := Asked(c, false);
    RequestFacts(q);
    assert Asked(c, true).options[0] == q.options[|q.options| - 1];
    assert q.options[0].id != q.options[|q.options| - 1].id;
  }

  // ----- What an admitted row is -----

  /** A recorded result is raw evidence of this model and policy for this request of this case. */
  ghost predicate RawEvidence(a: Analysis, report: Report, c: Case, q: Request, r: Recorded) {
    var d, body := r.decision, r.decision.body;
    && d.id == Some(c.id) && d.input == Some(InputSha(q))
    && d.model == report.model && d.policy == report.policy && d.calibration == None
    && (body.Computed? ==>
          && |body.distribution| == |q.options| && body.inputTokens >= 1
          && forall k :: 0 <= k < |q.options| ==> body.distribution[k].id == q.options[k].id)
    && 0.0 <= r.durationMs <= 1.0e12
  }

  lemma BoundIsRawEvidence(a: Analysis, report: Report, c: Case, reverse: bool, r: Recorded)
    requires a.Lawful() && GoodCase(c)
    ensures Parse(c.request).Success?
    ensures BoundTo(a, report, c, if reverse then ReversedRaw(c.request) else c.request, r)
      <==> RawEvidence(a, report, c, Asked(c, reverse), r)
  {
    AskedParses(c, reverse);
    hide GoodCase, WellFormed, ReversedRaw, InputSha, Asked;
  }

  /** A row is admitted for a case exactly when it names it, and each of its results is raw evidence in its order. */
  lemma GoodRowMeans(a: Analysis, report: Report, c: Case, requireReverse: bool, row: CaseRow)
    requires a.Lawful() && GoodCase(c)
    ensures Parse(c.request).Success?
    ensures GoodRow(a, report, c, requireReverse, row) <==>
      && row.family == c.family && row.groupId == c.groupId
      && row.labelSource == c.labelSource && row.expectedOptionId == c.expectedOptionId
      && RawEvidence(a, report, c, Asked(c, false), row.result)
      && (requireReverse ==> row.reversedResult.Some?)
      && (row.reversedResult.Some? ==> RawEvidence(a, report, c, Asked(c, true), row.reversedResult.value))
  {
    BoundIsRawEvidence(a, report, c, false, row.result);
    if row.reversedResult.Some? { BoundIsRawEvidence(a, report, c, true, row.reversedResult.value); }
    hide BoundTo, RawEvidence, GoodCase, Asked, Parse;
  }
}
