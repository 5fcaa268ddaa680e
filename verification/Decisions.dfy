/**
 What one decision says, stated from the scores, the options and the thresholds alone: the softmax in its textbook
 form, which option is selected, when it is accepted, which value it then carries, and which failure is reported.
 */
module Decisions {
  import opened Elementary
  import opened Outcomes
  import opened Softmax
  import opened Contracts
  import opened Engine
  import opened OptionOrder

  // ----- The softmax -----

  /** The sum of exp(z / t) over all scores. */
  ghost function Partition(a: Analysis, zs: seq<real>, t: real): real
    requires t != 0.0
  {
    if zs == [] then 0.0 else a.exp(zs[0] / t) + Partition(a, zs[1..], t)
  }

  /** exp(z_i / t) as a share of the whole. */
  ghost function Share(a: Analysis, zs: seq<real>, t: real, i: nat): real
    requires t != 0.0 && i < |zs|
  {
    if Partition(a, zs, t) == 0.0 then 0.0 else a.exp(zs[i] / t) / Partition(a, zs, t)
  }

  ghost function Times(x: real, y: real): real {
    x * y
  }

  lemma ShiftedWeight(a: Analysis, z: real, m: real, t: real)
    requires a.Lawful() && t > 0.0
    ensures a.exp(z / t) == Times(a.exp(m / t), Weight(a, z - m, 1.0 / t))
  {
    var u := 1.0 / t;
    var x, y, w := m * u, (z - m) * u, z * u;
    InverseTimes(z, t);
    InverseTimes(m, t);
    Difference(z, m, u);
    assert x + y == w && z / t == w && m / t == x;
    assert a.AddLaw(x, y);
    assert a.exp(w) == a.exp(x) * a.exp(y);
    WeightIs(a, z - m, u, y);
    hide Weight;
    TimesIs(a.exp(x), a.exp(y));
  }

  lemma WeightIs(a: Analysis, z: real, beta: real, product: real)
    requires product == z * beta
    ensures Weight(a, z, beta) == a.exp(product)
  {
  }

  lemma TimesIs(x: real, y: real)
    ensures Times(x, y) == x * y
  {
  }

  lemma InverseTimes(z: real, t: real)
    requires t > 0.0
    ensures z / t == z * (1.0 / t)
  {
    var q, u := z / t, 1.0 / t;
    assert q * t == z && u * t == 1.0;
    assert (z * u) * t == z * (u * t);
    assert (q - z * u) * t == 0.0;
  }

  lemma Difference(x: real, y: real, c: real)
    ensures (x - y) * c == x * c - y * c
  {
  }

  lemma {:induction false} ShiftedPartition(a: Analysis, zs: seq<real>, m: real, t: real)
    requires a.Lawful() && t > 0.0
    ensures Partition(a, zs, t) == Times(a.exp(m / t), Sum(Weights(a, Shifted(zs, m), 1.0 / t)))
  {
    if zs == [] {
      TimesAdds(a.exp(m / t), 0.0, 0.0);
    } else {
      hide Times, Weight;
      ShiftedPartition(a, zs[1..], m, t);
      ShiftedWeight(a, zs[0], m, t);
      var ws := Weights(a, Shifted(zs, m), 1.0 / t);
      assert ws[1..] == Weights(a, Shifted(zs[1..], m), 1.0 / t);
      TimesAdds(a.exp(m / t), ws[0], Sum(ws[1..]));
    }
  }

  lemma TimesAdds(c: real, x: real, y: real)
    ensures Times(c, x + y) == Times(c, x) + Times(c, y) && Times(c, 0.0) == 0.0
  {
  }

  lemma CommonFactor(c: real, x: real, y: real)
    requires c > 0.0 && y > 0.0
    ensures Times(c, y) > 0.0 && Times(c, x) / Times(c, y) == x / y
  {
    MulPositive(c, y);
    SameRatio(c, x, y, x / y, c * y, c * x, (c * x) / (c * y));
  }

  lemma SameRatio(c: real, x: real, y: real, q: real, p: real, s: real, r: real)
    requires p == c * y > 0.0 && s == c * x && q * y == x && r * p == s
    ensures r == q
  {
    assert q * p == c * (q * y);
    if r < q { MulLess(p, r, q); }
    if q < r { MulLess(p, q, r); }
  }

  lemma ProbabilityAt(a: Analysis, logits: seq<real>, t: real, i: nat, ws: seq<real>)
    requires a.Lawful() && t > 0.0 && i < |logits|
    requires ws == Weights(a, Shifted(logits, MaxOf(logits)), 1.0 / t)
    ensures ws[i] == Weight(a, logits[i] - MaxOf(logits), 1.0 / t) && Sum(ws) > 0.0
    ensures Probabilities(a, logits, |logits|, t).value[i] == ws[i] / Sum(ws)
  {
    hide MaxOf, Weight, Sum;
    WeightsPositive(a, Shifted(logits, MaxOf(logits)), 1.0 / t);
  }

  lemma ShareIs(a: Analysis, zs: seq<real>, t: real, i: nat, part: real, whole: real)
    requires t > 0.0 && i < |zs| && part == a.exp(zs[i] / t) && whole == Partition(a, zs, t) > 0.0
    ensures Share(a, zs, t, i) == part / whole
  {
    hide Partition;
  }

  /** `probabilities` is the softmax at its temperature, whatever shift the code takes out first. */
  lemma ProbabilitiesAreShares(a: Analysis, logits: seq<real>, t: real, i: nat)
    requires a.Lawful() && t > 0.0 && i < |logits|
    ensures Partition(a, logits, t) > 0.0
    ensures Probabilities(a, logits, |logits|, t).value[i] == Share(a, logits, t, i)
  {
    hide *;
    var m, ws := MaxOf(logits), Weights(a, Shifted(logits, MaxOf(logits)), 1.0 / t);
    var c := a.exp(m / t);
    ProbabilityAt(a, logits, t, i, ws);
    ExpPositive(a, m / t);
    ShiftedPartition(a, logits, m, t);
    ShiftedWeight(a, logits[i], m, t);
    CommonFactor(c, ws[i], Sum(ws));
    ShareIs(a, logits, t, i, Times(c, ws[i]), Times(c, Sum(ws)));
  }

  // ----- Selection -----

  /** The first option with the largest score, and the best of the others. */
  ghost predicate Leads(zs: seq<real>, i: nat, j: nat) {
    BestTwo(zs, i, j) && forall k :: 0 <= k < i ==> zs[k] < zs[i]
  }

  /** There is always such a pair, and the stable ranking finds it. */
  lemma RankingLeads(zs: seq<real>)
    requires |zs| >= 2
    ensures Leads(zs, Leader(zs), RunnerUp(zs))
  {
    RankingBestTwo(zs);
    forall k | 0 <= k < Leader(zs) ensures zs[k] < zs[Leader(zs)] { LeaderIsAhead(zs, k); }
  }

  lemma LeadsOnce(zs: seq<real>, i: nat, j: nat)
    requires |zs| >= 2 && Leads(zs, i, j)
    ensures i == Leader(zs) && zs[j] == zs[RunnerUp(zs)]
  {
    RankingLeads(zs);
    BestTwoValues(zs, i, j, Leader(zs), RunnerUp(zs));
    assert !(i < Leader(zs)) && !(Leader(zs) < i);
  }

  // ----- The outcome -----

  /** The backend answered in scope, in time and with one score per option. */
  ghost predicate Answered(e: DecisionEngine, q: Request, run: Inference) {
    && (e.calibration.Some? ==> SchemaSha(q) in e.calibration.value.scopes)
    && !run.cancelledBefore && run.reply.Success? && !run.cancelledAfter
    && |run.reply.value.logits| == |q.options| && UsedTemperature(e) > 0.0
  }

  ghost function UsedTemperature(e: DecisionEngine): real {
    match e.calibration
    case None => 1.0
    case Some(fitted) => fitted.temperature
  }

  /** The level an option stands for. */
  ghost function LevelOf(c: Candidate): real {
    if c.value.Number? then c.value.number else 0.0
  }

  /** The mean level under the softmax of these scores. */
  ghost function MeanLevel(a: Analysis, zs: seq<real>, t: real, options: seq<Candidate>, k: nat): real
    requires t != 0.0 && k <= |zs| == |options|
  {
    if k == 0 then 0.0 else MeanLevel(a, zs, t, options, k - 1) + Share(a, zs, t, k - 1) * LevelOf(options[k - 1])
  }

  /** The value an accepted option i carries. */
  ghost predicate CarriesValue(a: Analysis, q: Request, zs: seq<real>, t: real, i: nat, value: Typed)
    requires t > 0.0 && i < |zs| == |q.options|
  {
    match q.kind
    case Choice => value == OptionId(q.options[i].id)
    case Boolean => q.options[i].value.Flag? && value == Truth(q.options[i].value.flag)
    case Score => value == Level(MeanLevel(a, zs, t, q.options, |zs|))
  }

  /** Everything a computed result says, for the leading option i and the runner-up j. */
  ghost predicate Says(a: Analysis, policy: Policy, q: Request, scores: Scores, t: real, i: nat, j: nat, b: Body)
    requires t > 0.0 && i < |scores.logits| && j < |scores.logits| && |scores.logits| == |q.options|
  {
    var zs, chosen := scores.logits, q.options[i];
    var probability, margin := Share(a, zs, t, i), Share(a, zs, t, i) - Share(a, zs, t, j);
    && b.Computed? && b.selected == chosen.id && b.probability == probability && b.margin == margin
    && b.inputTokens == scores.inputTokens
    && (b.reason == AbstainOption <==> chosen.abstain)
    && (b.reason == Accepted
        <==> !chosen.abstain && probability >= policy.minProbability && margin >= policy.minMargin)
    && (b.reason == Accepted ==> CarriesValue(a, q, zs, t, i, b.value))
    && (b.reason != Accepted ==> b.value == NoValue)
    && |b.distribution| == |q.options|
    && forall k :: 0 <= k < |q.options| ==> b.distribution[k] == Entry(q.options[k].id, Share(a, zs, t, k), zs[k])
  }

  lemma ExpectationIsMean(a: Analysis, zs: seq<real>, t: real, ps: seq<real>, options: seq<Candidate>)
    requires t > 0.0 && |zs| == |ps| == |options|
    requires forall k :: 0 <= k < |ps| ==> ps[k] == Share(a, zs, t, k)
    ensures Expectation(ps, options) == MeanLevel(a, zs, t, options, |zs|)
  {
    ExpectationFrom(a, zs, t, ps, options, 0);
    assert ps[0..] == ps && options[0..] == options;
  }

  lemma {:induction false} ExpectationFrom(a: Analysis, zs: seq<real>, t: real, ps: seq<real>,
                                           options: seq<Candidate>, k: nat)
    requires t > 0.0 && k <= |zs| == |ps| == |options|
    requires forall i :: 0 <= i < |ps| ==> ps[i] == Share(a, zs, t, i)
    ensures MeanLevel(a, zs, t, options, k) + Expectation(ps[k..], options[k..])
         == MeanLevel(a, zs, t, options, |zs|)
    decreases |zs| - k
  {
    hide Share;
    if k < |zs| {
      ExpectationFrom(a, zs, t, ps, options, k + 1);
      ExpectationHead(ps, options, k);
      MeanStep(a, zs, t, options, k);
      hide *;
    }
  }

  lemma MeanStep(a: Analysis, zs: seq<real>, t: real, options: seq<Candidate>, k: nat)
    requires t > 0.0 && k < |zs| == |options|
    ensures MeanLevel(a, zs, t, options, k + 1)
         == MeanLevel(a, zs, t, options, k) + Times(Share(a, zs, t, k), LevelOf(options[k]))
  {
    hide Share, LevelOf;
  }

  lemma ExpectationHead(ps: seq<real>, options: seq<Candidate>, k: nat)
    requires k < |ps| == |options|
    ensures Expectation(ps[k..], options[k..])
         == Times(ps[k], LevelOf(options[k])) + Expectation(ps[k + 1..], options[k + 1..])
  {
    assert ps[k..][1..] == ps[k + 1..] && options[k..][1..] == options[k + 1..];
  }

  lemma JudgeSays(a: Analysis, policy: Policy, q: Request, scores: Scores, t: real, i: nat, j: nat)
    requires a.Lawful() && t > 0.0 && IsRequest(q) && |scores.logits| == |q.options| >= 2
    requires Leads(scores.logits, i, j)
    ensures Says(a, policy, q, scores, t, i, j,
                 Judge(policy, q, Probabilities(a, scores.logits, |scores.logits|, t).value, scores))
  {
    hide Probabilities, Share, Ranking, Expectation, MeanLevel, IsRequest;
    var zs := scores.logits;
    var ps := Probabilities(a, zs, |zs|, t).value;
    forall k | 0 <= k < |zs| ensures ps[k] == Share(a, zs, t, k) { ProbabilitiesAreShares(a, zs, t, k); }
    SameProbabilityRanking(a, zs, t);
    LeadsOnce(zs, i, j);
    ProbabilitiesKeepOrder(a, zs, t, j, RunnerUp(zs));
    ProbabilitiesKeepOrder(a, zs, t, RunnerUp(zs), j);
    ExpectationIsMean(a, zs, t, ps, q.options);
    ChosenFlag(q, i);
  }

  lemma ChosenFlag(q: Request, i: nat)
    requires IsRequest(q) && i < |q.options|
    ensures q.kind == Boolean ==> q.options[i].value.Flag?
    ensures q.kind == Score ==> q.options[i].value.Number?
  {
    var raw :| Parse(raw) == Success(q);
    assert GoodOption(q.kind, raw.options[i]);
  }

  /** Every decision on an answered request, whatever backend, calibration and policy. */
  lemma EvaluateSays(a: Analysis, e: DecisionEngine, q: Request, run: Inference, i: nat, j: nat)
    requires a.Lawful() && IsRequest(q) && |q.options| >= 2 && Answered(e, q, run)
    requires Leads(run.reply.value.logits, i, j)
    ensures Says(a, e.policy, q, run.reply.value, UsedTemperature(e), i, j, Evaluate(a, e, q, run))
  {
    JudgeSays(a, e.policy, q, run.reply.value, UsedTemperature(e), i, j);
    hide Says, Judge, Leads, IsRequest, SchemaSha;
  }

  /** Which failure is reported when the request was not answered: the first that applies. */
  lemma EvaluateFails(a: Analysis, e: DecisionEngine, q: Request, run: Inference)
    requires a.Lawful() && |q.options| >= 2 && !Answered(e, q, run)
    ensures Evaluate(a, e, q, run).Failed?
    ensures var code := Evaluate(a, e, q, run).code;
      && (e.calibration.Some? && SchemaSha(q) !in e.calibration.value.scopes ==> code == CalibrationOutOfScope)
      && (!(e.calibration.Some? && SchemaSha(q) !in e.calibration.value.scopes) ==>
            && (run.cancelledBefore ==> code == InferenceCancelled)
            && (!run.cancelledBefore && run.reply.Failure? ==> code == run.reply.error)
            && (!run.cancelledBefore && run.reply.Success? && run.cancelledAfter ==> code == InferenceCancelled)
            && (!run.cancelledBefore && run.reply.Success? && !run.cancelledAfter ==> code == InvalidScores))
  {
    hide Judge, SchemaSha;
  }

  /** A decision names its request, its inputs and its policy; a request that does not parse names none. */
  lemma DecideSays(a: Analysis, e: DecisionEngine, raw: RawRequest, run: Inference)
    requires a.Lawful()
    ensures var d := Decide(a, e, raw, run);
      && d.model == e.model && d.policy == e.policy && d.calibration == e.calibration
      && (Parse(raw).Failure? ==> d.id == None && d.input == None && d.body == Failed(InvalidRequest))
      && (Parse(raw).Success? ==>
            && d.id == Some(raw.id) && d.input == Some(InputSha(Parse(raw).value))
            && |Parse(raw).value.options| >= 2 && d.body == Evaluate(a, e, Parse(raw).value, run))
  {
    hide Evaluate, InputSha, GoodText, GoodCandidates, GoodOption;
  }

  // ----- The mean level lies between the levels -----

  lemma ShareNonNegative(a: Analysis, zs: seq<real>, t: real, i: nat)
    requires a.Lawful() && t > 0.0 && i < |zs|
    ensures Share(a, zs, t, i) >= 0.0
  {
    hide *;
    ProbabilitiesAreShares(a, zs, t, i);
    ProbabilitiesAreADistribution(a, zs, t);
  }

  lemma {:induction false} MeanWithin(a: Analysis, zs: seq<real>, t: real, options: seq<Candidate>, k: nat, lo: real,
                                      hi: real)
    requires a.Lawful() && t > 0.0 && k <= |zs| == |options|
    requires forall i :: 0 <= i < |options| ==> lo <= LevelOf(options[i]) <= hi
    ensures Times(TotalShare(a, zs, t, k), lo) <= MeanLevel(a, zs, t, options, k) <= Times(TotalShare(a, zs, t, k), hi)
  {
    if k == 0 {
      hide Share;
    } else {
      assert TotalShare(a, zs, t, k) == TotalShare(a, zs, t, k - 1) + Share(a, zs, t, k - 1);
      hide *;
      MeanWithin(a, zs, t, options, k - 1, lo, hi);
      ShareNonNegative(a, zs, t, k - 1);
      MeanStep(a, zs, t, options, k - 1);
      WithinStep(Share(a, zs, t, k - 1), LevelOf(options[k - 1]), TotalShare(a, zs, t, k - 1), lo, hi);
    }
  }

  lemma WithinStep(p: real, x: real, s: real, lo: real, hi: real)
    requires p >= 0.0 && lo <= x <= hi
    ensures Times(s + p, lo) <= Times(s, lo) + Times(p, x) && Times(s, hi) + Times(p, x) <= Times(s + p, hi)
  {
    MulLeq(p, lo, x);
    MulLeq(p, x, hi);
  }

  ghost function TotalShare(a: Analysis, zs: seq<real>, t: real, k: nat): real
    requires t != 0.0 && k <= |zs|
  {
    if k == 0 then 0.0 else TotalShare(a, zs, t, k - 1) + Share(a, zs, t, k - 1)
  }

  lemma {:induction false} SumOfShares(a: Analysis, zs: seq<real>, t: real, k: nat)
    requires a.Lawful() && t > 0.0 && k <= |zs| && zs != []
    ensures TotalShare(a, zs, t, k) == Sum(Probabilities(a, zs, |zs|, t).value[..k])
  {
    var ps := Probabilities(a, zs, |zs|, t).value;
    hide Probabilities, Share;
    if k > 0 {
      SumOfShares(a, zs, t, k - 1);
      ProbabilitiesAreShares(a, zs, t, k - 1);
      assert ps[..k] == ps[..k - 1] + [ps[k - 1]];
      SumAppend(ps[..k - 1], ps[k - 1]);
    }
  }

  /** An accepted score lies between the lowest and the highest level. */
  lemma ScoreWithinLevels(a: Analysis, zs: seq<real>, t: real, options: seq<Candidate>, lo: real, hi: real)
    requires a.Lawful() && t > 0.0 && |zs| == |options| && zs != []
    requires forall i :: 0 <= i < |options| ==> lo <= LevelOf(options[i]) <= hi
    ensures lo <= MeanLevel(a, zs, t, options, |zs|) <= hi
  {
    MeanWithin(a, zs, t, options, |zs|, lo, hi);
    SumOfShares(a, zs, t, |zs|);
    ProbabilitiesAreADistribution(a, zs, t);
    var ps := Probabilities(a, zs, |zs|, t).value;
    assert ps[..|zs|] == ps;
    hide Probabilities, MeanLevel, TotalShare;
    assert TotalShare(a, zs, t, |zs|) == 1.0;
    assert Times(1.0, lo) == lo && Times(1.0, hi) == hi;
  }
}
