/**
 `DecisionEngine.decide`: stable ranking of the softmax, thresholds and the typed value.  The backend
 and the cancellation signal are arguments, so every statement holds for any backend.
 */
module Engine {
  import opened Elementary
  import opened Outcomes
  import opened Softmax
  import opened Contracts

  datatype Policy = Policy(id: string, minProbability: real, minMargin: real)

  /** A fitted calibration: its temperature and the schema digests it was fitted on. */
  datatype Fitted = Fitted(temperature: real, scopes: set<Digest>)

  type Identity = map<string, string>

  datatype DecisionEngine = DecisionEngine(model: Identity, policy: Policy, calibration: Option<Fitted>)

  datatype Scores = Scores(logits: seq<real>, inputTokens: int)

  /** One inference: what the backend returned, and whether cancellation was seen before or after it. */
  datatype Inference = Inference(cancelledBefore: bool, reply: Result<Scores, Code>, cancelledAfter: bool)

  datatype Entry = Entry(id: string, probability: real, logit: real)

  datatype Typed = NoValue | OptionId(id: string) | Truth(truth: bool) | Level(level: real)

  datatype Reason = Accepted | BelowThreshold | AbstainOption

  datatype Body =
    | Computed(reason: Reason, selected: string, value: Typed, probability: real, margin: real,
               distribution: seq<Entry>, inputTokens: int)
    | Failed(code: Code)

  datatype Decision = Decision(
    id: Option<string>, input: Option<Digest>, model: Identity, policy: Policy, calibration: Option<Fitted>, body: Body)

  // ----- Stable descending ranking -----

  /** `i` goes behind everything that is not smaller: a later index never overtakes an equal one. */
  function Place(ps: seq<real>, i: nat, order: seq<nat>): (r: seq<nat>)
    requires i < |ps| && forall k :: 0 <= k < |order| ==> order[k] < |ps|
    ensures |r| == |order| + 1 && forall k :: 0 <= k < |r| ==> r[k] < |ps|
  {
    if order == [] then [i]
    else if ps[order[0]] >= ps[i] then [order[0]] + Place(ps, i, order[1..])
    else [i] + order
  }

  /** `sorted(range(n), key=ps.__getitem__, reverse=True)`, on the first n indices. */
  function Ranking(ps: seq<real>, n: nat): (order: seq<nat>)
    requires n <= |ps|
    ensures |order| == n && forall k :: 0 <= k < n ==> order[k] < |ps|
  {
    if n == 0 then [] else Place(ps, n - 1, Ranking(ps, n - 1))
  }

  lemma {:induction false} PlaceKeeps(ps: seq<real>, i: nat, order: seq<nat>)
    requires i < |ps| && forall k :: 0 <= k < |order| ==> order[k] < |ps|
    ensures forall x :: x in Place(ps, i, order) <==> x == i || x in order
  {
    if order != [] && ps[order[0]] >= ps[i] {
      PlaceKeeps(ps, i, order[1..]);
      assert order == [order[0]] + order[1..];
    }
  }

  /** Position j may follow position i: a larger key, or an equal key and a larger index. */
  ghost predicate Ahead(ps: seq<real>, i: nat, j: nat)
    requires i < |ps| && j < |ps|
  {
    ps[i] > ps[j] || (ps[i] == ps[j] && i < j)
  }

  ghost predicate Ranked(ps: seq<real>, order: seq<nat>)
    requires forall k :: 0 <= k < |order| ==> order[k] < |ps|
  {
    forall k, l :: 0 <= k < l < |order| ==> Ahead(ps, order[k], order[l])
  }

  lemma {:induction false} PlaceRanks(ps: seq<real>, i: nat, order: seq<nat>)
    requires i < |ps| && forall k :: 0 <= k < |order| ==> order[k] < i
    requires Ranked(ps, order)
    ensures Ranked(ps, Place(ps, i, order))
  {
    PlaceKeeps(ps, i, order);
    if order != [] && ps[order[0]] >= ps[i] {
      PlaceRanks(ps, i, order[1..]);
      PlaceKeeps(ps, i, order[1..]);
      var rest := Place(ps, i, order[1..]);
      assert order == [order[0]] + order[1..];
      forall l | 0 <= l < |rest| ensures Ahead(ps, order[0], rest[l]) {
        assert rest[l] in rest;
        if rest[l] != i { var k :| 0 <= k < |order[1..]| && order[1..][k] == rest[l]; assert order[k + 1] == rest[l]; }
      }
    }
  }

  /** The ranking is complete and orders by key, equal keys by position: Python's stable reverse sort. */
  lemma {:induction false} RankingRanks(ps: seq<real>, n: nat)
    requires n <= |ps|
    ensures Ranked(ps, Ranking(ps, n))
    ensures forall x :: x in Ranking(ps, n) <==> 0 <= x < n
  {
    if n > 0 {
      RankingRanks(ps, n - 1);
      var before := Ranking(ps, n - 1);
      forall k | 0 <= k < |before| ensures before[k] < n - 1 { assert before[k] in before; }
      PlaceRanks(ps, n - 1, before);
      PlaceKeeps(ps, n - 1, before);
    }
  }

  lemma {:induction false} SamePlace(ps: seq<real>, qs: seq<real>, i: nat, order: seq<nat>)
    requires |ps| == |qs| && i < |ps| && forall k :: 0 <= k < |order| ==> order[k] < |ps|
    requires forall j, k :: 0 <= j < |ps| && 0 <= k < |ps| ==> (ps[j] >= ps[k] <==> qs[j] >= qs[k])
    ensures Place(ps, i, order) == Place(qs, i, order)
  {
    if order != [] { SamePlace(ps, qs, i, order[1..]); }
  }

  /** The ranking depends only on how the keys compare. */
  lemma {:induction false} SameRanking(ps: seq<real>, qs: seq<real>, n: nat)
    requires |ps| == |qs| && n <= |ps|
    requires forall j, k :: 0 <= j < |ps| && 0 <= k < |ps| ==> (ps[j] >= ps[k] <==> qs[j] >= qs[k])
    ensures Ranking(ps, n) == Ranking(qs, n)
  {
    if n > 0 {
      SameRanking(ps, qs, n - 1);
      SamePlace(ps, qs, n - 1, Ranking(ps, n - 1));
    }
  }

  // ----- The decision -----

  function Temperature(calibration: Option<Fitted>): real {
    if calibration.Some? then calibration.value.temperature else 1.0
  }

  function Expectation(ps: seq<real>, options: seq<Candidate>): real
    requires |ps| == |options|
  {
    if ps == [] then 0.0
    else
      ps[0] * (if options[0].value.Number? then options[0].value.number else 0.0)
      + Expectation(ps[1..], options[1..])
  }

  function TypedValue(q: Request, ps: seq<real>, chosen: nat): Typed
    requires |ps| == |q.options| && chosen < |q.options|
  {
    match q.kind
    case Choice => OptionId(q.options[chosen].id)
    case Boolean => (match q.options[chosen].value case Flag(b) => Truth(b) case _ => NoValue)
    case Score => Level(Expectation(ps, q.options))
  }

  function Distribution(q: Request, ps: seq<real>, logits: seq<real>): (d: seq<Entry>)
    requires |ps| == |logits| == |q.options|
    ensures |d| == |ps| && forall i :: 0 <= i < |d| ==> d[i] == Entry(q.options[i].id, ps[i], logits[i])
  {
    seq(|ps|, i requires 0 <= i < |ps| => Entry(q.options[i].id, ps[i], logits[i]))
  }

  function Judge(policy: Policy, q: Request, ps: seq<real>, scores: Scores): (b: Body)
    requires |ps| == |scores.logits| == |q.options| >= 2
    ensures b.Computed? && b.inputTokens == scores.inputTokens
    ensures b.distribution == Distribution(q, ps, scores.logits)
  {
    var order := Ranking(ps, |ps|);
    var chosen := q.options[order[0]];
    var probability := ps[order[0]];
    var margin := probability - ps[order[1]];
    var reason :=
      if chosen.abstain then AbstainOption
      else if probability < policy.minProbability || margin < policy.minMargin then BelowThreshold
      else Accepted;
    var value := if reason == Accepted then TypedValue(q, ps, order[0]) else NoValue;
    Computed(reason, chosen.id, value, probability, margin, Distribution(q, ps, scores.logits), scores.inputTokens)
  }

  /** Everything between parsing and the result, in the order of the code. */
  function Evaluate(a: Analysis, e: DecisionEngine, q: Request, run: Inference): (b: Body)
    requires a.Lawful() && |q.options| >= 2
  {
    if e.calibration.Some? && SchemaSha(q) !in e.calibration.value.scopes then Failed(CalibrationOutOfScope)
    else if run.cancelledBefore then Failed(InferenceCancelled)
    else if run.reply.Failure? then Failed(run.reply.error)
    else if run.cancelledAfter then Failed(InferenceCancelled)
    else
      var scores := run.reply.value;
      var ps := Probabilities(a, scores.logits, |q.options|, Temperature(e.calibration));
      if ps.Failure? then Failed(ps.error) else Judge(e.policy, q, ps.value, scores)
  }

  function Decide(a: Analysis, e: DecisionEngine, raw: RawRequest, run: Inference): Decision
    requires a.Lawful()
  {
    var parsed := Parse(raw);
    if parsed.Failure?
    then Decision(None, None, e.model, e.policy, e.calibration, Failed(parsed.error))
    else
      var q := parsed.value;
      Decision(Some(q.id), Some(InputSha(q)), e.model, e.policy, e.calibration, Evaluate(a, e, q, run))
  }

  // ----- Temperature never moves the selection -----

  lemma SameProbabilityRanking(a: Analysis, logits: seq<real>, t: real)
    requires a.Lawful() && logits != [] && t > 0.0
    ensures Ranking(Probabilities(a, logits, |logits|, t).value, |logits|) == Ranking(logits, |logits|)
  {
    var ps := Probabilities(a, logits, |logits|, t).value;
    forall j, k | 0 <= j < |ps| && 0 <= k < |ps| ensures ps[j] >= ps[k] <==> logits[j] >= logits[k] {
      ProbabilitiesKeepOrder(a, logits, t, j, k);
    }
    SameRanking(ps, logits, |ps|);
  }

  /**
   Fitting a temperature changes no selected option, ties included, and no failure: on a request in
   scope the calibrated engine fails exactly when the raw one does and otherwise selects the same id.
   */
  lemma CalibrationKeepsSelection(a: Analysis, raw: DecisionEngine, fitted: Fitted, q: Request, run: Inference)
    requires a.Lawful() && |q.options| >= 2 && fitted.temperature > 0.0
    requires raw.calibration == None && SchemaSha(q) in fitted.scopes
    ensures var b, c := Evaluate(a, raw, q, run), Evaluate(a, raw.(calibration := Some(fitted)), q, run);
      if b.Failed? then c == b else c.Computed? && c.selected == b.selected
  {
    if !run.cancelledBefore && run.reply.Success? && !run.cancelledAfter && |run.reply.value.logits| == |q.options| {
      SameProbabilityRanking(a, run.reply.value.logits, 1.0);
      SameProbabilityRanking(a, run.reply.value.logits, fitted.temperature);
    }
  }

  /** After centring the leader sits at 0 and everything else at or below it. */
  lemma LeaderIsTop(logits: seq<real>)
    requires |logits| >= 2
    ensures Shifted(logits, MaxOf(logits))[Ranking(logits, |logits|)[0]] == 0.0
  {
    RankingRanks(logits, |logits|);
    var order := Ranking(logits, |logits|);
    var top :| 0 <= top < |logits| && logits[top] == MaxOf(logits);
    assert top in order;
    var k :| 0 <= k < |order| && order[k] == top;
    if k > 0 { assert Ahead(logits, order[0], order[k]); }
  }

  lemma WeightOfLeader(a: Analysis, beta: real)
    requires a.Lawful()
    ensures Weight(a, 0.0, beta) == 1.0
  {
    var product := 0.0 * beta;
    assert product == 0.0;
    ExpZero(a);
  }

  /** A smaller inverse temperature raises every weight, up to the leader's 1. */
  lemma FlatterWeight(a: Analysis, z: real, cold: real, warm: real)
    requires a.Lawful() && z <= 0.0 && 0.0 < warm <= cold
    ensures 0.0 < Weight(a, z, cold) <= Weight(a, z, warm) <= 1.0
  {
    MulLeq(-z, warm, cold);
    MulLeq(warm, z, 0.0);
    var x, y := z * cold, z * warm;
    ExpPositive(a, x);
    ExpOrder(a, x, y);
    ExpOrder(a, y, 0.0);
    ExpZero(a);
  }

  lemma FlatterTotal(a: Analysis, zs: seq<real>, cold: real, warm: real)
    requires a.Lawful() && zs != [] && 0.0 < warm <= cold && forall i :: 0 <= i < |zs| ==> zs[i] <= 0.0
    ensures 0.0 < Sum(Weights(a, zs, cold)) <= Sum(Weights(a, zs, warm))
  {
    WeightsPositive(a, zs, cold);
    forall i | 0 <= i < |zs| ensures Weights(a, zs, cold)[i] <= Weights(a, zs, warm)[i] {
      FlatterWeight(a, zs[i], cold, warm);
    }
    SumMonotone(Weights(a, zs, cold), Weights(a, zs, warm));
  }

  lemma InverseOrder(x: real, y: real)
    requires 0.0 < x <= y
    ensures 0.0 < 1.0 / y <= 1.0 / x
  {
    var u, v := 1.0 / x, 1.0 / y;
    assert u * x == 1.0 && v * y == 1.0;
    DivPositive(1.0, x);
    DivPositive(1.0, y);
    if u < v { MulLess(x, u, v); MulLeq(v, x, y); }
  }

  lemma ShrinkingShare(v: real, w: real, s: real, t: real)
    requires 0.0 <= v <= w && 0.0 < s <= t
    ensures v / t <= w / s
  {
    var p, q := v / t, w / s;
    assert p * t == v && q * s == w;
    if q < p {
      if q < 0.0 { MulLess(s, q, 0.0); }
      MulLess(t, q, p);
      MulLeq(q, s, t);
    }
  }

  /** 1/S and (1 - w)/S both fall when the partition sum S and the runner-up's weight w rise. */
  lemma ShrinkingLead(w: real, v: real, s: real, t: real)
    requires w <= v <= 1.0 && 0.0 < s <= t
    ensures 1.0 / t <= 1.0 / s && 1.0 / t - v / t <= 1.0 / s - w / s
  {
    ShrinkingShare(1.0, 1.0, s, t);
    ShrinkingShare(1.0 - v, 1.0 - w, s, t);
    DivSub(1.0, v, t);
    DivSub(1.0, w, s);
  }

  lemma DivSub(x: real, y: real, c: real)
    requires c > 0.0
    ensures (x - y) / c == x / c - y / c
  {
  }

  ghost predicate LessSure(order: seq<nat>, ps: seq<real>, qs: seq<real>)
    requires |order| >= 2 && |ps| == |qs| && order[0] < |ps| && order[1] < |ps|
  {
    qs[order[0]] <= ps[order[0]] && qs[order[0]] - qs[order[1]] <= ps[order[0]] - ps[order[1]]
  }

  lemma FlatterLead(a: Analysis, zs: seq<real>, order: seq<nat>, cold: real, warm: real)
    requires a.Lawful() && 0.0 < warm <= cold && forall i :: 0 <= i < |zs| ==> zs[i] <= 0.0
    requires |order| >= 2 && order[0] < |zs| && order[1] < |zs| && zs[order[0]] == 0.0
    ensures 0.0 < Sum(Weights(a, zs, cold)) && 0.0 < Sum(Weights(a, zs, warm))
    ensures LessSure(order, Scaled(Weights(a, zs, cold), Sum(Weights(a, zs, cold))),
                     Scaled(Weights(a, zs, warm), Sum(Weights(a, zs, warm))))
  {
    FlatterTotal(a, zs, cold, warm);
    FlatterWeight(a, zs[order[1]], cold, warm);
    WeightOfLeader(a, cold);
    WeightOfLeader(a, warm);
    ShrinkingLead(Weight(a, zs[order[1]], cold), Weight(a, zs[order[1]], warm),
                  Sum(Weights(a, zs, cold)), Sum(Weights(a, zs, warm)));
  }

  /** Raising the temperature lowers both the leading probability and the margin over the runner-up. */
  lemma HotterIsLessSure(a: Analysis, logits: seq<real>, cool: real, hot: real)
    requires a.Lawful() && |logits| >= 2 && 0.0 < cool <= hot
    ensures LessSure(Ranking(logits, |logits|), Probabilities(a, logits, |logits|, cool).value,
                     Probabilities(a, logits, |logits|, hot).value)
  {
    hide Sum, Weights, Ranking;
    var zs := Shifted(logits, MaxOf(logits));
    var cold, warm := 1.0 / cool, 1.0 / hot;
    LeaderIsTop(logits);
    InverseOrder(cool, hot);
    FlatterLead(a, zs, Ranking(logits, |logits|), cold, warm);
    ProbabilitiesAt(a, logits, cool, cold);
    ProbabilitiesAt(a, logits, hot, warm);
  }

  lemma ProbabilitiesAt(a: Analysis, logits: seq<real>, t: real, beta: real)
    requires a.Lawful() && logits != [] && t > 0.0 && beta == 1.0 / t
    ensures Sum(Weights(a, Shifted(logits, MaxOf(logits)), beta)) > 0.0
    ensures Probabilities(a, logits, |logits|, t).value
         == Scaled(Weights(a, Shifted(logits, MaxOf(logits)), beta),
                   Sum(Weights(a, Shifted(logits, MaxOf(logits)), beta)))
  {
    WeightsPositive(a, Shifted(logits, MaxOf(logits)), beta);
  }

  lemma LessSureNeverAccepts(policy: Policy, q: Request, ps: seq<real>, qs: seq<real>, scores: Scores)
    requires |ps| == |qs| == |scores.logits| == |q.options| >= 2
    requires Ranking(ps, |ps|) == Ranking(qs, |qs|) && LessSure(Ranking(ps, |ps|), ps, qs)
    ensures var b, c := Judge(policy, q, ps, scores), Judge(policy, q, qs, scores);
      && c.selected == b.selected && c.probability <= b.probability && c.margin <= b.margin
      && (c.reason == Accepted ==> b.reason == Accepted)
  {
  }

  /** So a higher temperature never turns an abstention into an acceptance. */
  lemma HotterNeverAccepts(a: Analysis, e: DecisionEngine, cool: Fitted, hot: Fitted, q: Request, run: Inference)
    requires a.Lawful() && |q.options| >= 2 && 0.0 < cool.temperature <= hot.temperature
    requires cool.scopes == hot.scopes
    ensures var b := Evaluate(a, e.(calibration := Some(cool)), q, run);
      var c := Evaluate(a, e.(calibration := Some(hot)), q, run);
      if b.Failed? then c == b
      else c.Computed? && c.selected == b.selected && c.probability <= b.probability && c.margin <= b.margin
           && (c.reason == Accepted ==> b.reason == Accepted)
  {
    if run.reply.Success? && |run.reply.value.logits| == |q.options| {
      var logits := run.reply.value.logits;
      SameProbabilityRanking(a, logits, cool.temperature);
      SameProbabilityRanking(a, logits, hot.temperature);
      HotterIsLessSure(a, logits, cool.temperature, hot.temperature);
      LessSureNeverAccepts(e.policy, q, Probabilities(a, logits, |logits|, cool.temperature).value,
                           Probabilities(a, logits, |logits|, hot.temperature).value, run.reply.value);
    }
  }
}
