/**
 Scalar temperature scaling (`fit_temperature`).  `Loss` and `Slope` are the mean negative
 log-likelihood and its derivative as functions of the inverse temperature.  The tangent inequality
 of the loss is proved from the three laws of `Elementary`; monotonicity of the slope, the
 correctness of every exit of the optimiser and the unreachability of its final guard follow.
 */
module Calibration {
  import opened Elementary
  import opened Optimizer
  import opened Outcomes
  import opened Softmax

  /** The scores of one labelled request and the index of its gold option. */
  datatype Example = Example(logits: seq<real>, gold: int)

  datatype Fit = Fit(temperature: real, nllBefore: real, nllAfter: real, atBound: bool, examples: nat)

  datatype FitError = EmptySet | BadScores | BadTarget | OutOfRange | OptimizerIncreasedLoss

  const LIMIT := 1.0e6

  /** The first of the checks made on one example that fails. */
  function Defect(e: Example): Option<FitError> {
    if e.logits == [] then Some(BadScores)
    else if |e.logits| < 2 || !(0 <= e.gold < |e.logits|) then Some(BadTarget)
    else if exists i :: 0 <= i < |e.logits| && (e.logits[i] > LIMIT || e.logits[i] < -LIMIT) then Some(OutOfRange)
    else None
  }

  function FirstDefect(examples: seq<Example>): Option<FitError> {
    if examples == [] then None
    else if Defect(examples[0]).Some? then Defect(examples[0])
    else FirstDefect(examples[1..])
  }

  function Centered(e: Example): Example
    requires e.logits != []
  {
    Example(Shifted(e.logits, MaxOf(e.logits)), e.gold)
  }

  /** What centering leaves: every score in [-2 * LIMIT, 0] and a gold index in range. */
  ghost predicate Bounded(e: Example) {
    && 0 <= e.gold < |e.logits|
    && forall i :: 0 <= i < |e.logits| ==> -2.0 * LIMIT <= e.logits[i] <= 0.0
  }

  ghost predicate AllBounded(examples: seq<Example>) {
    forall i :: 0 <= i < |examples| ==> Bounded(examples[i])
  }

  function Dot(ws: seq<real>, zs: seq<real>): real
    requires |ws| == |zs|
  {
    if ws == [] then 0.0 else ws[0] * zs[0] + Dot(ws[1..], zs[1..])
  }

  /** Negative log-likelihood of the gold option at inverse temperature `beta`. */
  function Nll(a: Analysis, e: Example, beta: real): real
    requires 0 <= e.gold < |e.logits|
  {
    a.log(Sum(Weights(a, e.logits, beta))) - beta * e.logits[e.gold]
  }

  /** The mean score under the softmax minus the gold score: the derivative of `Nll`. */
  function NllSlope(a: Analysis, e: Example, beta: real): real
    requires a.Lawful() && 0 <= e.gold < |e.logits|
  {
    var ws := Weights(a, e.logits, beta);
    WeightsPositive(a, e.logits, beta);
    Dot(ws, e.logits) / Sum(ws) - e.logits[e.gold]
  }

  ghost predicate WellLabelled(examples: seq<Example>) {
    forall i :: 0 <= i < |examples| ==> 0 <= examples[i].gold < |examples[i].logits|
  }

  function Losses(a: Analysis, examples: seq<Example>, beta: real): (ls: seq<real>)
    requires WellLabelled(examples)
    ensures |ls| == |examples|
    ensures forall i :: 0 <= i < |ls| ==> ls[i] == Nll(a, examples[i], beta)
  {
    seq(|examples|, i requires 0 <= i < |examples| => Nll(a, examples[i], beta))
  }

  function Slopes(a: Analysis, examples: seq<Example>, beta: real): (gs: seq<real>)
    requires a.Lawful() && WellLabelled(examples)
    ensures |gs| == |examples|
    ensures forall i :: 0 <= i < |gs| ==> gs[i] == NllSlope(a, examples[i], beta)
  {
    seq(|examples|, i requires 0 <= i < |examples| => NllSlope(a, examples[i], beta))
  }

  function Loss(a: Analysis, examples: seq<Example>, beta: real): real
    requires examples != [] && WellLabelled(examples)
  {
    Sum(Losses(a, examples, beta)) / |examples| as real
  }

  function Slope(a: Analysis, examples: seq<Example>, beta: real): real
    requires a.Lawful() && examples != [] && WellLabelled(examples)
  {
    Sum(Slopes(a, examples, beta)) / |examples| as real
  }

  // ----- The tangent inequality -----

  /** The tangent of a partition sum s with derivative d, scaled by f and recentred at m. */
  function Line(f: real, m: real, h: real, s: real, d: real): real {
    f * ((1.0 - m) * s + h * d)
  }

  lemma LinesAdd(f: real, m: real, h: real, s: real, d: real, s': real, d': real)
    ensures Line(f, m, h, s + s', d + d') == Line(f, m, h, s, d) + Line(f, m, h, s', d')
  {
    var u, v := (1.0 - m) * s + h * d, (1.0 - m) * s' + h * d';
    assert (1.0 - m) * (s + s') + h * (d + d') == u + v;
  }

  /** exp(z*y) lies above its tangent at z*x, recentred at m. */
  lemma TermTangent(a: Analysis, z: real, x: real, y: real, h: real, m: real)
    requires a.Lawful() && y == x + h
    ensures Weight(a, z, y) >= Line(a.exp(m), m, h, Weight(a, z, x), Weight(a, z, x) * z)
  {
    var p, q := z * x, z * y;
    var d := q - p - m;
    assert a.AddLaw(p, m) && a.AddLaw(p + m, d) && a.TangentLaw(d);
    assert p + m + d == q;
    ExpPositive(a, p);
    ExpPositive(a, m);
    var e, f := a.exp(p), a.exp(m);
    assert e * f > 0.0;
    MulLeq(e * f, 1.0 + d, a.exp(d));
    assert d == h * z - m;
    assert e * f * (1.0 + d) == f * ((1.0 - m) * e + h * (e * z));
  }

  lemma {:induction false} SumTangent(a: Analysis, zs: seq<real>, x: real, y: real, h: real, m: real)
    requires a.Lawful() && y == x + h
    ensures Sum(Weights(a, zs, y)) >= Line(a.exp(m), m, h, Sum(Weights(a, zs, x)), Dot(Weights(a, zs, x), zs))
  {
    if zs == [] {
    } else {
      TermTangent(a, zs[0], x, y, h, m);
      SumTangent(a, zs[1..], x, y, h, m);
      WeightsTail(a, zs, x);
      WeightsTail(a, zs, y);
      LinesAdd(a.exp(m), m, h, Weight(a, zs[0], x), Weight(a, zs[0], x) * zs[0],
               Sum(Weights(a, zs[1..], x)), Dot(Weights(a, zs[1..], x), zs[1..]));
      hide Line, Weight;
    }
  }

  /** log of the partition sum lies above each of its tangents: Jensen's inequality for exp. */
  lemma LogSumTangent(a: Analysis, zs: seq<real>, x: real, y: real, h: real)
    requires a.Lawful() && y == x + h && zs != []
    ensures Sum(Weights(a, zs, x)) > 0.0
    ensures a.log(Sum(Weights(a, zs, y)))
         >= a.log(Sum(Weights(a, zs, x))) + h * (Dot(Weights(a, zs, x), zs) / Sum(Weights(a, zs, x)))
  {
    var s, t, d := Sum(Weights(a, zs, x)), Sum(Weights(a, zs, y)), Dot(Weights(a, zs, x), zs);
    WeightsPositive(a, zs, x);
    WeightsPositive(a, zs, y);
    var mean := d / s;
    var m := h * mean;
    assert d == mean * s;
    ExpPositive(a, m);
    var f := a.exp(m);
    var lower := f * s;
    assert lower <= t by {
      SumTangent(a, zs, x, y, h, m);
      TangentAtMean(f, m, h, mean, s, d);
    }
    LogMul(a, f, s, lower);
    LogExp(a, m);
    LogOrder(a, lower, t);
  }

  lemma TangentAtMean(f: real, m: real, h: real, mean: real, s: real, d: real)
    requires m == h * mean && d == mean * s
    ensures Line(f, m, h, s, d) == f * s
  {
    assert h * (mean * s) == m * s;
  }

  lemma NllTangent(a: Analysis, e: Example, x: real, y: real, h: real)
    requires a.Lawful() && 0 <= e.gold < |e.logits| && y == x + h
    ensures Nll(a, e, y) >= Nll(a, e, x) + h * NllSlope(a, e, x)
  {
    LogSumTangent(a, e.logits, x, y, h);
    var mean, g := Dot(Weights(a, e.logits, x), e.logits) / Sum(Weights(a, e.logits, x)), e.logits[e.gold];
    assert y * g == x * g + h * g;
    assert NllSlope(a, e, x) == mean - g;
  }

  lemma {:induction false} SumOfTangents(u: seq<real>, p: seq<real>, u': seq<real>, h: real)
    requires |u| == |p| == |u'| && forall i :: 0 <= i < |u| ==> u'[i] >= u[i] + h * p[i]
    ensures Sum(u') >= Sum(u) + h * Sum(p)
  {
    if u != [] {
      SumOfTangents(u[1..], p[1..], u'[1..], h);
      assert h * (p[0] + Sum(p[1..])) == h * p[0] + h * Sum(p[1..]);
    }
  }

  lemma LossesTangent(a: Analysis, examples: seq<Example>, x: real, y: real, h: real)
    requires a.Lawful() && WellLabelled(examples) && y == x + h
    ensures Sum(Losses(a, examples, y)) >= Sum(Losses(a, examples, x)) + h * Sum(Slopes(a, examples, x))
  {
    hide Nll, NllSlope, Sum;
    var u, p, u' := Losses(a, examples, x), Slopes(a, examples, x), Losses(a, examples, y);
    forall i | 0 <= i < |examples| ensures u'[i] >= u[i] + h * p[i] {
      NllTangent(a, examples[i], x, y, h);
    }
    SumOfTangents(u, p, u', h);
  }

  /** The mean loss is convex: it lies above each of its tangents. */
  lemma LossTangent(a: Analysis, examples: seq<Example>, x: real, y: real, h: real)
    requires a.Lawful() && examples != [] && WellLabelled(examples) && y == x + h
    ensures Loss(a, examples, y) >= Loss(a, examples, x) + h * Slope(a, examples, x)
  {
    hide Sum, Losses, Slopes;
    LossesTangent(a, examples, x, y, h);
    var n := |examples| as real;
    MeanTangent(Sum(Losses(a, examples, x)), h, Sum(Slopes(a, examples, x)), Sum(Losses(a, examples, y)), n);
  }

  lemma MeanTangent(u: real, h: real, s: real, u': real, n: real)
    requires n > 0.0 && u' >= u + h * s
    ensures u' / n >= u / n + h * (s / n)
  {
    var p, q, r := u / n, s / n, u' / n;
    assert u == p * n && s == q * n && u' == r * n;
    assert u + h * s == (p + h * q) * n;
    if r < p + h * q { MulLess(n, r, p + h * q); }
  }

  // ----- The slope is bounded, so a narrow bracket fixes the loss -----

  lemma {:induction false} DotBounds(ws: seq<real>, zs: seq<real>, r: real)
    requires |ws| == |zs|
    requires forall i :: 0 <= i < |ws| ==> ws[i] > 0.0 && -r <= zs[i] <= 0.0
    ensures -r * Sum(ws) <= Dot(ws, zs) <= 0.0
  {
    if ws != [] {
      DotBounds(ws[1..], zs[1..], r);
      MulLeq(ws[0], -r, zs[0]);
      MulLeq(ws[0], zs[0], 0.0);
    }
  }

  lemma NllSlopeBounds(a: Analysis, e: Example, beta: real)
    requires a.Lawful() && Bounded(e)
    ensures -2.0 * LIMIT <= NllSlope(a, e, beta) <= 2.0 * LIMIT
  {
    var ws := Weights(a, e.logits, beta);
    WeightsPositive(a, e.logits, beta);
    DotBounds(ws, e.logits, 2.0 * LIMIT);
    QuotientBounds(Dot(ws, e.logits), Sum(ws), 2.0 * LIMIT);
  }

  lemma QuotientBounds(d: real, s: real, r: real)
    requires s > 0.0 && -r * s <= d <= 0.0
    ensures -r <= d / s <= 0.0
  {
    var q := d / s;
    assert q * s == d;
    if q < -r { MulLess(s, q, -r); }
    if q > 0.0 { MulLess(s, 0.0, q); }
  }

  lemma {:induction false} SumBounds(s: seq<real>, r: real)
    requires forall i :: 0 <= i < |s| ==> -r <= s[i] <= r
    ensures -r * |s| as real <= Sum(s) <= r * |s| as real
  {
    if s != [] {
      SumBounds(s[1..], r);
      assert |s| as real == 1.0 + |s[1..]| as real;
      assert r * |s| as real == r + r * |s[1..]| as real;
    }
  }

  lemma SlopeBounds(a: Analysis, examples: seq<Example>, beta: real)
    requires a.Lawful() && examples != [] && AllBounded(examples)
    ensures -2.0 * LIMIT <= Slope(a, examples, beta) <= 2.0 * LIMIT
  {
    forall i | 0 <= i < |examples| ensures -2.0 * LIMIT <= Slopes(a, examples, beta)[i] <= 2.0 * LIMIT {
      NllSlopeBounds(a, examples[i], beta);
    }
    SumBounds(Slopes(a, examples, beta), 2.0 * LIMIT);
    MeanBounds(Sum(Slopes(a, examples, beta)), |examples| as real, 2.0 * LIMIT);
  }

  lemma MeanBounds(d: real, n: real, r: real)
    requires n > 0.0 && -r * n <= d <= r * n
    ensures -r <= d / n <= r
  {
    var q := d / n;
    assert q * n == d;
    if q < -r { MulLess(n, q, -r); }
    if q > r { MulLess(n, r, q); }
  }

  /** The closure `objective` of the source, on the centred examples. */
  function ObjectiveOf(a: Analysis, examples: seq<Example>): Objective
    requires a.Lawful() && examples != [] && WellLabelled(examples)
  {
    Objective(beta => Loss(a, examples, beta), beta => Slope(a, examples, beta))
  }

  lemma ObjectiveIsConvex(a: Analysis, examples: seq<Example>)
    requires a.Lawful() && examples != [] && AllBounded(examples)
    ensures ObjectiveOf(a, examples).Convex() && ObjectiveOf(a, examples).Steepness(2.0 * LIMIT)
  {
    hide Loss, Slope;
    var o := ObjectiveOf(a, examples);
    forall x, y ensures o.Tangent(x, y) { LossTangent(a, examples, x, y, y - x); }
    var r := 2.0 * LIMIT;
    forall x: real ensures o.SlopeWithin(r, x) { SlopeBounds(a, examples, x); }
  }

  // ----- What the loss means for the scores as reported -----

  ghost predicate Acceptable(e: Example) {
    Defect(e) == None
  }

  ghost predicate AllAcceptable(examples: seq<Example>) {
    forall i :: 0 <= i < |examples| ==> Acceptable(examples[i])
  }

  /** The negative log-probability the runtime gives the gold option at a temperature. */
  function GoldLoss(a: Analysis, e: Example, temperature: real): real
    requires a.Lawful() && temperature > 0.0 && 0 <= e.gold < |e.logits|
  {
    -a.log(Probabilities(a, e.logits, |e.logits|, temperature).value[e.gold])
  }

  function GoldLosses(a: Analysis, examples: seq<Example>, temperature: real): (ls: seq<real>)
    requires a.Lawful() && temperature > 0.0 && WellLabelled(examples)
    ensures |ls| == |examples|
    ensures forall i :: 0 <= i < |ls| ==> ls[i] == GoldLoss(a, examples[i], temperature)
  {
    seq(|examples|, i requires 0 <= i < |examples| => GoldLoss(a, examples[i], temperature))
  }

  function MeanGoldLoss(a: Analysis, examples: seq<Example>, temperature: real): real
    requires a.Lawful() && temperature > 0.0 && examples != [] && WellLabelled(examples)
  {
    Sum(GoldLosses(a, examples, temperature)) / |examples| as real
  }

  function CenteredAll(examples: seq<Example>): (cs: seq<Example>)
    requires forall i :: 0 <= i < |examples| ==> examples[i].logits != []
    ensures |cs| == |examples| && forall i :: 0 <= i < |cs| ==> cs[i] == Centered(examples[i])
  {
    seq(|examples|, i requires 0 <= i < |examples| => Centered(examples[i]))
  }

  lemma CenteringBounds(e: Example)
    requires Acceptable(e)
    ensures Bounded(Centered(e))
  {
  }

  lemma ShareLog(a: Analysis, zs: seq<real>, gold: nat, beta: real)
    requires a.Lawful() && gold < |zs|
    ensures Sum(Weights(a, zs, beta)) > 0.0
    ensures -a.log(Scaled(Weights(a, zs, beta), Sum(Weights(a, zs, beta)))[gold])
         == a.log(Sum(Weights(a, zs, beta))) - beta * zs[gold]
  {
    WeightsPositive(a, zs, beta);
    var w, s := Weight(a, zs[gold], beta), Sum(Weights(a, zs, beta));
    LogDiv(a, w, s, w / s);
    LogExp(a, zs[gold] * beta);
  }

  lemma CenteredKeeps(e: Example)
    requires e.logits != []
    ensures Centered(e).gold == e.gold && |Centered(e).logits| == |e.logits|
  {
  }

  lemma NllIs(a: Analysis, e: Example, beta: real)
    requires 0 <= e.gold < |e.logits|
    ensures Nll(a, e, beta) == a.log(Sum(Weights(a, e.logits, beta))) - beta * e.logits[e.gold]
  {
  }

  lemma GoldLossIs(a: Analysis, e: Example, temperature: real, beta: real)
    requires a.Lawful() && temperature > 0.0 && 0 <= e.gold < |e.logits| && beta == 1.0 / temperature
    ensures var ws := Weights(a, Centered(e).logits, beta);
      Sum(ws) > 0.0 && GoldLoss(a, e, temperature) == -a.log(Scaled(ws, Sum(ws))[e.gold])
  {
    WeightsPositive(a, Centered(e).logits, beta);
    hide Sum;
  }

  /** The fitted objective is exactly the loss of `probabilities` at temperature 1 / beta. */
  lemma LossIsGoldLoss(a: Analysis, e: Example, temperature: real)
    requires a.Lawful() && temperature > 0.0 && 0 <= e.gold < |e.logits|
    ensures Nll(a, Centered(e), 1.0 / temperature) == GoldLoss(a, e, temperature)
  {
    hide *;
    var c, beta := Centered(e), 1.0 / temperature;
    CenteredKeeps(e);
    ShareLog(a, c.logits, c.gold, beta);
    NllIs(a, c, beta);
    GoldLossIs(a, e, temperature, beta);
  }

  lemma MeanLossIsGoldLoss(a: Analysis, examples: seq<Example>, temperature: real)
    requires a.Lawful() && temperature > 0.0 && examples != [] && WellLabelled(examples)
    ensures Loss(a, CenteredAll(examples), 1.0 / temperature) == MeanGoldLoss(a, examples, temperature)
  {
    forall i | 0 <= i < |examples|
      ensures Losses(a, CenteredAll(examples), 1.0 / temperature)[i] == GoldLosses(a, examples, temperature)[i]
    {
      LossIsGoldLoss(a, examples[i], temperature);
    }
    assert Losses(a, CenteredAll(examples), 1.0 / temperature) == GoldLosses(a, examples, temperature);
  }

  lemma Reciprocal(t: real)
    requires LOWEST <= t <= HIGHEST
    ensures LOWEST <= 1.0 / t <= HIGHEST && 1.0 / (1.0 / t) == t
  {
    var u := 1.0 / t;
    assert u * t == 1.0;
    if u < LOWEST { MulLess(t, u, LOWEST); }
    if u > HIGHEST { MulLess(t, HIGHEST, u); }
    var v := 1.0 / u;
    assert v * u == 1.0;
    assert (v - t) * u == 0.0;
  }

  lemma {:induction false} NoDefects(examples: seq<Example>)
    ensures FirstDefect(examples) == None <==> AllAcceptable(examples)
    ensures FirstDefect(examples) != Some(OptimizerIncreasedLoss)
  {
    if examples != [] {
      NoDefects(examples[1..]);
      assert AllAcceptable(examples) <==> Acceptable(examples[0]) && AllAcceptable(examples[1..]) by {
        if Acceptable(examples[0]) && AllAcceptable(examples[1..]) {
          forall i | 0 <= i < |examples| ensures Acceptable(examples[i]) {
            if i > 0 { assert examples[i] == examples[1..][i - 1]; }
          }
        }
      }
    }
  }

  lemma {:induction false} FirstDefectSplits(examples: seq<Example>, k: nat)
    requires k <= |examples|
    requires forall i :: 0 <= i < k ==> Acceptable(examples[i])
    ensures FirstDefect(examples) == FirstDefect(examples[k..])
  {
    if k > 0 {
      FirstDefectSplits(examples[1..], k - 1);
      assert examples[1..][k - 1..] == examples[k..];
    }
  }

  /** The exits of the search are optimal for the mean loss itself. */
  lemma OptimalInverse(a: Analysis, cs: seq<Example>, exit: Exit, beta: real, b: real)
    requires a.Lawful() && cs != [] && AllBounded(cs) && ExitHolds(ObjectiveOf(a, cs), exit, beta)
    requires LOWEST <= b <= HIGHEST
    ensures Loss(a, cs, beta) <= Loss(a, cs, b) + SLACK
  {
    ObjectiveIsConvex(a, cs);
    ExitIsOptimal(ObjectiveOf(a, cs), exit, beta, b);
  }

  /** The inverse temperature `beta` and the temperature 1 / beta give the same loss. */
  lemma InverseLoss(a: Analysis, examples: seq<Example>, beta: real, t: real)
    requires a.Lawful() && examples != [] && WellLabelled(examples)
    requires t > 0.0 && 1.0 / t == beta
    ensures Loss(a, CenteredAll(examples), beta) == MeanGoldLoss(a, examples, t)
  {
    MeanLossIsGoldLoss(a, examples, t);
  }

  /** Optimality in the inverse temperature, read as optimality in the temperature. */
  lemma OptimalTemperature(a: Analysis, examples: seq<Example>, exit: Exit, beta: real, t: real)
    requires a.Lawful() && examples != [] && AllAcceptable(examples) && AllBounded(CenteredAll(examples))
    requires ExitHolds(ObjectiveOf(a, CenteredAll(examples)), exit, beta)
    requires LOWEST <= t <= HIGHEST
    ensures Loss(a, CenteredAll(examples), beta) <= MeanGoldLoss(a, examples, t) + SLACK
  {
    hide ExitHolds, ObjectiveOf, AllBounded, Acceptable;
    Labelled(examples);
    hide AllAcceptable, WellLabelled, Loss, MeanGoldLoss;
    Reciprocal(t);
    OptimalInverse(a, CenteredAll(examples), exit, beta, 1.0 / t);
    InverseLoss(a, examples, 1.0 / t, t);
  }

  lemma Labelled(examples: seq<Example>)
    requires AllAcceptable(examples)
    ensures WellLabelled(examples) && WellLabelled(CenteredAll(examples))
  {
  }

  lemma CenteredAllBounded(examples: seq<Example>)
    requires AllAcceptable(examples)
    ensures AllBounded(CenteredAll(examples))
  {
    forall i | 0 <= i < |examples| ensures Bounded(CenteredAll(examples)[i]) {
      assert Acceptable(examples[i]);
      CenteringBounds(examples[i]);
    }
  }

  /** The objective of the search: the mean loss of the centred examples by inverse temperature. */
  function SearchObjective(a: Analysis, examples: seq<Example>): Objective
    requires a.Lawful() && examples != [] && WellLabelled(examples)
  {
    ObjectiveOf(a, CenteredAll(examples))
  }

  /** What a fit promises about the examples it was made from. */
  ghost predicate FitsWell(a: Analysis, examples: seq<Example>, fit: Fit)
    requires a.Lawful() && examples != [] && WellLabelled(examples)
  {
    && LOWEST <= fit.temperature <= HIGHEST
    && IsExit(SearchObjective(a, examples), 1.0 / fit.temperature)
    && (fit.atBound <==> fit.temperature == LOWEST || fit.temperature == HIGHEST)
    && fit.examples == |examples|
    && fit.nllBefore == MeanGoldLoss(a, examples, 1.0)
    && fit.nllAfter == MeanGoldLoss(a, examples, fit.temperature)
    && forall t :: LOWEST <= t <= HIGHEST ==> fit.nllAfter <= MeanGoldLoss(a, examples, t) + SLACK
  }

  lemma OptimalEverywhere(a: Analysis, examples: seq<Example>, exit: Exit, beta: real)
    requires a.Lawful() && examples != [] && AllAcceptable(examples)
    requires ExitHolds(ObjectiveOf(a, CenteredAll(examples)), exit, beta)
    ensures forall t :: LOWEST <= t <= HIGHEST
              ==> Loss(a, CenteredAll(examples), beta) <= MeanGoldLoss(a, examples, t) + SLACK
  {
    CenteredAllBounded(examples);
    forall t | LOWEST <= t <= HIGHEST
      ensures Loss(a, CenteredAll(examples), beta) <= MeanGoldLoss(a, examples, t) + SLACK
    {
      OptimalTemperature(a, examples, exit, beta, t);
    }
  }

  /** The record built from an exit of the search keeps every promise, and passes the final guard. */
  lemma FitIsGood(a: Analysis, examples: seq<Example>, exit: Exit, beta: real, fit: Fit)
    requires a.Lawful() && examples != [] && AllAcceptable(examples)
    requires ExitHolds(ObjectiveOf(a, CenteredAll(examples)), exit, beta)
    requires LOWEST <= fit.temperature <= HIGHEST && fit.examples == |examples| && beta == 1.0 / fit.temperature
    requires fit.atBound <==> beta == LOWEST || beta == HIGHEST
    requires fit.nllBefore == MeanGoldLoss(a, examples, 1.0)
    requires fit.nllAfter == MeanGoldLoss(a, examples, fit.temperature) == Loss(a, CenteredAll(examples), beta)
    ensures FitsWell(a, examples, fit) && fit.nllAfter <= fit.nllBefore + SLACK
  {
    OptimalEverywhere(a, examples, exit, beta);
    AtBound(fit.temperature);
    assert ExitHolds(SearchObjective(a, examples), exit, beta);
  }

  /** The two ends of the range are each other's reciprocals. */
  lemma AtBound(t: real)
    requires LOWEST <= t <= HIGHEST
    ensures 1.0 / t == LOWEST || 1.0 / t == HIGHEST <==> t == LOWEST || t == HIGHEST
  {
    var u := 1.0 / t;
    assert u * t == 1.0;
  }

  /** For a fit, `ResultBracketsOptimum` speaks of the mean loss of its examples. */
  lemma FitBracketsOptimum(a: Analysis, examples: seq<Example>, fit: Fit, beta: real, b: real) returns (c: real)
    requires a.Lawful() && examples != [] && AllAcceptable(examples) && WellLabelled(examples)
    requires FitsWell(a, examples, fit) && fit.temperature != 1.0 && !fit.atBound && beta == 1.0 / fit.temperature
    ensures b <= beta - HALF_WIDTH ==> SearchObjective(a, examples).slope(b) < 0.0
    ensures b >= beta + HALF_WIDTH ==> SearchObjective(a, examples).slope(b) >= 0.0
    ensures beta - HALF_WIDTH <= c <= beta + HALF_WIDTH
    ensures SearchObjective(a, examples).loss(c) <= SearchObjective(a, examples).loss(b)
  {
    CenteredAllBounded(examples);
    ObjectiveIsConvex(a, CenteredAll(examples));
    AtBound(fit.temperature);
    NotOne(fit.temperature, beta);
    hide Loss, Slope, MeanGoldLoss, IsExit, Objective.Convex, Objective.Steepness, AllAcceptable, AllBounded;
    c := ResultBracketsOptimum(SearchObjective(a, examples), beta, b);
  }

  lemma NotOne(t: real, u: real)
    requires t > 0.0 && t != 1.0 && u == 1.0 / t
    ensures u != 1.0
  {
    assert u * t == 1.0;
  }

  lemma FitFromExit(a: Analysis, examples: seq<Example>, exit: Exit, beta: real, fit: Fit)
    requires a.Lawful() && examples != [] && AllAcceptable(examples) && LOWEST <= beta <= HIGHEST
    requires ExitHolds(SearchObjective(a, examples), exit, beta)
    requires fit == Fit(1.0 / beta, Loss(a, CenteredAll(examples), 1.0), Loss(a, CenteredAll(examples), beta),
                        beta == LOWEST || beta == HIGHEST, |examples|)
    ensures FitsWell(a, examples, fit) && fit.nllAfter <= fit.nllBefore + SLACK
  {
    Labelled(examples);
    hide ExitHolds, Loss, MeanGoldLoss, AllAcceptable, FitsWell, ObjectiveOf, WellLabelled, CenteredAll;
    Reciprocal(beta);
    InverseLoss(a, examples, 1.0, 1.0);
    InverseLoss(a, examples, beta, fit.temperature);
    FitIsGood(a, examples, exit, beta, fit);
  }

  method FitCentered(a: Analysis, ghost examples: seq<Example>, centered: seq<Example>)
    returns (r: Result<Fit, FitError>)
    requires a.Lawful() && examples != [] && AllAcceptable(examples) && centered == CenteredAll(examples)
    ensures r.Success? && FitsWell(a, examples, r.value)
  {
    CenteredAllBounded(examples);
    hide Objective.Convex, Objective.Steepness, ExitHolds, Loss, MeanGoldLoss, AllAcceptable, FitsWell, AllBounded,
         Bounded, WellLabelled, CenteredAll;
    ObjectiveIsConvex(a, centered);
    var beta, exit := Minimise(ObjectiveOf(a, centered));
    Reciprocal(beta);
    var fit := Fit(1.0 / beta, Loss(a, centered, 1.0), Loss(a, centered, beta),
                   beta == LOWEST || beta == HIGHEST, |centered|);
    FitFromExit(a, examples, exit, beta, fit);
    r := if fit.nllAfter > fit.nllBefore + SLACK then Failure(OptimizerIncreasedLoss) else Success(fit);
  }

  /**
   The fit succeeds exactly on nonempty sets without defects; its last guard, that the loss did not
   increase, never fires.  The temperature is one `Calibration` accepts, and no temperature in the
   permitted range gives a loss smaller by more than 1e-10.
   */
  method FitTemperature(a: Analysis, examples: seq<Example>) returns (r: Result<Fit, FitError>)
    requires a.Lawful()
    ensures r.Success? <==> examples != [] && AllAcceptable(examples)
    ensures r.Failure? ==> r.error == if examples == [] then EmptySet else FirstDefect(examples).GetOr(EmptySet)
    ensures r.Failure? ==> r.error != OptimizerIncreasedLoss
    ensures r.Success? ==> FitsWell(a, examples, r.value)
  {
    if examples == [] { return Failure(EmptySet); }
    var centered: seq<Example> := [];
    NoDefects(examples);
    for k := 0 to |examples|
      invariant forall i :: 0 <= i < k ==> Acceptable(examples[i])
      invariant |centered| == k && forall i :: 0 <= i < k ==> centered[i] == Centered(examples[i])
    {
      FirstDefectSplits(examples, k);
      var defect := Defect(examples[k]);
      if defect.Some? { return Failure(defect.value); }
      centered := centered + [Centered(examples[k])];
    }
    assert centered == CenteredAll(examples);
    r := FitCentered(a, examples, centered);
  }
}
