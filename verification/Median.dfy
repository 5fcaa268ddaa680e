/**
 The observed rate is never excluded: among n groups that each fail with probability k/n, at most k failures are
 likelier than not.  So at a confidence of one half or more the search for the bound starts inside its bracket.
 */
module Median {
  import opened Elementary
  import opened Binomial

  // ----- The mean -----

  function Times(k: int, x: real): real {
    k as real * x
  }

  lemma TimesLess(k: int, x: real)
    ensures Times(k, x) == Times(k - 1, x) + x && Times(k, 0.0) == 0.0
  {
    var a := k as real;
    assert (k - 1) as real == a - 1.0;
    assert a * x == (a - 1.0) * x + x;
  }

  lemma TimesMix(k: int, p: real, x: real, y: real)
    ensures Times(k, Mix(p, x, y)) == Mix(p, Times(k, x), Times(k, y))
  {
    var c, q := k as real, 1.0 - p;
    assert c * (p * x) == p * (c * x) && c * (q * y) == q * (c * y);
    assert c * (p * x + q * y) == c * (p * x) + c * (q * y);
  }

  /** The part of the mean that comes from counts up to k. */
  function Moment(n: nat, k: int, p: real): real
    decreases if k < 0 then 0 else k + 1
  {
    if k < 0 then 0.0 else Moment(n, k - 1, p) + Times(k, Pmf(n, k, p))
  }

  /** Counts below zero add nothing, so the steps hold for all k. */
  lemma Steps(n: nat, k: int, p: real)
    ensures Moment(n, k, p) == Moment(n, k - 1, p) + Times(k, Pmf(n, k, p))
    ensures Cdf(n, k, p) == Cdf(n, k - 1, p) + Pmf(n, k, p)
  {
    hide Times;
    if k < 0 {
      CdfNegative(n, k, p);
      TimesLess(k, 0.0);
    } else {
      hide Pmf;
    }
  }

  lemma {:induction false} MomentPascal(n: nat, k: int, p: real)
    requires n > 0
    ensures Moment(n, k, p) == Mix(p, Moment(n - 1, k - 1, p) + Cdf(n - 1, k - 1, p), Moment(n - 1, k, p))
    decreases if k < 0 then 0 else k + 1
  {
    if k < 0 {
      CdfNegative(n - 1, k - 1, p);
      MixZero(p);
    } else {
      hide *;
      MomentPascal(n, k - 1, p);
      PmfPascal(n, k, p);
      Steps(n, k, p);
      Steps(n - 1, k, p);
      Steps(n - 1, k - 1, p);
      var x, y := Pmf(n - 1, k - 1, p), Pmf(n - 1, k, p);
      TimesMix(k, p, x, y);
      TimesLess(k, x);
      MixAdd(p, Moment(n - 1, k - 2, p) + Cdf(n - 1, k - 2, p), Times(k, x), Moment(n - 1, k - 1, p), Times(k, y));
    }
  }

  /** The mean of n trials is n p. */
  lemma {:induction false} Mean(n: nat, k: int, p: real)
    requires k >= n
    ensures Moment(n, k, p) == Times(n, p)
  {
    if n == 0 {
      MomentOfNone(k, p);
    } else {
      hide *;
      MomentPascal(n, k, p);
      Mean(n - 1, k - 1, p);
      Mean(n - 1, k, p);
      CdfTotal(n - 1, k - 1, p);
      OneMoreTrial(p, Times(n - 1, p));
      TimesLess(n, p);
    }
  }

  lemma {:induction false} MomentOfNone(k: nat, p: real)
    ensures Moment(0, k, p) == Times(0, p)
  {
    if k > 0 { MomentOfNone(k - 1, p); }
  }

  lemma OneMoreTrial(p: real, m: real)
    ensures Mix(p, m + 1.0, m) == m + p
  {
  }

  // ----- Neighbouring counts -----

  lemma {:induction false} PmfPositive(n: nat, k: int, p: real)
    requires 0.0 < p < 1.0 && 0 <= k <= n
    ensures Pmf(n, k, p) > 0.0
  {
    if n > 0 {
      hide Pmf;
      PmfPascal(n, k, p);
      PmfNonNegative(n - 1, k - 1, p);
      PmfNonNegative(n - 1, k, p);
      if k > 0 { PmfPositive(n - 1, k - 1, p); } else { PmfPositive(n - 1, k, p); }
      MixPositive(p, Pmf(n - 1, k - 1, p), Pmf(n - 1, k, p));
    }
  }

  lemma MixPositive(p: real, x: real, y: real)
    requires 0.0 < p < 1.0 && x >= 0.0 && y >= 0.0 && (x > 0.0 || y > 0.0)
    ensures Mix(p, x, y) > 0.0
  {
    MulPositive(p, x);
    MulPositive(1.0 - p, y);
    assert Mix(p, x, y) == p * x + (1.0 - p) * y;
  }

  function Weigh(c: real, x: real): real {
    c * x
  }

  /** The textbook ratio of neighbouring probabilities, cross-multiplied. */
  lemma {:induction false} Ratio(n: nat, k: int, p: real)
    ensures Times(k + 1, Weigh(1.0 - p, Pmf(n, k + 1, p))) == Times(n - k, Weigh(p, Pmf(n, k, p)))
  {
    if n == 0 {
      RatioOfNone(k, p);
    } else {
      hide *;
      Ratio(n - 1, k, p);
      Ratio(n - 1, k - 1, p);
      PmfPascal(n, k + 1, p);
      PmfPascal(n, k, p);
      RatioStep(n, k, p, Pmf(n - 1, k - 1, p), Pmf(n - 1, k, p), Pmf(n - 1, k + 1, p));
    }
  }

  lemma RatioOfNone(k: int, p: real)
    ensures Times(k + 1, Weigh(1.0 - p, Pmf(0, k + 1, p))) == Times(-k, Weigh(p, Pmf(0, k, p)))
  {
    assert Weigh(p, 0.0) == 0.0 && Weigh(1.0 - p, 0.0) == 0.0;
    TimesLess(k + 1, 0.0);
    TimesLess(-k, 0.0);
    TimesLess(1, Weigh(p, Pmf(0, k, p)));
    TimesZero(Weigh(p, Pmf(0, k, p)));
    TimesZero(Weigh(1.0 - p, Pmf(0, k + 1, p)));
    hide Times, Weigh;
  }

  lemma TimesZero(x: real)
    ensures Times(0, x) == 0.0
  {
  }

  lemma RatioStep(n: nat, k: int, p: real, x: real, y: real, z: real)
    requires Times(k + 1, Weigh(1.0 - p, z)) == Times(n - 1 - k, Weigh(p, y))
    requires Times(k, Weigh(1.0 - p, y)) == Times(n - k, Weigh(p, x))
    ensures Times(k + 1, Weigh(1.0 - p, Mix(p, y, z))) == Times(n - k, Weigh(p, Mix(p, x, y)))
  {
  }

  /** At p = k/n the ratio is one of whole numbers. */
  lemma WholeRatio(n: nat, k: nat, p: real, x: int)
    requires 0 < k < n && p == k as real / n as real
    ensures Times((x + 1) * (n - k), Pmf(n, x + 1, p)) == Times((n - x) * k, Pmf(n, x, p))
  {
    hide *;
    Ratio(n, x, p);
    Cleared(x + 1, n, n - k, 1.0 - p, Pmf(n, x + 1, p));
    Cleared(n - x, n, k, p, Pmf(n, x, p));
    RateTimes(n, k, p);
  }

  lemma RateTimes(n: nat, k: nat, p: real)
    requires 0 < k < n && p == k as real / n as real
    ensures 0.0 < p < 1.0 && Times(n, p) == k as real && Times(n, 1.0 - p) == (n - k) as real
  {
    var c := n as real;
    assert p * c == k as real;
    assert c * (1.0 - p) == c - c * p;
    RateInRange(n, k);
    DivPositive(k as real, c);
  }

  lemma Cleared(a: int, n: nat, b: int, q: real, x: real)
    ensures Times(n, q) == b as real ==> Times(n, Times(a, Weigh(q, x))) == Times(a * b, x)
  {
    var c, d := n as real, a as real;
    if Times(n, q) == b as real {
      assert c * (d * (q * x)) == d * ((c * q) * x);
      assert (a * b) as real == d * b as real;
      assert d * (b as real * x) == (d * b as real) * x;
    }
  }

  // ----- Counts on either side of the mean -----

  /** How much likelier k + 1 + i failures are than k - i. */
  function Gap(n: nat, k: nat, p: real, i: int): real {
    Pmf(n, k + 1 + i, p) - Pmf(n, k - i, p)
  }

  /** From the t-th step on the upper side loses ground no faster than the lower one (m successes on average). */
  predicate Favours(m: nat, k: nat, t: nat) {
    Enough(t, m * m - k * k, (m * m) * (2 * k + 1))
  }

  predicate Enough(t: nat, x: int, y: int) {
    (t * t) * x >= y
  }

  /** The same as a comparison of the two ratios. */
  lemma FavoursIff(m: nat, k: nat, t: nat)
    ensures Favours(m, k, t) <==> ((m - t) * k) * ((m + t) * k) >= ((k + 1 + t) * m) * ((k + 1 - t) * m)
  {
    assert ((m - t) * k) * ((m + t) * k) == (m * m - t * t) * (k * k);
    assert ((k + 1 + t) * m) * ((k + 1 - t) * m) == ((k + 1) * (k + 1) - t * t) * (m * m);
    assert ((m - t) * k) * ((m + t) * k) - ((k + 1 + t) * m) * ((k + 1 - t) * m)
        == (t * t) * (m * m - k * k) - (m * m) * (2 * k + 1);
  }

  lemma FavoursStays(m: nat, k: nat, t: nat)
    requires m > 0 && Favours(m, k, t)
    ensures Favours(m, k, t + 1)
  {
    assert m * m > 0;
    assert (m * m) * (2 * k + 1) > 0;
    hide Enough;
    EnoughStays(t, m * m - k * k, (m * m) * (2 * k + 1));
  }

  lemma EnoughStays(t: nat, x: int, y: int)
    requires Enough(t, x, y) && y > 0
    ensures Enough(t + 1, x, y)
  {
    assert ((t + 1) * (t + 1)) * x == (t * t) * x + (2 * t + 1) * x;
  }

  /** Where the upper side leads and is favoured, it keeps the lead. */
  lemma Lead(a: int, b: int, c: int, d: int, x: real, x': real, y: real, y': real)
    requires a > 0 && c > 0 && d > 0 && b * d >= a * c
    requires Times(a, x') == Times(b, x) && Times(c, y) == Times(d, y')
    requires x >= y >= 0.0
    ensures x' >= y'
  {
  }

  /** Where it trails and is not, it keeps trailing. */
  lemma Trail(a: int, b: int, c: int, d: int, x: real, x': real, y: real, y': real)
    requires a > 0 && c > 0 && d > 0 && b * d < a * c
    requires Times(a, x') == Times(b, x) && Times(c, y) == Times(d, y')
    requires y > x >= 0.0
    ensures x' < y'
  {
  }

  lemma NextGap(n: nat, k: nat, p: real, i: nat)
    requires 0 < k < n && p == k as real / n as real
    ensures Gap(n, k, p, i) >= 0.0 && (Favours(n - k, k, i + 1) || i >= k) ==> Gap(n, k, p, i + 1) >= 0.0
    ensures Gap(n, k, p, i) < 0.0 && !Favours(n - k, k, i + 1) && i < k ==> Gap(n, k, p, i + 1) < 0.0
  {
    hide Pmf, Favours, Times;
    var m, t := n - k, i + 1;
    RateTimes(n, k, p);
    PmfNonNegative(n, k + 1 + i, p);
    PmfNonNegative(n, k + 1 + t, p);
    PmfNonNegative(n, k - i, p);
    if i >= k {
      CdfNegative(n, k - t, p);
    } else {
      WholeRatio(n, k, p, k + t);
      WholeRatio(n, k, p, k - t);
      FavoursIff(m, k, t);
      Sides(m, k, t);
      var a, b, c, d := (k + 1 + t) * m, (m - t) * k, (k + 1 - t) * m, (m + t) * k;
      var x, x', y, y' := Pmf(n, k + t, p), Pmf(n, k + t + 1, p), Pmf(n, k - i, p), Pmf(n, k - t, p);
      if Favours(m, k, t) && x >= y { Lead(a, b, c, d, x, x', y, y'); }
      if !Favours(m, k, t) && x < y { Trail(a, b, c, d, x, x', y, y'); }
    }
  }

  lemma Sides(m: nat, k: nat, t: nat)
    requires 0 < m && 0 < t <= k
    ensures (k + 1 + t) * m > 0 && (k + 1 - t) * m > 0 && (m + t) * k > 0
  {
  }

  /** Just above the mean is less likely than the mean. */
  lemma FirstGap(n: nat, k: nat, p: real)
    requires 0 < k < n && p == k as real / n as real
    ensures Gap(n, k, p, 0) < 0.0
  {
    hide Pmf, Times;
    RateTimes(n, k, p);
    PmfPositive(n, k, p);
    WholeRatio(n, k, p, k);
    LessLikely((k + 1) * (n - k), (n - k) * k, Pmf(n, k + 1, p), Pmf(n, k, p));
  }

  lemma LessLikely(a: int, b: int, x: real, y: real)
    requires a > b > 0 && y > 0.0 && Times(a, x) == Times(b, y)
    ensures x < y
  {
    var c, d := a as real, b as real;
    if x >= y {
      MulLeq(c, y, x);
      MulLess(y, d, c);
    }
  }

  /** The gaps change sign at most once: up to some s they are negative, from there on they are not. */
  ghost predicate Crosses(n: nat, k: nat, p: real, s: nat, j: nat) {
    && (forall i :: 0 <= i < j && i < s ==> Gap(n, k, p, i) < 0.0)
    && (forall i :: s <= i < j ==> Gap(n, k, p, i) >= 0.0)
  }

  lemma {:induction false} Crossing(n: nat, k: nat, p: real, j: nat) returns (s: nat)
    requires 0 < k < n && p == k as real / n as real && j > 0
    ensures 0 < s <= j && Crosses(n, k, p, s, j)
    ensures s < j ==> Favours(n - k, k, j) || j > k
  {
    hide Pmf, Favours, Gap;
    if j == 1 {
      FirstGap(n, k, p);
      s := 1;
    } else {
      s := Crossing(n, k, p, j - 1);
      NextGap(n, k, p, j - 2);
      if Favours(n - k, k, j - 1) { FavoursStays(n - k, k, j - 1); }
      if s == j - 1 && Gap(n, k, p, j - 1) < 0.0 { s := j; }
    }
  }

  // ----- The median -----

  /** P(X > k) - P(X <= k), for counts within j of the mean. */
  function Tilt(n: nat, k: nat, p: real, j: nat): real {
    Cdf(n, k + j, p) + Cdf(n, k - j, p) - 2.0 * Cdf(n, k, p)
  }

  /** The mean of 2 X - 2 k - 1 over the same counts. */
  function Pull(n: nat, k: nat, p: real, j: nat): real {
    2.0 * (Moment(n, k + j, p) - Moment(n, k - j, p)) - Times(2 * k + 1, Cdf(n, k + j, p) - Cdf(n, k - j, p))
  }

  lemma TiltStep(n: nat, k: nat, p: real, j: nat)
    ensures Tilt(n, k, p, j + 1) == Tilt(n, k, p, j) + Gap(n, k, p, j)
    ensures Pull(n, k, p, j + 1) == Pull(n, k, p, j) + Times(2 * j + 1, Gap(n, k, p, j))
  {
    hide Cdf, Moment, Pmf;
    Steps(n, k + j + 1, p);
    Steps(n, k - j, p);
    var c := Cdf(n, k + j, p) - Cdf(n, k - j, p);
    Regroup(k, j, c, Pmf(n, k + 1 + j, p), Pmf(n, k - j, p));
  }

  lemma Regroup(k: nat, j: nat, c: real, x: real, y: real)
    ensures 2.0 * (Times(k + j + 1, x) + Times(k - j, y)) - Times(2 * k + 1, c + x + y)
         == Times(2 * j + 1, x - y) - Times(2 * k + 1, c)
  {
    var a, b := k as real, j as real;
    assert (k + j + 1) as real == a + b + 1.0 && (k - j) as real == a - b;
    assert (2 * k + 1) as real == 2.0 * a + 1.0 && (2 * j + 1) as real == 2.0 * b + 1.0;
  }

  /** Gaps far from the mean pull harder, and those are the ones that may be positive. */
  lemma {:induction false} PullOutweighs(n: nat, k: nat, p: real, s: nat, j: nat)
    requires Crosses(n, k, p, s, j)
    ensures Pull(n, k, p, j) >= Times(2 * s + 1, Tilt(n, k, p, j))
  {
    hide Gap, Times, Pull, Tilt;
    if j == 0 {
      NoTilt(n, k, p, s);
    } else {
      PullOutweighs(n, k, p, s, j - 1);
      TiltStep(n, k, p, j - 1);
      Heavier(s, j - 1, Gap(n, k, p, j - 1), Tilt(n, k, p, j - 1));
    }
  }

  lemma NoTilt(n: nat, k: nat, p: real, s: nat)
    ensures Pull(n, k, p, 0) == 0.0 && Times(2 * s + 1, Tilt(n, k, p, 0)) == 0.0
  {
    hide Cdf, Moment;
  }

  lemma Heavier(s: nat, i: nat, gap: real, tilt: real)
    requires if i < s then gap < 0.0 else gap >= 0.0
    ensures Times(2 * s + 1, tilt + gap) <= Times(2 * s + 1, tilt) + Times(2 * i + 1, gap)
  {
    var a, b := (2 * s + 1) as real, (2 * i + 1) as real;
    assert a * (tilt + gap) == a * tilt + a * gap;
    assert (a - b) * gap <= 0.0;
  }

  /** At most k failures are likelier than not when each of n groups fails with probability k / n. */
  lemma RateIsNotExcluded(n: nat, k: nat)
    requires 0 < k < n
    ensures Cdf(n, k, k as real / n as real) > 0.5
  {
    hide *;
    var p, j := k as real / n as real, n + 1;
    var s := Crossing(n, k, p, j);
    PullOutweighs(n, k, p, s, j);
    WholeTilt(n, k, p);
    WholePull(n, k, p);
    NegativeFactor(2 * s + 1, Tilt(n, k, p, j));
  }

  lemma WholeTilt(n: nat, k: nat, p: real)
    requires k < n
    ensures Tilt(n, k, p, n + 1) == 1.0 - 2.0 * Cdf(n, k, p)
  {
    hide Cdf;
    CdfTotal(n, k + n + 1, p);
    CdfNegative(n, k - n - 1, p);
  }

  lemma WholePull(n: nat, k: nat, p: real)
    requires 0 < k < n && p == k as real / n as real
    ensures Pull(n, k, p, n + 1) == -1.0
  {
    Mean(n, k + n + 1, p);
    RateTimes(n, k, p);
    CdfTotal(n, k + n + 1, p);
    CdfNegative(n, k - n - 1, p);
    hide Cdf;
    assert Moment(n, k - n - 1, p) == 0.0;
    hide Moment;
  }

  lemma NegativeFactor(c: nat, x: real)
    requires Times(c, x) <= -1.0
    ensures x < 0.0
  {
    if x >= 0.0 { MulPositive(c as real, x); }
  }

  // ----- The bracket of a reported bound -----

  /** Rates from the bound on are excluded by k failures among n, and rates up to the last bracket are not. */
  ghost predicate Bracketed(n: nat, k: nat, confidence: real, u: real, p: real)
    requires 0 < k < n
  {
    && (p >= u ==> Cdf(n, k, p) <= 1.0 - confidence)
    && (p <= u - (1.0 - k as real / n as real) * Resolution ==> Cdf(n, k, p) > 1.0 - confidence)
  }

  /** At a confidence of one half or more the bracket needs no condition on the observed rate. */
  lemma BoundIsBracketed(n: nat, k: nat, confidence: real, u: real, p: real)
    requires 0 < k < n && confidence >= 0.5 && Bounds(n, k, confidence, u) && Sharp(n, k, confidence, u)
    requires 0.0 <= p <= 1.0
    ensures Bracketed(n, k, confidence, u, p)
  {
    hide Cdf, Bounds, Sharp;
    RateIsNotExcluded(n, k);
    CutIsBracketed(n, k, confidence, u, p);
  }
}
