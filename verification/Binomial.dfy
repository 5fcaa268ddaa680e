/**
 The exact one-sided Clopper-Pearson bound.  `Pmf` is the binomial distribution by its Pascal
 recursion; the closed form that the code evaluates in log space is proved equal to it.
 */
module Binomial {
  import opened Elementary
  import opened Outcomes
  import opened Softmax

  /** The mean of `x` and `y` when `x` has probability p. */
  function Mix(p: real, x: real, y: real): real {
    var c := 1.0 - p;
    p * x + c * y
  }

  /** P(X = k) for n independent failures of probability p. */
  function Pmf(n: nat, k: int, p: real): real {
    if k < 0 || k > n then 0.0
    else if n == 0 then 1.0
    else Mix(p, Pmf(n - 1, k - 1, p), Pmf(n - 1, k, p))
  }

  /** P(X <= k). */
  function Cdf(n: nat, k: int, p: real): real
    decreases if k < 0 then 0 else k + 1
  {
    if k < 0 then 0.0 else Cdf(n, k - 1, p) + Pmf(n, k, p)
  }

  lemma MixNonNegative(p: real, x: real, y: real)
    requires 0.0 <= p <= 1.0 && x >= 0.0 && y >= 0.0
    ensures Mix(p, x, y) >= 0.0
  {
    var c := 1.0 - p;
    MulLeq(p, 0.0, x);
    MulLeq(c, 0.0, y);
    assert Mix(p, x, y) == p * x + c * y;
  }

  lemma PmfPascal(n: nat, k: int, p: real)
    requires n > 0
    ensures Pmf(n, k, p) == Mix(p, Pmf(n - 1, k - 1, p), Pmf(n - 1, k, p))
  {
    if k < 0 || k > n { MixZero(p); }
  }

  lemma MixZero(p: real)
    ensures Mix(p, 0.0, 0.0) == 0.0
  {
  }

  lemma {:induction false} PmfNonNegative(n: nat, k: int, p: real)
    requires 0.0 <= p <= 1.0
    ensures Pmf(n, k, p) >= 0.0
  {
    if n > 0 {
      PmfNonNegative(n - 1, k - 1, p);
      PmfNonNegative(n - 1, k, p);
      PmfPascal(n, k, p);
      MixNonNegative(p, Pmf(n - 1, k - 1, p), Pmf(n - 1, k, p));
    }
  }

  lemma MixAdd(p: real, a: real, b: real, c: real, d: real)
    ensures Mix(p, a, c) + Mix(p, b, d) == Mix(p, a + b, c + d)
  {
  }

  lemma CdfStep(n: nat, k: int, p: real)
    requires k >= 0
    ensures Cdf(n, k, p) == Cdf(n, k - 1, p) + Pmf(n, k, p)
  {
  }

  lemma CdfNegative(n: nat, k: int, p: real)
    requires k < 0
    ensures Cdf(n, k, p) == 0.0 && Pmf(n, k, p) == 0.0
  {
  }

  /** Conditioning the cumulative probability on the last trial. */
  lemma {:induction false} CdfPascal(n: nat, k: int, p: real)
    requires n > 0
    ensures Cdf(n, k, p) == Mix(p, Cdf(n - 1, k - 1, p), Cdf(n - 1, k, p))
    decreases if k < 0 then 0 else k + 1
  {
    if k < 0 {
      CdfNegative(n, k, p);
      CdfNegative(n - 1, k, p);
      CdfNegative(n - 1, k - 1, p);
    } else {
      CdfPascal(n, k - 1, p);
      PmfPascal(n, k, p);
      CdfStep(n, k, p);
      CdfStep(n - 1, k, p);
      if k > 0 { CdfStep(n - 1, k - 1, p); } else { CdfNegative(n - 1, -1, p); CdfNegative(n - 1, -2, p); }
      MixAdd(p, Cdf(n - 1, k - 2, p), Pmf(n - 1, k - 1, p), Cdf(n - 1, k - 1, p), Pmf(n - 1, k, p));
    }
  }

  lemma {:induction false} CdfTotal(n: nat, k: int, p: real)
    requires k >= n
    ensures Cdf(n, k, p) == 1.0
  {
    if n == 0 {
      CdfOfNone(k, p);
    } else {
      CdfPascal(n, k, p);
      CdfTotal(n - 1, k - 1, p);
      CdfTotal(n - 1, k, p);
    }
  }

  lemma {:induction false} CdfOfNone(k: nat, p: real)
    ensures Cdf(0, k, p) == 1.0
  {
    if k > 0 { CdfOfNone(k - 1, p); }
  }

  lemma {:induction false} CdfGrows(n: nat, k: int, l: int, p: real)
    requires k <= l && 0.0 <= p <= 1.0
    ensures Cdf(n, k, p) <= Cdf(n, l, p)
    decreases l - k
  {
    if k < l {
      CdfGrows(n, k, l - 1, p);
      PmfNonNegative(n, l, p);
    }
  }

  lemma {:induction false} CdfBounds(n: nat, k: int, p: real)
    requires 0.0 <= p <= 1.0
    ensures 0.0 <= Cdf(n, k, p) <= 1.0
  {
    if k >= 0 { CdfGrows(n, -1, k, p); }
    if k >= n { CdfTotal(n, k, p); } else { CdfGrows(n, k, n, p); CdfTotal(n, n, p); }
  }

  /** Fewer failures become strictly less likely as each failure becomes more likely. */
  lemma {:induction false} CdfStrictlyDecreasing(n: nat, k: nat, p: real, q: real)
    requires k < n && 0.0 <= p < q <= 1.0
    ensures Cdf(n, k, q) < Cdf(n, k, p)
  {
    var f, g := Cdf(n - 1, k - 1, p), Cdf(n - 1, k, p);
    var f', g' := Cdf(n - 1, k - 1, q), Cdf(n - 1, k, q);
    if k > 0 {
      CdfStrictlyDecreasing(n - 1, k - 1, p, q);
      CdfGrows(n - 1, k - 1, k, p);
    } else {
      CdfNegative(n - 1, -1, p);
      CdfNegative(n - 1, -1, q);
      CdfOfZero(n - 1, p);
      PowPositive(1.0 - p, n - 1);
    }
    if k < n - 1 { CdfStrictlyDecreasing(n - 1, k, p, q); } else { CdfTotal(n - 1, k, p); CdfTotal(n - 1, k, q); }
    CdfPascal(n, k, p);
    CdfPascal(n, k, q);
    MixingStep(f, g, f', g', p, q);
  }

  lemma MixingStep(f: real, g: real, f': real, g': real, p: real, q: real)
    requires 0.0 <= p < q <= 1.0 && g' <= g
    requires (f' < f <= g) || (f' == f == 0.0 < g)
    ensures Mix(q, f', g') < Mix(p, f, g)
  {
    hide Mix;
    if f' < f {
      MixIncreases(q, f', f, g', g);
      MixOrder(p, q, f, g);
    } else {
      MixOfZero(p, q, g', g);
    }
  }

  lemma MixIncreases(q: real, x: real, x': real, y: real, y': real)
    requires 0.0 < q <= 1.0 && x < x' && y <= y'
    ensures Mix(q, x, y) < Mix(q, x', y')
  {
    var u, v := x' - x, y' - y;
    MulPositive(q, u);
    MulPositive(1.0 - q, v);
    MixShift(q, x, u, x', y, v, y', q * u, (1.0 - q) * v);
  }

  lemma MixShift(q: real, x: real, u: real, x': real, y: real, v: real, y': real, qu: real, dv: real)
    requires x' == x + u && y' == y + v && qu == q * u && dv == (1.0 - q) * v
    ensures Mix(q, x', y') == Mix(q, x, y) + qu + dv
  {
  }

  lemma MixOfZero(p: real, q: real, y: real, y': real)
    requires p < q <= 1.0 && y <= y' && 0.0 < y'
    ensures Mix(q, 0.0, y) < Mix(p, 0.0, y')
  {
    var c, d := 1.0 - p, 1.0 - q;
    MulLeq(d, y, y');
    MulLess(y', d, c);
    assert Mix(q, 0.0, y) == d * y && Mix(p, 0.0, y') == c * y';
  }

  /** Shifting weight to the smaller value does not raise the mean. */
  lemma MixOrder(p: real, q: real, f: real, g: real)
    requires p <= q && f <= g
    ensures Mix(q, f, g) <= Mix(p, f, g)
  {
    assert Mix(p, f, g) - Mix(q, f, g) == (q - p) * (g - f);
    MulLeq(q - p, 0.0, g - f);
  }

  lemma {:induction false} CdfOfZero(n: nat, p: real)
    ensures Cdf(n, 0, p) == Pow(1.0 - p, n)
  {
    assert Cdf(n, 0, p) == Pmf(n, 0, p);
    if n > 0 {
      assert Cdf(n - 1, 0, p) == Pmf(n - 1, 0, p);
      CdfOfZero(n - 1, p);
      assert p * Pmf(n - 1, -1, p) == 0.0;
    }
  }

  // ----- The closed form, and the log-space sum the code compares -----

  function Choose(n: nat, k: int): nat {
    if k < 0 || k > n then 0
    else if n == 0 then 1
    else Choose(n - 1, k - 1) + Choose(n - 1, k)
  }

  lemma ChooseStep(n: nat, k: nat)
    requires 0 < k < n
    ensures Choose(n, k) == Choose(n - 1, k - 1) + Choose(n - 1, k)
  {
  }

  function Factorial(n: nat): (f: nat)
    ensures f > 0
  {
    if n == 0 then 1 else n * Factorial(n - 1)
  }

  lemma {:induction false} ChooseFactorial(n: nat, k: nat)
    requires k <= n
    ensures Choose(n, k) * (Factorial(k) * Factorial(n - k)) == Factorial(n)
  {
    if n == 0 {
    } else if k == 0 {
      ChooseEnds(n);
    } else if k == n {
      ChooseEnds(n);
    } else {
      ChooseFactorial(n - 1, k - 1);
      ChooseFactorial(n - 1, k);
      FactorialStep(Choose(n - 1, k - 1), Choose(n - 1, k), k, n - k, Factorial(k - 1), Factorial(n - k - 1),
                    Factorial(n - 1));
    }
  }

  lemma {:induction false} ChooseEnds(n: nat)
    ensures Choose(n, 0) == 1 && Choose(n, n) == 1
  {
    if n > 0 { ChooseEnds(n - 1); }
  }

  lemma FactorialStep(x: nat, y: nat, k: nat, m: nat, f: nat, g: nat, t: nat)
    requires x * (f * (m * g)) == t && y * (k * f * g) == t
    ensures (x + y) * (k * f * (m * g)) == (k + m) * t
  {
    assert x * (k * f * (m * g)) == k * (x * (f * (m * g)));
    assert y * (k * f * (m * g)) == m * (y * (k * f * g));
  }

  function Likelihood(n: nat, k: nat, p: real): real
    requires k <= n
  {
    Pow(p, k) * Pow(1.0 - p, n - k)
  }

  lemma {:induction false} PmfFull(n: nat, p: real)
    ensures Pmf(n, n, p) == Pow(p, n)
  {
    if n > 0 {
      PmfFull(n - 1, p);
      PmfPascal(n, n, p);
      assert Mix(p, Pow(p, n - 1), 0.0) == p * Pow(p, n - 1) + (1.0 - p) * 0.0;
    }
  }

  lemma PowStep(x: real, n: nat)
    requires n > 0
    ensures Pow(x, n) == x * Pow(x, n - 1)
  {
  }

  lemma PmfClosedEnds(n: nat, p: real)
    ensures Pmf(n, 0, p) == Choose(n, 0) as real * Likelihood(n, 0, p)
    ensures Pmf(n, n, p) == Choose(n, n) as real * Likelihood(n, n, p)
  {
    hide Pmf, Choose;
    ChooseEnds(n);
    CdfOfZero(n, p);
    CdfStep(n, 0, p);
    CdfNegative(n, -1, p);
    PmfFull(n, p);
    assert Pow(p, 0) == 1.0 && Pow(1.0 - p, 0) == 1.0;
  }

  /** The textbook form: n choose k, times p^k (1-p)^(n-k). */
  lemma {:induction false} PmfClosedForm(n: nat, k: nat, p: real)
    requires k <= n
    ensures Pmf(n, k, p) == Choose(n, k) as real * Likelihood(n, k, p)
  {
    hide Mix, Likelihood, Pmf, Choose;
    if k == 0 || k == n {
      PmfClosedEnds(n, p);
    } else {
      PmfClosedForm(n - 1, k - 1, p);
      PmfClosedForm(n - 1, k, p);
      PmfPascal(n, k, p);
      LikelihoodPaths(n, k, p);
      ChooseStep(n, k);
      TwoPaths(p, Choose(n - 1, k - 1), Choose(n - 1, k), Choose(n, k),
               Likelihood(n - 1, k - 1, p), Likelihood(n - 1, k, p), Likelihood(n, k, p),
               Pmf(n - 1, k - 1, p), Pmf(n - 1, k, p), Pmf(n, k, p));
    }
  }

  /** One more failure, or one more success, in front. */
  lemma LikelihoodPaths(n: nat, k: nat, p: real)
    requires 0 < k < n
    ensures p * Likelihood(n - 1, k - 1, p) == Likelihood(n, k, p) == (1.0 - p) * Likelihood(n - 1, k, p)
  {
    hide *;
    LikelihoodIs(n, k, n - k, p);
    FailureInFront(n, k, n - k, p);
    SuccessInFront(n, k, n - k, 1.0 - p, p);
  }

  lemma FailureInFront(n: nat, k: nat, rest: nat, p: real)
    requires k > 0 && n == k + rest
    ensures p * Likelihood(n - 1, k - 1, p) == Likelihood(n, k, p)
  {
    hide Pow, Likelihood;
    PowStep(p, k);
    LikelihoodIs(n, k, rest, p);
    LikelihoodIs(n - 1, k - 1, rest, p);
    Factor(p, Pow(p, k - 1), Pow(p, k), Pow(1.0 - p, rest));
  }

  lemma SuccessInFront(n: nat, k: nat, rest: nat, c: real, p: real)
    requires rest > 0 && n == k + rest && c == 1.0 - p
    ensures c * Likelihood(n - 1, k, p) == Likelihood(n, k, p)
  {
    hide Pow, Likelihood;
    PowStep(c, rest);
    LikelihoodIs(n, k, rest, p);
    LikelihoodIs(n - 1, k, rest - 1, p);
    Factor(c, Pow(c, rest - 1), Pow(c, rest), Pow(p, k));
  }

  lemma LikelihoodIs(n: nat, k: nat, rest: nat, p: real)
    requires n == k + rest
    ensures Likelihood(n, k, p) == Pow(p, k) * Pow(1.0 - p, rest)
  {
  }

  lemma Factor(c: real, u: real, cu: real, v: real)
    requires cu == c * u
    ensures c * (u * v) == cu * v && c * (v * u) == v * cu
  {
  }

  lemma TwoPaths(p: real, x: nat, y: nat, z: nat, l1: real, l2: real, l: real, f1: real, f2: real, f: real)
    requires z == x + y && p * l1 == l && (1.0 - p) * l2 == l
    requires f1 == x as real * l1 && f2 == y as real * l2 && f == Mix(p, f1, f2)
    ensures f == z as real * l
  {
    var c, u, v := 1.0 - p, x as real, y as real;
    assert p * (u * l1) == u * (p * l1) && c * (v * l2) == v * (c * l2);
    assert z as real == u + v;
  }

  /** One entry of `terms`: lgamma(n + 1) is log n!, and log1p(-p) is log(1 - p). */
  function Term(a: Analysis, n: nat, k: nat, p: real): real
    requires k <= n
  {
    Coefficient(a, n, k) + Exponent(a, n, k, p)
  }

  function Coefficient(a: Analysis, n: nat, k: nat): real
    requires k <= n
  {
    a.log(Factorial(n) as real) - a.log(Factorial(k) as real) - a.log(Factorial(n - k) as real)
  }

  function Exponent(a: Analysis, n: nat, k: nat, p: real): real
    requires k <= n
  {
    k as real * a.log(p) + (n - k) as real * a.log(1.0 - p)
  }

  function Terms(a: Analysis, n: nat, k: nat, p: real): (ts: seq<real>)
    requires k <= n
    ensures |ts| == k + 1 && forall j :: 0 <= j <= k ==> ts[j] == Term(a, n, j, p)
  {
    seq(k + 1, j requires 0 <= j < k + 1 => Term(a, n, j, p))
  }

  function Shares(a: Analysis, ts: seq<real>, top: real): (ws: seq<real>)
    ensures |ws| == |ts| && forall j :: 0 <= j < |ts| ==> ws[j] == a.exp(ts[j] - top)
  {
    seq(|ts|, j requires 0 <= j < |ts| => a.exp(ts[j] - top))
  }

  /** The numerically guarded log of the cumulative probability: log-sum-exp around the largest term. */
  function LogCdf(a: Analysis, n: nat, k: nat, p: real): real
    requires k <= n
  {
    var ts := Terms(a, n, k, p);
    var top := MaxOf(ts);
    top + a.log(Sum(Shares(a, ts, top)))
  }

  lemma {:induction false} ChoosePositive(n: nat, k: nat)
    requires k <= n
    ensures Choose(n, k) > 0
  {
    if n > 0 {
      if k > 0 { ChoosePositive(n - 1, k - 1); } else { ChoosePositive(n - 1, k); }
    }
  }

  lemma CoefficientLog(a: Analysis, n: nat, k: nat)
    requires a.Lawful() && k <= n
    ensures Coefficient(a, n, k) == a.log(Choose(n, k) as real)
  {
    ChoosePositive(n, k);
    ChooseFactorial(n, k);
    LogQuotient(a, Factorial(n), Choose(n, k), Factorial(k), Factorial(n - k));
  }

  lemma LogQuotient(a: Analysis, t: nat, x: nat, f: nat, g: nat)
    requires a.Lawful() && x > 0 && f > 0 && g > 0 && x * (f * g) == t
    ensures a.log(t as real) - a.log(f as real) - a.log(g as real) == a.log(x as real)
  {
    var fg := f * g;
    LogMul(a, f as real, g as real, fg as real);
    assert t == x * fg;
    LogMul(a, x as real, fg as real, t as real);
  }

  lemma LikelihoodLog(a: Analysis, n: nat, k: nat, p: real)
    requires a.Lawful() && k <= n && 0.0 < p < 1.0
    ensures a.exp(Exponent(a, n, k, p)) == Likelihood(n, k, p)
  {
    var lp, lq := a.log(p), a.log(1.0 - p);
    var s, t := k as real * lp, (n - k) as real * lq;
    assert a.LogLaw(p) && a.LogLaw(1.0 - p) && a.AddLaw(s, t);
    ExpMultiple(a, lp, k, s);
    ExpMultiple(a, lq, n - k, t);
    assert Exponent(a, n, k, p) == s + t;
  }

  lemma TermIsLog(a: Analysis, n: nat, k: nat, p: real)
    requires a.Lawful() && k <= n && 0.0 < p < 1.0
    ensures a.exp(Term(a, n, k, p)) == Pmf(n, k, p) > 0.0
  {
    hide Coefficient, Exponent, Choose, Likelihood, Pmf;
    CoefficientLog(a, n, k);
    ChoosePositive(n, k);
    LikelihoodLog(a, n, k, p);
    PmfClosedForm(n, k, p);
    ExpOfLogPlus(a, Choose(n, k) as real, Exponent(a, n, k, p), Term(a, n, k, p));
  }

  lemma ExpOfLogPlus(a: Analysis, x: real, s: real, whole: real)
    requires a.Lawful() && x > 0.0 && whole == a.log(x) + s
    ensures a.exp(whole) == x * a.exp(s) && a.exp(whole) > 0.0
  {
    assert a.LogLaw(x) && a.AddLaw(a.log(x), s);
    ExpPositive(a, whole);
  }

  lemma {:induction false} SharesSum(a: Analysis, n: nat, k: nat, p: real, top: real)
    requires a.Lawful() && k <= n && 0.0 < p < 1.0
    ensures a.exp(top) * Sum(Shares(a, Terms(a, n, k, p), top)) == Cdf(n, k, p)
  {
    hide Term, Pmf;
    var share := a.exp(Term(a, n, k, p) - top);
    TermIsLog(a, n, k, p);
    assert a.AddLaw(top, Term(a, n, k, p) - top);
    assert top + (Term(a, n, k, p) - top) == Term(a, n, k, p);
    assert a.exp(top) * share == Pmf(n, k, p);
    if k == 0 {
      assert Shares(a, Terms(a, n, 0, p), top) == [share];
      CdfStep(n, 0, p);
      CdfNegative(n, -1, p);
      assert Sum([share]) == share;
    } else {
      SharesSum(a, n, k - 1, p, top);
      var before := Shares(a, Terms(a, n, k - 1, p), top);
      assert Shares(a, Terms(a, n, k, p), top) == before + [share];
      SumAppend(before, share);
      CdfStep(n, k, p);
      Distribute(a.exp(top), Sum(before), share, Cdf(n, k - 1, p), Pmf(n, k, p));
    }
  }

  lemma Distribute(e: real, s: real, x: real, es: real, ex: real)
    requires e * s == es && e * x == ex
    ensures e * (s + x) == es + ex
  {
  }

  lemma LogCdfIsLog(a: Analysis, n: nat, k: nat, p: real)
    requires a.Lawful() && k <= n && 0.0 < p < 1.0
    ensures Cdf(n, k, p) > 0.0 && LogCdf(a, n, k, p) == a.log(Cdf(n, k, p))
  {
    hide Cdf, Term;
    var ts := Terms(a, n, k, p);
    var top := MaxOf(ts);
    SharesSum(a, n, k, p, top);
    SharesPositive(a, ts, top);
    LogShift(a, top, Sum(Shares(a, ts, top)), Cdf(n, k, p));
  }

  lemma SharesPositive(a: Analysis, ts: seq<real>, top: real)
    requires a.Lawful() && ts != []
    ensures Sum(Shares(a, ts, top)) > 0.0
  {
    var shares := Shares(a, ts, top);
    forall j | 0 <= j < |shares| ensures shares[j] > 0.0 { ExpPositive(a, ts[j] - top); }
    SumPositive(shares);
  }

  lemma LogShift(a: Analysis, top: real, s: real, whole: real)
    requires a.Lawful() && s > 0.0 && a.exp(top) * s == whole
    ensures whole > 0.0 && top + a.log(s) == a.log(whole)
  {
    ExpPositive(a, top);
    LogMul(a, a.exp(top), s, whole);
    LogExp(a, top);
  }

  /** So comparing logs is comparing probabilities. */
  lemma LogCdfCompares(a: Analysis, n: nat, k: nat, p: real, alpha: real)
    requires a.Lawful() && k <= n && 0.0 < p < 1.0 && alpha > 0.0
    ensures LogCdf(a, n, k, p) > a.log(alpha) <==> Cdf(n, k, p) > alpha
  {
    LogCdfIsLog(a, n, k, p);
    LogOrder(a, alpha, Cdf(n, k, p));
  }

  // ----- The bound -----

  /** What a reported bound promises for k failures among n at the given confidence. */
  ghost predicate Bounds(n: nat, k: nat, confidence: real, u: real)
    requires k <= n
  {
    && 0.0 < u <= 1.0
    && (k == n ==> u == 1.0)
    && (k < n ==> Cdf(n, k, u) <= 1.0 - confidence)
  }

  const Resolution: real := 1.0 / TWO_TO_80

  /**
   How sharp the bisection is.  The search starts at the observed rate; if that rate is not already
   excluded, the bound minus (1 - rate) / 2^80 is still compatible with the data, and otherwise the
   bound is exactly that far above the rate.
   */
  ghost predicate Sharp(n: nat, k: nat, confidence: real, u: real)
    requires 0 < k < n
  {
    var rate := k as real / n as real;
    var width := (1.0 - rate) * Resolution;
    if Cdf(n, k, rate) > 1.0 - confidence
    then rate <= u - width && Cdf(n, k, u - width) > 1.0 - confidence
    else u == rate + width
  }

  lemma RateInRange(n: nat, k: nat)
    requires 0 < k < n
    ensures 0.0 < k as real / n as real < 1.0
  {
    DivPositive(k as real, n as real);
    DivOrder(k as real, n as real, n as real);
    ShareBounds(n as real, n as real);
  }

  /** No failures: the closed form solves (1 - u)^n = 1 - confidence exactly. */
  lemma ZeroFailures(a: Analysis, n: nat, confidence: real, x: real, u: real)
    requires a.Lawful() && n > 0 && 0.0 < confidence < 1.0
    requires x * n as real == a.log(1.0 - confidence) && u == -(a.exp(x) - 1.0)
    ensures Pow(1.0 - u, n) == 1.0 - confidence && 0.0 < u < 1.0
    ensures Cdf(n, 0, u) == 1.0 - confidence
  {
    ExpMultiple(a, x, n, a.log(1.0 - confidence));
    assert a.LogLaw(1.0 - confidence);
    ExpPositive(a, x);
    if a.exp(x) >= 1.0 { PowAtLeastOne(a.exp(x), n); }
    CdfOfZero(n, u);
  }

  lemma {:induction false} PowAtLeastOne(x: real, n: nat)
    requires x >= 1.0
    ensures Pow(x, n) >= 1.0
  {
    if n > 0 {
      PowAtLeastOne(x, n - 1);
      MulLeq(x, 1.0, Pow(x, n - 1));
    }
  }

  /** Invalid inputs are refused; every bound returned keeps both promises. */
  method BinomialUpper(a: Analysis, errors: int, count: int, confidence: real) returns (r: Option<real>)
    requires a.Lawful()
    ensures r.Some? <==> 0 <= errors <= count && 0.0 < confidence < 1.0
    ensures r.Some? ==> Bounds(count, errors, confidence, r.value)
    ensures r.Some? && errors == 0 < count ==> Pow(1.0 - r.value, count) == 1.0 - confidence
    ensures r.Some? && 0 < errors < count ==> Sharp(count, errors, confidence, r.value)
  {
    if !(0 <= errors <= count && 0.0 < confidence < 1.0) { return None; }
    if count == 0 || errors == count { return Some(1.0); }
    var alpha := 1.0 - confidence;
    if errors == 0 {
      var x := a.log(alpha) / count as real;
      ZeroFailures(a, count, confidence, x, -(a.exp(x) - 1.0));
      return Some(-(a.exp(x) - 1.0));
    }
    var u := Bisect(a, errors, count, alpha);
    r := Some(u);
  }

  method Bisect(a: Analysis, errors: nat, count: nat, alpha: real) returns (hi: real)
    requires a.Lawful() && 0 < errors < count && 0.0 < alpha < 1.0
    ensures Bounds(count, errors, 1.0 - alpha, hi) && Sharp(count, errors, 1.0 - alpha, hi)
  {
    hide Cdf, LogCdf, Pow;
    RateInRange(count, errors);
    PowOfZero(2.0);
    ghost var rate := errors as real / count as real;
    var lo := errors as real / count as real;
    hi := 1.0;
    CdfAtOne(count, errors);
    var logAlpha := a.log(alpha);
    for step := 0 to 80
      invariant rate <= lo < hi <= 1.0
      invariant Cdf(count, errors, hi) <= alpha
      invariant if Cdf(count, errors, rate) > alpha then Cdf(count, errors, lo) > alpha else lo == rate
      invariant (hi - lo) * Pow(2.0, step) == 1.0 - rate
    {
      var p := (lo + hi) / 2.0;
      if p >= 1.0 { break; }
      LogCdfCompares(a, count, errors, p, alpha);
      if Cdf(count, errors, rate) <= alpha { CdfStrictlyDecreasing(count, errors, rate, p); }
      HalvingStep(hi - lo, hi - p, step, 1.0 - rate);
      assert p - lo == hi - p;
      if LogCdf(a, count, errors, p) > logAlpha { lo := p; } else { hi := p; }
    }
    EightyHalvings();
    WidthAfter(hi - lo, 1.0 - rate);
  }

  lemma WidthAfter(width: real, start: real)
    requires width * TWO_TO_80 == start
    ensures width == start * Resolution
  {
  }

  lemma CdfAtOne(n: nat, k: nat)
    requires k < n
    ensures Cdf(n, k, 1.0) == 0.0
  {
    hide Cdf;
    CdfBounds(n, k, 1.0);
    CdfVanishes(n, k);
  }

  lemma {:induction false} CdfVanishes(n: nat, k: int)
    requires k < n
    ensures Cdf(n, k, 1.0) == 0.0
  {
    if k >= 0 {
      CdfPascal(n, k, 1.0);
      CdfVanishes(n - 1, k - 1);
    }
  }

  /** A root of the cumulative probability above the observed rate lies in the last bracket, wherever it is. */
  lemma RootIsBracketed(n: nat, k: nat, confidence: real, u: real, root: real)
    requires 0 < k < n && Bounds(n, k, confidence, u) && Sharp(n, k, confidence, u)
    requires k as real / n as real < root <= 1.0 && Cdf(n, k, root) == 1.0 - confidence
    ensures u - (1.0 - k as real / n as real) * Resolution < root <= u
  {
    hide Cdf;
    RateInRange(n, k);
    var rate := k as real / n as real;
    var low := u - (1.0 - rate) * Resolution;
    CdfStrictlyDecreasing(n, k, rate, root);
    if root > u { CdfStrictlyDecreasing(n, k, u, root); }
    if root < low { assert low < u by { MulPositive(1.0 - rate, Resolution); } CdfStrictlyDecreasing(n, k, root, low); }
  }

  /**
   The same without assuming that an exact bound exists: no rate from the bound on is compatible with the data,
   and, unless the observed rate itself is excluded, every rate up to the last bracket is.
   */
  lemma CutIsBracketed(n: nat, k: nat, confidence: real, u: real, p: real)
    requires 0 < k < n && Bounds(n, k, confidence, u) && Sharp(n, k, confidence, u) && 0.0 <= p <= 1.0
    ensures p >= u ==> Cdf(n, k, p) <= 1.0 - confidence
    ensures var rate := k as real / n as real;
      Cdf(n, k, rate) > 1.0 - confidence && p <= u - (1.0 - rate) * Resolution ==> Cdf(n, k, p) > 1.0 - confidence
  {
    hide Cdf;
    RateInRange(n, k);
    var rate := k as real / n as real;
    var low := u - (1.0 - rate) * Resolution;
    if p > u { CdfStrictlyDecreasing(n, k, u, p); }
    if Cdf(n, k, rate) > 1.0 - confidence && p < low {
      MulPositive(1.0 - rate, Resolution);
      CdfStrictlyDecreasing(n, k, p, low);
    }
  }

  /** A rate that still allows k failures with more than the error probability lies below the bound. */
  lemma BoundIsConservative(n: nat, k: nat, confidence: real, u: real, p: real)
    requires k <= n && Bounds(n, k, confidence, u) && 0.0 <= p <= 1.0 && confidence > 0.0
    requires u < p
    ensures Cdf(n, k, p) < 1.0 - confidence && k < n
  {
    hide Cdf;
    CdfStrictlyDecreasing(n, k, u, p);
  }

  // ----- Coverage -----

  /** The probability, when each group fails with probability p, of a count up to k whose bound misses p. */
  ghost function MissProbability(n: nat, k: int, p: real, bound: nat -> real): real
    decreases if k < 0 then 0 else k + 1
  {
    if k < 0 then 0.0
    else MissProbability(n, k - 1, p, bound) + if bound(k) < p then Pmf(n, k, p) else 0.0
  }

  lemma {:induction false} MissAtMostCdf(n: nat, k: int, p: real, bound: nat -> real)
    requires 0.0 <= p <= 1.0
    ensures 0.0 <= MissProbability(n, k, p, bound) <= Cdf(n, k, p)
    decreases if k < 0 then 0 else k + 1
  {
    hide Pmf;
    if k >= 0 {
      MissAtMostCdf(n, k - 1, p, bound);
      PmfNonNegative(n, k, p);
    }
  }

  lemma {:induction false} MissUpTo(n: nat, k: int, p: real, confidence: real, bound: nat -> real)
    requires 0.0 <= p <= 1.0 && 0.0 < confidence < 1.0 && k <= n
    requires forall j: nat :: j <= n ==> Bounds(n, j, confidence, bound(j))
    ensures MissProbability(n, k, p, bound) <= 1.0 - confidence
    decreases if k < 0 then 0 else k + 1
  {
    hide Pmf, Cdf, Bounds;
    if k >= 0 {
      if bound(k) < p {
        assert Bounds(n, k, confidence, bound(k));
        BoundIsConservative(n, k, confidence, bound(k), p);
        MissAtMostCdf(n, k, p, bound);
      } else {
        MissUpTo(n, k - 1, p, confidence, bound);
      }
    }
  }

  /**
   The guarantee the bound is for: whatever the true failure probability p, the bound computed from
   the observed number of failing groups falls below p with probability at most 1 - confidence.
   */
  lemma Coverage(n: nat, p: real, confidence: real, bound: nat -> real)
    requires 0.0 <= p <= 1.0 && 0.0 < confidence < 1.0
    requires forall j: nat :: j <= n ==> Bounds(n, j, confidence, bound(j))
    ensures MissProbability(n, n, p, bound) <= 1.0 - confidence
  {
    MissUpTo(n, n, p, confidence, bound);
  }

  /** The confidence `qualify` gives each of the overall bound and the family bounds. */
  function BonferroniConfidence(confidence: real, families: nat): real {
    1.0 - (1.0 - confidence) / (families + 1) as real
  }

  /** One bound per entry: group count, true failure probability, bound function. */
  datatype Claim = Claim(count: nat, risk: real, bound: nat -> real)

  ghost predicate Supports(c: Claim, confidence: real) {
    0.0 <= c.risk <= 1.0 && forall j: nat :: j <= c.count ==> Bounds(c.count, j, confidence, c.bound(j))
  }

  ghost function TotalMiss(claims: seq<Claim>): real {
    if claims == [] then 0.0
    else MissProbability(claims[0].count, claims[0].count, claims[0].risk, claims[0].bound) + TotalMiss(claims[1..])
  }

  lemma {:induction false} TotalMissBound(claims: seq<Claim>, confidence: real)
    requires 0.0 < confidence < 1.0 && forall i :: 0 <= i < |claims| ==> Supports(claims[i], confidence)
    ensures TotalMiss(claims) <= |claims| as real * (1.0 - confidence)
  {
    hide Bounds;
    if claims != [] {
      var c := claims[0];
      assert Supports(c, confidence);
      Coverage(c.count, c.risk, confidence, c.bound);
      TotalMissBound(claims[1..], confidence);
      OneMore(|claims[1..]|, |claims|, 1.0 - confidence);
    }
  }

  lemma OneMore(m: nat, n: nat, x: real)
    requires n == m + 1
    ensures n as real * x == m as real * x + x
  {
    assert n as real == m as real + 1.0;
  }

  /**
   Splitting the error over the overall bound and one bound per family keeps the whole statement at the
   requested confidence: the miss probabilities of all bounds add up to at most 1 - confidence, and each single
   confidence is one `BinomialUpper` accepts.
   */
  lemma Bonferroni(claims: seq<Claim>, confidence: real, families: nat)
    requires 0.0 < confidence < 1.0 && |claims| == families + 1
    requires forall i :: 0 <= i < |claims| ==> Supports(claims[i], BonferroniConfidence(confidence, families))
    ensures 0.0 < BonferroniConfidence(confidence, families) < 1.0
    ensures TotalMiss(claims) <= 1.0 - confidence
  {
    hide Supports;
    SplitError(1.0 - confidence, (families + 1) as real);
    TotalMissBound(claims, BonferroniConfidence(confidence, families));
  }

  lemma SplitError(error: real, n: real)
    requires 0.0 < error < 1.0 && n >= 1.0
    ensures 0.0 < error / n < 1.0 && n * (error / n) == error
  {
    var q := error / n;
    assert q * n == error;
    DivPositive(error, n);
    if q >= 1.0 { MulLeq(n, 1.0, q); }
  }
}
