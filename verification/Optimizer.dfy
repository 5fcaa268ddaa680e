/**
 The one-dimensional search of `fit_temperature`, stated for any objective that lies above its
 tangents: a clamp at either end of [0.05, 20], or eighty halvings of a sign-change bracket.
 */
module Optimizer {
  import opened Elementary

  const LOWEST := 0.05
  const HIGHEST := 20.0
  const STEPS: nat := 80
  const SLACK := 1.0e-10

  datatype Objective = Objective(loss: real -> real, slope: real -> real) {

    ghost predicate Tangent(x: real, y: real) {
      loss(y) >= loss(x) + (y - x) * slope(x)
    }

    ghost predicate Convex() {
      forall x, y :: Tangent(x, y)
    }

    ghost predicate SlopeWithin(r: real, x: real) {
      -r <= slope(x) <= r
    }

    ghost predicate Steepness(r: real) {
      forall x :: SlopeWithin(r, x)
    }
  }

  /** The slope never decreases; the bisection relies on this. */
  lemma SlopeMonotone(o: Objective, x: real, y: real)
    requires o.Convex() && x <= y
    ensures o.slope(x) <= o.slope(y)
  {
    if x < y {
      assert o.Tangent(x, y) && o.Tangent(y, x);
      var p, q := o.slope(x), o.slope(y);
      if q < p { MulLess(y - x, q, p); }
    }
  }

  lemma ProductBound(h: real, g: real, w: real, r: real)
    requires -w <= h <= w && -r <= g <= r
    ensures h * g <= w * r
  {
    // (w - h)(r + g) >= 0 and (w + h)(r - g) >= 0; their sum is 2wr - 2hg.
    MulLeq(w - h, 0.0, r + g);
    MulLeq(w + h, 0.0, r - g);
  }

  /** To the right of a point where the slope is not negative nothing is better; likewise to the left. */
  lemma NothingBetterBeyond(o: Objective, x: real, b: real)
    requires o.Convex() && (b - x) * o.slope(x) >= 0.0
    ensures o.loss(x) <= o.loss(b)
  {
    assert o.Tangent(x, b);
  }

  /** Clamping any point into a sign-change bracket does not increase the loss. */
  lemma ClampIsNoWorse(o: Objective, lo: real, hi: real, b: real) returns (c: real)
    requires o.Convex() && lo <= hi && o.slope(lo) <= 0.0 <= o.slope(hi)
    ensures lo <= c <= hi && (lo <= b <= hi ==> c == b)
    ensures o.loss(c) <= o.loss(b)
  {
    c := if b < lo then lo else if b > hi then hi else b;
    if b < lo {
      MulLeq(lo - b, o.slope(lo), 0.0);
      NothingBetterBeyond(o, lo, b);
    } else if b > hi {
      MulLeq(b - hi, 0.0, o.slope(hi));
      NothingBetterBeyond(o, hi, b);
    }
  }

  /** Any point of a sign-change bracket is as good as every other point, up to width times steepness. */
  lemma BracketIsOptimal(o: Objective, r: real, lo: real, hi: real, beta: real, b: real)
    requires o.Convex() && o.Steepness(r)
    requires lo <= beta <= hi && o.slope(lo) <= 0.0 <= o.slope(hi)
    ensures o.loss(beta) <= o.loss(b) + (hi - lo) * r
  {
    var c := ClampIsNoWorse(o, lo, hi, b);
    assert o.Tangent(beta, c) && o.SlopeWithin(r, beta);
    ProductBound(beta - c, o.slope(beta), hi - lo, r);
  }

  /**
   How the search can end.  `AtOne`: the slope at 1 is negligible.  A clamp: the slope has one sign on
   the whole range.  `Inside`: `beta` is the middle of a sign-change bracket of width 19.95 / 2^80.
   */
  datatype Exit = AtOne | AtLowest | AtHighest | Inside

  const HALF_WIDTH := 19.95 / (2.0 * TWO_TO_80)

  ghost predicate ExitHolds(o: Objective, exit: Exit, beta: real) {
    match exit
    case AtOne => beta == 1.0 && -1.0e-12 < o.slope(1.0) < 1.0e-12
    case AtLowest => beta == LOWEST && o.slope(LOWEST) >= 0.0
    case AtHighest => beta == HIGHEST && o.slope(HIGHEST) <= 0.0
    case Inside => LOWEST < beta < HIGHEST && o.slope(beta - HALF_WIDTH) < 0.0 <= o.slope(beta + HALF_WIDTH)
  }

  method Minimise(o: Objective) returns (beta: real, ghost exit: Exit)
    requires o.Convex()
    ensures LOWEST <= beta <= HIGHEST && ExitHolds(o, exit, beta)
  {
    hide Pow, Objective.Convex;
    var lo, hi := LOWEST, HIGHEST;
    var atOne := o.slope(1.0);
    if -1.0e-12 < atOne < 1.0e-12 {
      return 1.0, AtOne;
    } else if o.slope(lo) >= 0.0 {
      return lo, AtLowest;
    } else if o.slope(hi) <= 0.0 {
      return hi, AtHighest;
    }
    PowOfZero(2.0);
    for step := 0 to STEPS
      invariant LOWEST <= lo < hi <= HIGHEST
      invariant o.slope(lo) < 0.0 <= o.slope(hi)
      invariant (hi - lo) * Pow(2.0, step) == 19.95
    {
      var mid := (lo + hi) / 2.0;
      HalvingStep(hi - lo, hi - mid, step, 19.95);
      assert mid - lo == hi - mid;
      if o.slope(mid) < 0.0 { lo := mid; } else { hi := mid; }
    }
    HalfWidth(hi - lo);
    beta, exit := (lo + hi) / 2.0, Inside;
    assert beta - HALF_WIDTH == lo && beta + HALF_WIDTH == hi;
  }

  lemma HalfWidth(width: real)
    requires width * Pow(2.0, STEPS) == 19.95
    ensures HALF_WIDTH == width / 2.0
  {
    EightyHalvings();
  }

  /** Every exit is optimal on the whole range up to 1e-10, provided the slope never exceeds 2e6. */
  lemma ExitIsOptimal(o: Objective, exit: Exit, beta: real, b: real)
    requires o.Convex() && o.Steepness(2.0e6) && ExitHolds(o, exit, beta)
    requires LOWEST <= b <= HIGHEST
    ensures o.loss(beta) <= o.loss(b) + SLACK
  {
    match exit
    case AtOne =>
      assert o.Tangent(1.0, b);
      ProductBound(1.0 - b, o.slope(1.0), 19.0, 1.0e-12);
    case AtLowest =>
      MulLeq(b - beta, 0.0, o.slope(beta));
      NothingBetterBeyond(o, beta, b);
    case AtHighest =>
      MulLeq(beta - b, o.slope(beta), 0.0);
      NothingBetterBeyond(o, beta, b);
    case Inside =>
      var w := HALF_WIDTH;
      BracketIsOptimal(o, 2.0e6, beta - w, beta + w, beta, b);
  }

  /**
   An inside exit lies within 19.95 / 2^81 of a point at least as good as any given `b`, wherever `b`
   is; so if a minimiser exists at all, one lies that close.
   */
  lemma InsideIsNearAMinimiser(o: Objective, beta: real, b: real) returns (c: real)
    requires o.Convex() && ExitHolds(o, Inside, beta)
    ensures beta - HALF_WIDTH <= c <= beta + HALF_WIDTH && o.loss(c) <= o.loss(b)
  {
    c := ClampIsNoWorse(o, beta - HALF_WIDTH, beta + HALF_WIDTH, b);
  }

  ghost predicate IsExit(o: Objective, beta: real) {
    exists exit :: ExitHolds(o, exit, beta)
  }

  /**
   Unless the search stopped at 1 or at an end of the range, the slope is negative everywhere below the bracket of
   half width 19.95 / 2^81 around the result and not negative anywhere above, and for every b some point of the
   bracket is at least as good.
   */
  lemma ResultBracketsOptimum(o: Objective, beta: real, b: real) returns (c: real)
    requires o.Convex() && IsExit(o, beta) && beta != 1.0 && beta != LOWEST && beta != HIGHEST
    ensures b <= beta - HALF_WIDTH ==> o.slope(b) < 0.0
    ensures b >= beta + HALF_WIDTH ==> o.slope(b) >= 0.0
    ensures beta - HALF_WIDTH <= c <= beta + HALF_WIDTH && o.loss(c) <= o.loss(b)
  {
    var exit :| ExitHolds(o, exit, beta);
    hide Objective.Convex;
    if b <= beta - HALF_WIDTH { SlopeMonotone(o, b, beta - HALF_WIDTH); }
    if b >= beta + HALF_WIDTH { SlopeMonotone(o, beta + HALF_WIDTH, b); }
    c := InsideIsNearAMinimiser(o, beta, b);
  }
}
