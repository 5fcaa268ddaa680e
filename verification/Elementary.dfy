/**
 The two transcendental functions the runtime takes from Python's `math` module.  They enter the
 model as parameters: every result that needs them assumes three laws and nothing else.  All other
 facts about `exp` and `log` used in the project are derived here.
 */
module Elementary {

  datatype Analysis = Analysis(exp: real -> real, log: real -> real) {

    ghost predicate AddLaw(x: real, y: real) {
      exp(x + y) == exp(x) * exp(y)
    }

    ghost predicate TangentLaw(x: real) {
      exp(x) >= 1.0 + x
    }

    ghost predicate LogLaw(y: real) {
      y > 0.0 ==> exp(log(y)) == y
    }

    /** The assumptions: the functional equation, the tangent at 0, and `log` as a right inverse. */
    ghost predicate Lawful() {
      && (forall x, y :: AddLaw(x, y))
      && (forall x :: TangentLaw(x))
      && (forall y :: LogLaw(y))
    }
  }

  lemma ExpZero(a: Analysis)
    requires a.Lawful()
    ensures a.exp(0.0) == 1.0
  {
    assert a.AddLaw(0.0, 0.0);
    assert a.TangentLaw(0.0);
    var e := a.exp(0.0);
    assert e * (e - 1.0) == 0.0;
  }

  lemma ExpPositive(a: Analysis, x: real)
    requires a.Lawful()
    ensures a.exp(x) > 0.0
  {
    var h := x / 2.0;
    assert x == h + h;
    assert a.AddLaw(h, h);
    assert a.exp(x) == a.exp(h) * a.exp(h) >= 0.0;
    ExpZero(a);
    assert a.AddLaw(x, -x);
    assert x + -x == 0.0;
  }

  lemma ExpIncreasing(a: Analysis, x: real, y: real)
    requires a.Lawful() && x < y
    ensures a.exp(x) < a.exp(y)
  {
    ExpPositive(a, x);
    var d := y - x;
    assert a.AddLaw(x, d) && a.TangentLaw(d);
    assert x + d == y;
    MulLess(a.exp(x), 1.0, a.exp(d));
  }

  /** Order is both preserved and reflected. */
  lemma ExpOrder(a: Analysis, x: real, y: real)
    requires a.Lawful()
    ensures x < y <==> a.exp(x) < a.exp(y)
    ensures x <= y <==> a.exp(x) <= a.exp(y)
  {
    if x < y { ExpIncreasing(a, x, y); }
    if y < x { ExpIncreasing(a, y, x); }
  }

  lemma LogExp(a: Analysis, x: real)
    requires a.Lawful()
    ensures a.log(a.exp(x)) == x
  {
    ExpPositive(a, x);
    assert a.LogLaw(a.exp(x));
    ExpOrder(a, a.log(a.exp(x)), x);
    ExpOrder(a, x, a.log(a.exp(x)));
  }

  lemma LogOrder(a: Analysis, x: real, y: real)
    requires a.Lawful() && x > 0.0 && y > 0.0
    ensures x < y <==> a.log(x) < a.log(y)
    ensures x <= y <==> a.log(x) <= a.log(y)
  {
    assert a.LogLaw(x) && a.LogLaw(y);
    ExpOrder(a, a.log(x), a.log(y));
  }

  lemma LogMul(a: Analysis, x: real, y: real, z: real)
    requires a.Lawful() && x > 0.0 && y > 0.0 && z == x * y
    ensures z > 0.0 && a.log(z) == a.log(x) + a.log(y)
  {
    var lx, ly := a.log(x), a.log(y);
    assert a.LogLaw(x) && a.LogLaw(y) && a.AddLaw(lx, ly);
    assert a.exp(lx + ly) == z;
    ExpPositive(a, lx + ly);
    LogExp(a, lx + ly);
  }

  lemma LogDiv(a: Analysis, x: real, y: real, z: real)
    requires a.Lawful() && x > 0.0 && y > 0.0 && z == x / y
    ensures z > 0.0 && a.log(z) == a.log(x) - a.log(y)
  {
    DivPositive(x, y);
    LogMul(a, z, y, x);
  }

  // Order facts about products, stated once so that proofs do not search for them.

  lemma MulLess(c: real, x: real, y: real)
    requires c > 0.0 && x < y
    ensures c * x < c * y
  {
    assert c * (y - x) > 0.0;
  }

  lemma MulLeq(c: real, x: real, y: real)
    requires c >= 0.0 && x <= y
    ensures c * x <= c * y
  {
    assert c * (y - x) >= 0.0;
  }

  lemma MulPositive(x: real, y: real)
    requires x >= 0.0 && y >= 0.0
    ensures x * y >= 0.0
    ensures x > 0.0 && y > 0.0 ==> x * y > 0.0
  {
  }

  lemma DivPositive(x: real, y: real)
    requires x > 0.0 && y > 0.0
    ensures x / y > 0.0
  {
    assert (x / y) * y == x;
    if x / y <= 0.0 { MulLeq(y, x / y, 0.0); }
  }

  lemma DivLeq(x: real, y: real, c: real)
    requires c > 0.0 && x <= y
    ensures x / c <= y / c
  {
    var p, q := x / c, y / c;
    assert p * c == x && q * c == y;
    if q < p { assert false by { MulLess(c, q, p); } }
  }

  /** Division by a positive number keeps and reflects order. */
  lemma DivOrder(x: real, y: real, c: real)
    requires c > 0.0
    ensures x < y <==> x / c < y / c
    ensures x <= y <==> x / c <= y / c
  {
    if x <= y { DivLeq(x, y, c); }
    if y <= x { DivLeq(y, x, c); }
    var p, q := x / c, y / c;
    assert p * c == x && q * c == y;
  }

  function Pow(x: real, n: nat): real {
    if n == 0 then 1.0 else x * Pow(x, n - 1)
  }

  lemma {:induction false} PowPositive(x: real, n: nat)
    requires x > 0.0
    ensures Pow(x, n) > 0.0
  {
    if n > 0 { PowPositive(x, n - 1); }
  }

  lemma {:induction false} PowAdd(x: real, m: nat, n: nat)
    ensures Pow(x, m + n) == Pow(x, m) * Pow(x, n)
  {
    if m > 0 { PowAdd(x, m - 1, n); }
  }

  const TWO_TO_80 := 1208925819614629174706176.0

  lemma PowOfZero(x: real)
    ensures Pow(x, 0) == 1.0
  {
  }

  /** One halving of an interval whose width times 2^step is known. */
  lemma HalvingStep(width: real, half: real, step: nat, total: real)
    requires width * Pow(2.0, step) == total && half == width / 2.0
    ensures half * Pow(2.0, step + 1) == total
  {
    var q := Pow(2.0, step);
    assert Pow(2.0, step + 1) == 2.0 * q;
    assert half * (2.0 * q) == (half * 2.0) * q;
  }

  /** The factor by which the 80 halvings of both bisection loops shrink their interval. */
  lemma EightyHalvings()
    ensures Pow(2.0, 80) == TWO_TO_80 && Pow(2.0, 81) == 2.0 * TWO_TO_80
  {
    assert Pow(2.0, 5) == 32.0 by { assert Pow(2.0, 3) == 8.0; }
    PowAdd(2.0, 5, 5);
    PowAdd(2.0, 10, 10);
    PowAdd(2.0, 20, 20);
    PowAdd(2.0, 40, 40);
  }

  /** exp turns multiples into powers. */
  lemma {:induction false} ExpMultiple(a: Analysis, x: real, n: nat, whole: real)
    requires a.Lawful() && whole == n as real * x
    ensures a.exp(whole) == Pow(a.exp(x), n)
  {
    if n == 0 {
      assert whole == 0.0;
      ExpZero(a);
    } else {
      var rest := (n - 1) as real * x;
      ExpMultiple(a, x, n - 1, rest);
      assert a.AddLaw(x, rest);
      assert whole == x + rest;
    }
  }
}
