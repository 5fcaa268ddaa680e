/**
 The calibration error of a report, stated from its rows alone: ten bands of confidence, and in each of them by how
 much the summed confidence exceeds the number of correct answers.
 */
module Reliability {
  import opened Elementary
  import opened Outcomes
  import opened EvaluationMetrics

  /** The i-th tenth of the unit interval; the last one includes 1. */
  ghost predicate InBand(p: real, i: nat) {
    i <= 9 && i as real <= 10.0 * p && (i < 9 ==> 10.0 * p < (i + 1) as real)
  }

  /** The bin of a confidence is the tenth it lies in. */
  lemma BinIsBand(p: real, i: nat)
    requires 0.0 <= p
    ensures BinOf(p) == i <==> InBand(p, i)
  {
    var f := (p * 10.0).Floor;
    assert f as real <= p * 10.0 < f as real + 1.0;
  }

  /** Confidence minus correctness, summed over the rows of one band. */
  ghost function Excess(rows: seq<Row>, i: nat): real
    requires AllScored(rows)
  {
    if rows == [] then 0.0
    else
      var last := rows[|rows| - 1];
      Excess(rows[..|rows| - 1], i)
      + if InBand(last.result.probability, i)
        then last.result.probability - (if last.correct then 1.0 else 0.0) else 0.0
  }

  ghost function Population(rows: seq<Row>, i: nat): nat
    requires AllScored(rows)
  {
    if rows == [] then 0
    else Population(rows[..|rows| - 1], i) + if InBand(rows[|rows| - 1].result.probability, i) then 1 else 0
  }

  ghost function Magnitude(x: real): real {
    if x < 0.0 then -x else x
  }

  /** The first k bands together. */
  ghost function TotalExcess(rows: seq<Row>, k: nat): real
    requires AllScored(rows)
  {
    if k == 0 then 0.0 else TotalExcess(rows, k - 1) + Magnitude(Excess(rows, k - 1))
  }

  lemma BinGrows(b: Bin, point: (real, bool))
    ensures BinTotal(b + [point]) == BinTotal(b) + point.0
    ensures BinCorrect(b + [point]) == BinCorrect(b) + if point.1 then 1 else 0
  {
    assert (b + [point])[..|b|] == b;
  }

  lemma {:induction false} BinIsItsBand(rows: seq<Row>, i: nat)
    requires AllScored(rows)
    ensures |BinPoints(rows, i)| == Population(rows, i)
    ensures BinTotal(BinPoints(rows, i)) - BinCorrect(BinPoints(rows, i)) as real == Excess(rows, i)
    ensures forall x :: x in BinPoints(rows, i) ==> InBand(x.0, i)
  {
    if rows != [] {
      var before, last := rows[..|rows| - 1], rows[|rows| - 1];
      BinIsItsBand(before, i);
      BinIsBand(last.result.probability, i);
      BinGrows(BinPoints(before, i), (last.result.probability, last.correct));
      hide BinOf, InBand, BinTotal, BinCorrect;
      assert BinPoints(before, i) + [] == BinPoints(before, i);
    }
  }

  lemma GapIsMagnitude(b: Bin)
    ensures BinGap(b) == Magnitude(BinTotal(b) - BinCorrect(b) as real)
  {
    hide BinTotal, BinCorrect, Distance, Magnitude;
    if b == [] {
      assert BinTotal(b) == 0.0 && BinCorrect(b) == 0 by { EmptyBin(); }
      assert Magnitude(0.0) == 0.0 by { NoMagnitude(); }
    } else {
      var n, x, y := |b| as real, BinTotal(b), BinCorrect(b) as real;
      Scale(n, x, y, x / n, y / n, BinGap(b));
    }
  }

  lemma EmptyBin()
    ensures BinTotal([]) == 0.0 && BinCorrect([]) == 0
  {
  }

  lemma NoMagnitude()
    ensures Magnitude(0.0) == 0.0
  {
  }

  lemma Scale(n: real, x: real, y: real, p: real, q: real, gap: real)
    requires n > 0.0 && p == x / n && q == y / n && gap == n * Distance(p, q)
    ensures gap == Magnitude(x - y)
  {
    assert p * n == x && q * n == y;
    assert n * (p - q) == x - y && n * (q - p) == y - x;
    if p >= q { MulLeq(n, q, p); } else { MulLess(n, p, q); }
  }

  lemma {:induction false} GapsFrom(bins: seq<Bin>, rows: seq<Row>, k: nat)
    requires AllScored(rows) && BinsFilled(rows, bins) && k <= 10
    ensures TotalExcess(rows, k) + GapTotal(bins[k..]) == TotalExcess(rows, 10)
    decreases 10 - k
  {
    hide BinPoints, Excess, BinGap, Magnitude, BinTotal, BinCorrect;
    if k < 10 {
      GapsFrom(bins, rows, k + 1);
      assert bins[k..][1..] == bins[k + 1..];
      BinIsItsBand(rows, k);
      GapIsMagnitude(bins[k]);
    }
  }

  /** What the reported figures say about the rows: the bins are the ten bands, the error is their mean excess. */
  lemma CalibrationErrorIs(rows: seq<Row>, m: Summary)
    requires Conserves(rows, m)
    ensures AllScored(ScoredRows(rows)) && |m.bins| == 10
    ensures forall i :: 0 <= i < 10 ==>
      |m.bins[i]| == Population(ScoredRows(rows), i) && forall x :: x in m.bins[i] ==> InBand(x.0, i)
    ensures m.ece.Some? <==> m.scored > 0
    ensures m.ece.Some? ==> m.ece.value * m.scored as real == TotalExcess(ScoredRows(rows), 10)
  {
    hide Totals, ClassesFilled, Occurring, F1Total, GapTotal, InBand, Population, BinPoints, ScoredRows;
    var scored := ScoredRows(rows);
    forall i | 0 <= i < 10
      ensures |m.bins[i]| == Population(scored, i) && forall x :: x in m.bins[i] ==> InBand(x.0, i)
    {
      BinIsItsBand(scored, i);
    }
    GapsFrom(m.bins, scored, 0);
    assert m.bins[0..] == m.bins;
    if m.scored > 0 { Quotient(GapTotal(m.bins), m.scored as real); }
  }

  lemma Quotient(x: real, y: real)
    requires y > 0.0
    ensures (x / y) * y == x
  {
  }
}
