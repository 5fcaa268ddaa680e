/** `probabilities` of the wire contracts: a temperature-scaled softmax over the allowed options. */
module Softmax {
  import opened Elementary
  import opened Outcomes

  function MaxOf(v: seq<real>): (m: real)
    requires v != []
    ensures m in v
    ensures forall i :: 0 <= i < |v| ==> v[i] <= m
  {
    if |v| == 1 then v[0]
    else
      var rest := MaxOf(v[1..]);
      if rest <= v[0] then v[0] else rest
  }

  function Sum(s: seq<real>): real {
    if s == [] then 0.0 else s[0] + Sum(s[1..])
  }

  /** exp(beta * z); `beta` is the inverse temperature. */
  function Weight(a: Analysis, z: real, beta: real): real {
    a.exp(z * beta)
  }

  function Weights(a: Analysis, zs: seq<real>, beta: real): (ws: seq<real>)
    ensures |ws| == |zs|
    ensures forall i :: 0 <= i < |zs| ==> ws[i] == Weight(a, zs[i], beta)
  {
    seq(|zs|, i requires 0 <= i < |zs| => Weight(a, zs[i], beta))
  }

  function Shifted(v: seq<real>, d: real): (zs: seq<real>)
    ensures |zs| == |v|
    ensures forall i :: 0 <= i < |v| ==> zs[i] == v[i] - d
  {
    seq(|v|, i requires 0 <= i < |v| => v[i] - d)
  }

  function Scaled(ws: seq<real>, total: real): (ps: seq<real>)
    requires total != 0.0
    ensures |ps| == |ws|
    ensures forall i :: 0 <= i < |ws| ==> ps[i] == ws[i] / total
  {
    seq(|ws|, i requires 0 <= i < |ws| => ws[i] / total)
  }

  /**
   The guards of the code in its order: wrong length, non-positive temperature, and the empty vector,
   on which `max` raises.  Over the reals every score is finite.
   */
  function Probabilities(a: Analysis, logits: seq<real>, count: nat, temperature: real): (r: Result<seq<real>, Code>)
    requires a.Lawful()
    ensures r.Success? <==> |logits| == count > 0 && temperature > 0.0
    ensures r.Failure? ==> r.error == InvalidScores
    ensures r.Success? ==> |r.value| == |logits|
  {
    if |logits| != count || temperature <= 0.0 || logits == [] then Failure(InvalidScores)
    else
      var weights := Weights(a, Shifted(logits, MaxOf(logits)), 1.0 / temperature);
      WeightsPositive(a, Shifted(logits, MaxOf(logits)), 1.0 / temperature);
      Success(Scaled(weights, Sum(weights)))
  }

  lemma {:induction false} SumPositive(s: seq<real>)
    requires forall i :: 0 <= i < |s| ==> s[i] > 0.0
    ensures s == [] ==> Sum(s) == 0.0
    ensures s != [] ==> Sum(s) > 0.0
    ensures forall i :: 0 <= i < |s| ==> s[i] <= Sum(s)
  {
    if s != [] {
      SumPositive(s[1..]);
      forall i | 0 <= i < |s| ensures s[i] <= Sum(s) {
        if i > 0 { assert s[i] == s[1..][i - 1]; }
      }
    }
  }

  lemma {:induction false} SumAppend(s: seq<real>, x: real)
    ensures Sum(s + [x]) == Sum(s) + x
  {
    if s != [] {
      SumAppend(s[1..], x);
      assert (s + [x])[1..] == s[1..] + [x];
    }
  }

  lemma {:induction false} SumScaled(s: seq<real>, total: real)
    requires total != 0.0
    ensures Sum(Scaled(s, total)) == Sum(s) / total
  {
    if s != [] {
      assert Scaled(s, total)[1..] == Scaled(s[1..], total);
      SumScaled(s[1..], total);
      assert s[0] / total + Sum(s[1..]) / total == (s[0] + Sum(s[1..])) / total;
    }
  }

  lemma {:induction false} SumMonotone(s: seq<real>, t: seq<real>)
    requires |s| == |t| && forall i :: 0 <= i < |s| ==> s[i] <= t[i]
    ensures Sum(s) <= Sum(t)
  {
    if s != [] { SumMonotone(s[1..], t[1..]); }
  }

  lemma WeightsPositive(a: Analysis, zs: seq<real>, beta: real)
    requires a.Lawful()
    ensures forall i :: 0 <= i < |zs| ==> Weights(a, zs, beta)[i] > 0.0
    ensures zs != [] ==> Sum(Weights(a, zs, beta)) > 0.0
  {
    forall i | 0 <= i < |zs| ensures Weight(a, zs[i], beta) > 0.0 { ExpPositive(a, zs[i] * beta); }
    SumPositive(Weights(a, zs, beta));
  }

  lemma WeightsTail(a: Analysis, zs: seq<real>, beta: real)
    requires zs != []
    ensures Weights(a, zs, beta)[1..] == Weights(a, zs[1..], beta)
  {
  }

  /** The result is a probability distribution with no zero entry. */
  lemma ProbabilitiesAreADistribution(a: Analysis, logits: seq<real>, temperature: real)
    requires a.Lawful() && logits != [] && temperature > 0.0
    ensures var ps := Probabilities(a, logits, |logits|, temperature).value;
      Sum(ps) == 1.0 && forall i :: 0 <= i < |ps| ==> 0.0 < ps[i] <= 1.0
  {
    var zs, beta := Shifted(logits, MaxOf(logits)), 1.0 / temperature;
    WeightsPositive(a, zs, beta);
    var ws := Weights(a, zs, beta);
    SharesAreADistribution(ws);
  }

  lemma SharesAreADistribution(ws: seq<real>)
    requires ws != [] && forall i :: 0 <= i < |ws| ==> ws[i] > 0.0
    ensures Sum(ws) > 0.0 && Sum(Scaled(ws, Sum(ws))) == 1.0
    ensures forall i :: 0 <= i < |ws| ==> 0.0 < Scaled(ws, Sum(ws))[i] <= 1.0
  {
    var total := Sum(ws);
    SumPositive(ws);
    SumScaled(ws, total);
    ShareBounds(total, total);
    forall i | 0 <= i < |ws| ensures 0.0 < Scaled(ws, total)[i] <= 1.0 { ShareBounds(ws[i], total); }
  }

  lemma ShareBounds(w: real, total: real)
    requires 0.0 < w <= total
    ensures 0.0 < w / total <= 1.0 && (w == total ==> w / total == 1.0)
  {
    var q := w / total;
    assert q * total == w;
    DivPositive(w, total);
    if q > 1.0 { MulLess(total, 1.0, q); }
    assert w == total ==> (q - 1.0) * total == 0.0;
  }

  /** A positive temperature never reorders options: probabilities compare exactly as logits do. */
  lemma ProbabilitiesKeepOrder(a: Analysis, logits: seq<real>, temperature: real, i: nat, j: nat)
    requires a.Lawful() && i < |logits| && j < |logits| && temperature > 0.0
    ensures var ps := Probabilities(a, logits, |logits|, temperature).value;
      (ps[i] < ps[j] <==> logits[i] < logits[j]) && (ps[i] <= ps[j] <==> logits[i] <= logits[j])
  {
    var zs, beta := Shifted(logits, MaxOf(logits)), 1.0 / temperature;
    DivPositive(1.0, temperature);
    WeightsPositive(a, zs, beta);
    WeightOrder(a, zs[i], zs[j], beta);
    DivOrder(Weight(a, zs[i], beta), Weight(a, zs[j], beta), Sum(Weights(a, zs, beta)));
  }

  lemma WeightOrder(a: Analysis, x: real, y: real, beta: real)
    requires a.Lawful() && beta > 0.0
    ensures Weight(a, x, beta) < Weight(a, y, beta) <==> x < y
    ensures Weight(a, x, beta) <= Weight(a, y, beta) <==> x <= y
  {
    ExpOrder(a, x * beta, y * beta);
    if x < y { MulLess(beta, x, y); }
    if y < x { MulLess(beta, y, x); }
  }
}
