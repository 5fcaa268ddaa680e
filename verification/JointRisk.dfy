/**
 What the split confidence of `qualify` buys.  The overall bound and the family bounds are computed from the same
 failing groups, so they are dependent; whatever that dependence is, the chance that any of them misses is bounded,
 and with it the chance that groups whose true risk is too high clear the risk gate.
 */
module JointRisk {
  import opened Elementary
  import opened Binomial

  /** One point of a finite sample space: its probability, and the groups that fail. */
  datatype Draw = Draw(chance: real, failing: set<string>)

  /** The groups one bound is computed from, and the risk it is compared with. */
  datatype Part = Part(groups: set<string>, risk: real)

  ghost function Chance(space: seq<Draw>, event: Draw -> bool): real {
    if space == [] then 0.0
    else Chance(space[..|space| - 1], event) + if event(space[|space| - 1]) then space[|space| - 1].chance else 0.0
  }

  // ----- Events -----

  ghost function Failed(groups: set<string>, d: Draw): (n: nat)
    ensures n <= |groups|
  {
    Within(d.failing, groups);
    |d.failing * groups|
  }

  lemma Within<T>(s: set<T>, t: set<T>)
    ensures |s * t| <= |t|
  {
    assert t == s * t + (t - s);
  }

  ghost function AtMost(groups: set<string>, k: int): Draw -> bool {
    (d: Draw) => Failed(groups, d) <= k
  }

  ghost predicate Misses(p: Part, bound: (nat, nat) -> real, d: Draw) {
    bound(|p.groups|, Failed(p.groups, d)) < p.risk
  }

  ghost function MissesUpTo(p: Part, bound: (nat, nat) -> real, k: int): Draw -> bool {
    (d: Draw) => Misses(p, bound, d) && Failed(p.groups, d) <= k
  }

  /** Some bound from the k-th on is below the true risk. */
  ghost function AnyMiss(parts: seq<Part>, bound: (nat, nat) -> real, k: nat): Draw -> bool {
    (d: Draw) => exists i :: k <= i < |parts| && Misses(parts[i], bound, d)
  }

  ghost predicate Cleared(p: Part, bound: (nat, nat) -> real, maximum: real, d: Draw) {
    bound(|p.groups|, Failed(p.groups, d)) <= maximum
  }

  /** The bound of one part is small enough for the gate. */
  ghost function Clears(p: Part, bound: (nat, nat) -> real, maximum: real): Draw -> bool {
    (d: Draw) => Cleared(p, bound, maximum, d)
  }

  /** Some bound is small enough for the gate although the true risk is not. */
  ghost function UnsafeCleared(parts: seq<Part>, bound: (nat, nat) -> real, maximum: real): Draw -> bool {
    (d: Draw) => exists i :: 0 <= i < |parts| && parts[i].risk > maximum && Cleared(parts[i], bound, maximum, d)
  }

  // ----- Chances -----

  ghost predicate NonNegative(space: seq<Draw>) {
    forall d :: d in space ==> d.chance >= 0.0
  }

  lemma {:induction false} UnionOfTwo(space: seq<Draw>, e: Draw -> bool, f: Draw -> bool, g: Draw -> bool)
    requires NonNegative(space) && forall d :: d in space && e(d) ==> f(d) || g(d)
    ensures Chance(space, e) <= Chance(space, f) + Chance(space, g)
  {
    if space != [] {
      assert space[|space| - 1] in space;
      UnionOfTwo(space[..|space| - 1], e, f, g);
    }
  }

  lemma {:induction false} Smaller(space: seq<Draw>, e: Draw -> bool, f: Draw -> bool)
    requires NonNegative(space) && forall d :: d in space && e(d) ==> f(d)
    ensures Chance(space, e) <= Chance(space, f)
  {
    if space != [] {
      assert space[|space| - 1] in space;
      Smaller(space[..|space| - 1], e, f);
    }
  }

  lemma {:induction false} Impossible(space: seq<Draw>, e: Draw -> bool)
    requires forall d :: d in space ==> !e(d)
    ensures Chance(space, e) == 0.0
  {
    if space != [] {
      assert space[|space| - 1] in space;
      Impossible(space[..|space| - 1], e);
    }
  }

  // ----- One bound -----

  /** `bound(n, k)` is a bound for k failures among n at this confidence. */
  ghost predicate IsBound(bound: (nat, nat) -> real, confidence: real) {
    forall n: nat, k: nat :: k <= n ==> Bounds(n, k, confidence, bound(n, k))
  }

  /**
   Few failures are no likelier than for independent groups that each fail with probability `p.risk`.  Groups of this
   or any larger risk are like that (`IndependentTail`); how the parts depend on each other is left open.
   */
  ghost predicate LowTail(space: seq<Draw>, p: Part) {
    && 0.0 <= p.risk <= 1.0
    && forall k: nat :: k <= |p.groups| ==> Chance(space, AtMost(p.groups, k)) <= Cdf(|p.groups|, k, p.risk)
  }

  lemma {:induction false} MissUpToIsUnlikely(space: seq<Draw>, p: Part, bound: (nat, nat) -> real, confidence: real,
                                              k: int)
    requires NonNegative(space) && LowTail(space, p) && IsBound(bound, confidence) && 0.0 < confidence < 1.0
    requires k <= |p.groups|
    ensures Chance(space, MissesUpTo(p, bound, k)) <= 1.0 - confidence
    decreases if k < 0 then 0 else k + 1
  {
    hide Chance, Cdf, Bounds;
    var n := |p.groups|;
    if k < 0 {
      Impossible(space, MissesUpTo(p, bound, k));
    } else if bound(n, k) < p.risk {
      assert Bounds(n, k, confidence, bound(n, k));
      BoundIsConservative(n, k, confidence, bound(n, k), p.risk);
      Smaller(space, MissesUpTo(p, bound, k), AtMost(p.groups, k));
    } else {
      MissUpToIsUnlikely(space, p, bound, confidence, k - 1);
      Smaller(space, MissesUpTo(p, bound, k), MissesUpTo(p, bound, k - 1));
    }
  }

  /** Clearing the gate with too high a true risk is a miss, so it is as unlikely. */
  lemma UnsafeClearsRarely(space: seq<Draw>, p: Part, bound: (nat, nat) -> real, confidence: real, maximum: real)
    requires NonNegative(space) && LowTail(space, p) && IsBound(bound, confidence) && 0.0 < confidence < 1.0
    requires p.risk > maximum
    ensures Chance(space, Clears(p, bound, maximum)) <= 1.0 - confidence
  {
    hide Chance, Cdf, Bounds, LowTail, IsBound;
    MissUpToIsUnlikely(space, p, bound, confidence, |p.groups|);
    Smaller(space, Clears(p, bound, maximum), MissesUpTo(p, bound, |p.groups|));
  }

  // ----- All bounds together -----

  ghost predicate Joint(space: seq<Draw>, parts: seq<Part>) {
    NonNegative(space) && forall i :: 0 <= i < |parts| ==> LowTail(space, parts[i])
  }

  /** The union bound, whatever the dependence. */
  lemma {:induction false} UnionBound(space: seq<Draw>, parts: seq<Part>, bound: (nat, nat) -> real, confidence: real,
                                      k: nat)
    requires Joint(space, parts) && IsBound(bound, confidence) && 0.0 < confidence < 1.0 && k <= |parts|
    ensures Chance(space, AnyMiss(parts, bound, k)) <= (|parts| - k) as real * (1.0 - confidence)
    decreases |parts| - k
  {
    hide Chance, IsBound, LowTail;
    if k == |parts| {
      Impossible(space, AnyMiss(parts, bound, k));
    } else {
      var p := parts[k];
      UnionBound(space, parts, bound, confidence, k + 1);
      MissUpToIsUnlikely(space, p, bound, confidence, |p.groups|);
      UnionOfTwo(space, AnyMiss(parts, bound, k), MissesUpTo(p, bound, |p.groups|), AnyMiss(parts, bound, k + 1));
      OneMore(|parts| - (k + 1), |parts| - k, 1.0 - confidence);
    }
  }

  /** With the split confidence all bounds hold together at the requested confidence. */
  lemma AnyMissIsUnlikely(space: seq<Draw>, parts: seq<Part>, bound: (nat, nat) -> real, confidence: real,
                          families: nat)
    requires 0.0 < confidence < 1.0 && |parts| == families + 1 && Joint(space, parts)
    requires IsBound(bound, BonferroniConfidence(confidence, families))
    ensures Chance(space, AnyMiss(parts, bound, 0)) <= 1.0 - confidence
  {
    hide Chance, IsBound, Joint;
    SplitError(1.0 - confidence, (families + 1) as real);
    UnionBound(space, parts, bound, BonferroniConfidence(confidence, families), 0);
  }

  /** So it is unlikely that any unsafe part clears the gate. */
  lemma AnyUnsafeClearsRarely(space: seq<Draw>, parts: seq<Part>, bound: (nat, nat) -> real, confidence: real,
                              families: nat, maximum: real)
    requires 0.0 < confidence < 1.0 && |parts| == families + 1 && Joint(space, parts)
    requires IsBound(bound, BonferroniConfidence(confidence, families))
    ensures Chance(space, UnsafeCleared(parts, bound, maximum)) <= 1.0 - confidence
  {
    hide Chance, IsBound, LowTail;
    AnyMissIsUnlikely(space, parts, bound, confidence, families);
    forall d | d in space && UnsafeCleared(parts, bound, maximum)(d) ensures AnyMiss(parts, bound, 0)(d) {
      var i :| 0 <= i < |parts| && parts[i].risk > maximum && Cleared(parts[i], bound, maximum, d);
      assert Misses(parts[i], bound, d);
    }
    Smaller(space, UnsafeCleared(parts, bound, maximum), AnyMiss(parts, bound, 0));
  }

  // ----- Independent groups -----

  ghost function Share(q: real, x: real): real {
    q * x
  }

  /** The draws of `space`, with probability q and more groups failing. */
  ghost function Scaled(space: seq<Draw>, q: real, more: set<string>): seq<Draw> {
    if space == [] then []
    else
      var d := space[|space| - 1];
      Scaled(space[..|space| - 1], q, more) + [Draw(Share(q, d.chance), d.failing + more)]
  }

  /** Each group fails by itself, with its own probability. */
  ghost function Independent(groups: seq<string>, risk: string -> real): seq<Draw> {
    if groups == [] then [Draw(1.0, {})]
    else
      var g, before := groups[|groups| - 1], Independent(groups[..|groups| - 1], risk);
      Scaled(before, 1.0 - risk(g), {}) + Scaled(before, risk(g), {g})
  }

  ghost predicate Distinct(groups: seq<string>) {
    forall i, j :: 0 <= i < j < |groups| ==> groups[i] != groups[j]
  }

  ghost predicate AreRisks(groups: seq<string>, risk: string -> real) {
    forall g :: g in groups ==> 0.0 <= risk(g) <= 1.0
  }

  ghost function Members(groups: seq<string>): set<string> {
    set g | g in groups
  }

  ghost function Sure(): Draw -> bool {
    (d: Draw) => true
  }

  lemma {:induction false} ChanceOfBoth(s: seq<Draw>, t: seq<Draw>, e: Draw -> bool)
    ensures Chance(s + t, e) == Chance(s, e) + Chance(t, e)
  {
    if t == [] {
      assert s + t == s;
    } else {
      assert (s + t)[..|s + t| - 1] == s + t[..|t| - 1];
      ChanceOfBoth(s, t[..|t| - 1], e);
    }
  }

  lemma ScaleAdds(q: real, x: real, y: real)
    ensures Share(q, x + y) == Share(q, x) + Share(q, y) && Share(q, 0.0) == 0.0
  {
  }

  /** The event e on the longer draws is the event f on the shorter ones. */
  ghost predicate Lifts(space: seq<Draw>, more: set<string>, e: Draw -> bool, f: Draw -> bool) {
    forall d, x :: d in space ==> (e(Draw(x, d.failing + more)) <==> f(d))
  }

  lemma LastDraw(space: seq<Draw>, q: real, more: set<string>, e: Draw -> bool, f: Draw -> bool)
    requires space != [] && Lifts(space, more, e, f)
    ensures var d, before := space[|space| - 1], space[..|space| - 1];
      && Lifts(before, more, e, f)
      && Chance(space, f) == Chance(before, f) + (if f(d) then d.chance else 0.0)
      && Chance(Scaled(space, q, more), e)
         == Chance(Scaled(before, q, more), e) + (if f(d) then Share(q, d.chance) else 0.0)
  {
    hide Share;
    var s, t := Scaled(space, q, more), Scaled(space[..|space| - 1], q, more);
    assert space[|space| - 1] in space && s[..|s| - 1] == t;
  }

  lemma {:induction false} ScaledChance(space: seq<Draw>, q: real, more: set<string>, e: Draw -> bool, f: Draw -> bool)
    requires Lifts(space, more, e, f)
    ensures Chance(Scaled(space, q, more), e) == Share(q, Chance(space, f))
  {
    hide Share, Lifts;
    ScaleAdds(q, 0.0, 0.0);
    if space != [] {
      var d, before := space[|space| - 1], space[..|space| - 1];
      LastDraw(space, q, more, e, f);
      ScaledChance(before, q, more, e, f);
      ScaleAdds(q, Chance(before, f), d.chance);
    }
  }

  lemma {:induction false} ScaledDraws(space: seq<Draw>, q: real, more: set<string>)
    requires NonNegative(space) && q >= 0.0
    ensures NonNegative(Scaled(space, q, more))
    ensures forall d :: d in Scaled(space, q, more) ==> exists b :: b in space && d.failing == b.failing + more
  {
    if space != [] {
      var b := space[|space| - 1];
      assert b in space;
      ScaledDraws(space[..|space| - 1], q, more);
      MulLeq(q, 0.0, b.chance);
    }
  }

  lemma {:induction false} IndependentDraws(groups: seq<string>, risk: string -> real)
    requires AreRisks(groups, risk)
    ensures NonNegative(Independent(groups, risk))
    ensures forall d :: d in Independent(groups, risk) ==> d.failing <= Members(groups)
  {
    if groups != [] {
      var g, rest := groups[|groups| - 1], groups[..|groups| - 1];
      assert g in groups && Members(groups) == Members(rest) + {g};
      IndependentDraws(rest, risk);
      ScaledDraws(Independent(rest, risk), 1.0 - risk(g), {});
      ScaledDraws(Independent(rest, risk), risk(g), {g});
    }
  }

  /** If no group is sure to fail, all of them may pass. */
  lemma {:induction false} SafeDraw(groups: seq<string>, risk: string -> real) returns (safe: Draw)
    requires forall g :: g in groups ==> 0.0 <= risk(g) < 1.0
    ensures safe in Independent(groups, risk) && safe.chance > 0.0 && safe.failing == {}
  {
    if groups == [] {
      safe := Draw(1.0, {});
    } else {
      var g, rest := groups[|groups| - 1], groups[..|groups| - 1];
      assert g in groups;
      var d := SafeDraw(rest, risk);
      safe := ScaledDraw(Independent(rest, risk), 1.0 - risk(g), {}, d);
      MulLess(1.0 - risk(g), 0.0, d.chance);
    }
  }

  lemma {:induction false} ScaledDraw(space: seq<Draw>, q: real, more: set<string>, d: Draw) returns (t: Draw)
    requires d in space
    ensures t in Scaled(space, q, more) && t == Draw(Share(q, d.chance), d.failing + more)
  {
    t := Draw(Share(q, d.chance), d.failing + more);
    if d != space[|space| - 1] {
      assert space == space[..|space| - 1] + [space[|space| - 1]];
      var u := ScaledDraw(space[..|space| - 1], q, more, d);
    }
  }

  lemma IndependentStep(groups: seq<string>, risk: string -> real)
    requires groups != []
    ensures var g, before := groups[|groups| - 1], Independent(groups[..|groups| - 1], risk);
      Independent(groups, risk) == Scaled(before, 1.0 - risk(g), {}) + Scaled(before, risk(g), {g})
  {
    hide Scaled;
  }

  /** Splitting on whether the last group fails. */
  lemma LastGroup(groups: seq<string>, risk: string -> real, e: Draw -> bool, passes: Draw -> bool, fails: Draw -> bool)
    requires groups != []
    requires var g, before := groups[|groups| - 1], Independent(groups[..|groups| - 1], risk);
      Lifts(before, {}, e, passes) && Lifts(before, {g}, e, fails)
    ensures var p, before := risk(groups[|groups| - 1]), Independent(groups[..|groups| - 1], risk);
      Chance(Independent(groups, risk), e) == Mix(p, Chance(before, fails), Chance(before, passes))
  {
    hide *;
    IndependentStep(groups, risk);
    var g, before := groups[|groups| - 1], Independent(groups[..|groups| - 1], risk);
    ChanceOfBoth(Scaled(before, 1.0 - risk(g), {}), Scaled(before, risk(g), {g}), e);
    ScaledChance(before, 1.0 - risk(g), {}, e, passes);
    ScaledChance(before, risk(g), {g}, e, fails);
    MixIsShares(risk(g), Chance(before, fails), Chance(before, passes));
  }

  lemma MixIsShares(p: real, x: real, y: real)
    ensures Mix(p, x, y) == Share(p, x) + Share(1.0 - p, y)
  {
  }

  /** The chances add up to one. */
  lemma {:induction false} IndependentIsSure(groups: seq<string>, risk: string -> real)
    ensures Chance(Independent(groups, risk), Sure()) == 1.0
  {
    if groups == [] {
      assert Independent(groups, risk)[..0] == [];
    } else {
      hide Chance;
      LastGroup(groups, risk, Sure(), Sure(), Sure());
      IndependentIsSure(groups[..|groups| - 1], risk);
      MixIsShares(risk(groups[|groups| - 1]), 1.0, 1.0);
    }
  }

  lemma MixMonotone(p: real, x: real, x': real, y: real, y': real)
    requires 0.0 <= p <= 1.0 && x <= x' && y <= y'
    ensures Mix(p, x, y) <= Mix(p, x', y')
  {
    hide Mix;
    MixAdd(p, x, x' - x, y, y' - y);
    MixNonNegative(p, x' - x, y' - y);
  }

  /**
   Among independent groups that each fail with probability r or more, few failures are no likelier than the binomial
   distribution says, and exactly as likely when each fails with probability r.
   */
  lemma {:induction false} IndependentTail(groups: seq<string>, risk: string -> real, part: set<string>, r: real,
                                           k: int)
    requires Distinct(groups) && AreRisks(groups, risk) && 0.0 <= r <= 1.0
    requires RiskFrom(groups, risk, part, r)
    ensures Chance(Independent(groups, risk), AtMost(part, k)) <= Cdf(|Members(groups) * part|, k, r)
    ensures RiskIs(groups, risk, part, r) ==>
      Chance(Independent(groups, risk), AtMost(part, k)) == Cdf(|Members(groups) * part|, k, r)
  {
    hide *;
    if groups == [] {
      NobodyFails(risk, part, k, r);
    } else {
      var g, rest := groups[|groups| - 1], groups[..|groups| - 1];
      WithoutLast(groups, risk, part, r);
      MembersWithoutLast(groups, part);
      IndependentDraws(rest, risk);
      IndependentTail(rest, risk, part, r, k);
      if g in part {
        IndependentTail(rest, risk, part, r, k - 1);
        GroupInPart(groups, risk, part, k);
        TailStep(|Members(rest) * part|, k, r, risk(g), Chance(Independent(rest, risk), AtMost(part, k - 1)),
                 Chance(Independent(rest, risk), AtMost(part, k)));
      } else {
        GroupOutside(groups, risk, part, k);
      }
    }
  }

  ghost predicate RiskFrom(groups: seq<string>, risk: string -> real, part: set<string>, r: real) {
    forall g :: g in groups && g in part ==> r <= risk(g)
  }

  ghost predicate RiskIs(groups: seq<string>, risk: string -> real, part: set<string>, r: real) {
    forall g :: g in groups && g in part ==> r == risk(g)
  }

  lemma WithoutLast(groups: seq<string>, risk: string -> real, part: set<string>, r: real)
    requires groups != [] && Distinct(groups) && AreRisks(groups, risk) && RiskFrom(groups, risk, part, r)
    ensures var g, rest := groups[|groups| - 1], groups[..|groups| - 1];
      && Distinct(rest) && AreRisks(rest, risk) && RiskFrom(rest, risk, part, r) && 0.0 <= risk(g) <= 1.0
      && (RiskIs(groups, risk, part, r) ==> RiskIs(rest, risk, part, r))
      && (g in part ==> r <= risk(g)) && (RiskIs(groups, risk, part, r) && g in part ==> r == risk(g))
  {
    var g, rest := groups[|groups| - 1], groups[..|groups| - 1];
    assert g in groups;
    assert forall h :: h in rest ==> h in groups;
  }

  lemma MembersWithoutLast(groups: seq<string>, part: set<string>)
    requires groups != [] && Distinct(groups)
    ensures var g, rest := groups[|groups| - 1], groups[..|groups| - 1];
      && g !in Members(rest)
      && |Members(groups) * part| == |Members(rest) * part| + if g in part then 1 else 0
  {
    var g, rest := groups[|groups| - 1], groups[..|groups| - 1];
    assert g in groups && Members(groups) == Members(rest) + {g};
    if g in part {
      assert Members(groups) * part == Members(rest) * part + {g};
    } else {
      assert Members(groups) * part == Members(rest) * part;
    }
  }

  lemma NobodyFails(risk: string -> real, part: set<string>, k: int, r: real)
    ensures Chance(Independent([], risk), AtMost(part, k)) == Cdf(|Members([]) * part|, k, r)
  {
    var d := Draw(1.0, {});
    assert d.failing * part == {} && Members([]) * part == {};
    assert Independent([], risk) == [d] && [d][..0] == [];
    if k >= 0 { CdfOfNone(k, r); }
  }

  lemma GroupInPart(groups: seq<string>, risk: string -> real, part: set<string>, k: int)
    requires groups != [] && groups[|groups| - 1] in part
    requires var rest := groups[..|groups| - 1];
      groups[|groups| - 1] !in Members(rest) && forall d :: d in Independent(rest, risk) ==> d.failing <= Members(rest)
    ensures var p, before := risk(groups[|groups| - 1]), Independent(groups[..|groups| - 1], risk);
      Chance(Independent(groups, risk), AtMost(part, k))
      == Mix(p, Chance(before, AtMost(part, k - 1)), Chance(before, AtMost(part, k)))
  {
    hide Chance, Mix, Independent;
    var g, before := groups[|groups| - 1], Independent(groups[..|groups| - 1], risk);
    forall d, x: real | d in before
      ensures AtMost(part, k)(Draw(x, d.failing + {})) <==> AtMost(part, k)(d)
      ensures AtMost(part, k)(Draw(x, d.failing + {g})) <==> AtMost(part, k - 1)(d)
    {
      assert d.failing + {} == d.failing;
      assert (d.failing + {g}) * part == d.failing * part + {g};
    }
    LastGroup(groups, risk, AtMost(part, k), AtMost(part, k), AtMost(part, k - 1));
  }

  lemma GroupOutside(groups: seq<string>, risk: string -> real, part: set<string>, k: int)
    requires groups != [] && groups[|groups| - 1] !in part
    ensures Chance(Independent(groups, risk), AtMost(part, k))
         == Chance(Independent(groups[..|groups| - 1], risk), AtMost(part, k))
  {
    hide Chance, Independent;
    var g, before := groups[|groups| - 1], Independent(groups[..|groups| - 1], risk);
    forall d, x: real | d in before
      ensures AtMost(part, k)(Draw(x, d.failing + {})) <==> AtMost(part, k)(d)
      ensures AtMost(part, k)(Draw(x, d.failing + {g})) <==> AtMost(part, k)(d)
    {
      assert d.failing + {} == d.failing;
      assert (d.failing + {g}) * part == d.failing * part;
    }
    LastGroup(groups, risk, AtMost(part, k), AtMost(part, k), AtMost(part, k));
  }

  lemma TailStep(n: nat, k: int, r: real, p: real, fails: real, passes: real)
    requires 0.0 <= r <= p <= 1.0 && fails <= Cdf(n, k - 1, r) && passes <= Cdf(n, k, r)
    ensures Mix(p, fails, passes) <= Cdf(n + 1, k, r)
    ensures p == r && fails == Cdf(n, k - 1, r) && passes == Cdf(n, k, r) ==> Mix(p, fails, passes) == Cdf(n + 1, k, r)
  {
    hide Cdf, Mix;
    CdfPascal(n + 1, k, r);
    CdfGrows(n, k - 1, k, r);
    MixMonotone(p, fails, Cdf(n, k - 1, r), passes, Cdf(n, k, r));
    MixOrder(r, p, Cdf(n, k - 1, r), Cdf(n, k, r));
  }

  /**
   Independent groups satisfy `Joint`, for any parts, overlapping or not: in particular for all groups together beside
   the families they fall into, each with a risk of its own.
   */
  lemma IndependentIsJoint(groups: seq<string>, risk: string -> real, parts: seq<Part>)
    requires Distinct(groups) && AreRisks(groups, risk)
    requires forall i :: 0 <= i < |parts| ==>
      && parts[i].groups <= Members(groups) && 0.0 <= parts[i].risk <= 1.0
      && forall g :: g in parts[i].groups ==> parts[i].risk <= risk(g)
    ensures Joint(Independent(groups, risk), parts)
  {
    hide Chance, Cdf, Independent;
    IndependentDraws(groups, risk);
    forall i | 0 <= i < |parts| ensures LowTail(Independent(groups, risk), parts[i]) {
      forall k: nat | k <= |parts[i].groups|
        ensures Chance(Independent(groups, risk), AtMost(parts[i].groups, k))
             <= Cdf(|parts[i].groups|, k, parts[i].risk)
      {
        assert Members(groups) * parts[i].groups == parts[i].groups;
        IndependentTail(groups, risk, parts[i].groups, parts[i].risk, k);
      }
    }
  }

  ghost function TotalFailed(parts: seq<set<string>>, d: Draw): nat {
    if parts == [] then 0 else Failed(parts[0], d) + TotalFailed(parts[1..], d)
  }

  ghost function Union(parts: seq<set<string>>): set<string> {
    if parts == [] then {} else parts[0] + Union(parts[1..])
  }

  ghost predicate Disjoint(parts: seq<set<string>>) {
    parts == [] || (parts[0] !! Union(parts[1..]) && Disjoint(parts[1..]))
  }

  /** When no group is in two families, the overall number of failures is the sum over the families. */
  lemma {:induction false} OverallIsSum(parts: seq<set<string>>, d: Draw)
    requires Disjoint(parts)
    ensures Failed(Union(parts), d) == TotalFailed(parts, d)
  {
    if parts == [] {
      assert d.failing * Union(parts) == {};
    } else {
      OverallIsSum(parts[1..], d);
      assert d.failing * Union(parts) == d.failing * parts[0] + d.failing * Union(parts[1..]);
    }
  }

  /** A bound to fill in: below one exactly when some groups were seen and none failed. */
  function PlainBound(confidence: real): (nat, nat) -> real {
    (n: nat, k: nat) => if k == 0 < n then confidence else 1.0
  }

  lemma PlainBoundHolds(confidence: real)
    requires 0.0 < confidence < 1.0
    ensures IsBound(PlainBound(confidence), confidence)
  {
    hide Cdf;
    forall n: nat, k: nat | k <= n ensures Bounds(n, k, confidence, PlainBound(confidence)(n, k)) {
      if k == 0 < n {
        CdfOfZero(n, confidence);
        PowAtMost(1.0 - confidence, n);
      } else if k < n {
        CdfAtOne(n, k);
      }
    }
  }

  lemma {:induction false} PowAtMost(x: real, n: nat)
    requires 0.0 < x < 1.0 && n > 0
    ensures Pow(x, n) <= x
  {
    if n > 1 {
      PowAtMost(x, n - 1);
      MulLeq(x, Pow(x, n - 1), 1.0);
    } else {
      assert Pow(x, 0) == 1.0;
    }
  }
}
