/** `metrics` and `percentile`: what the aggregate numbers of an evaluation report conserve. */
module EvaluationMetrics {
  import opened Elementary
  import opened Outcomes
  import opened Engine

  /** One evaluated case with its decision. */
  datatype Row = Row(
    id: string, family: string, groupId: string, labelSource: string, expectedOptionId: string,
    result: Body, correct: bool)

  predicate DistinctLabels(d: seq<Entry>) {
    forall i, j :: 0 <= i < j < |d| ==> d[i].id != d[j].id
  }

  predicate HasLabel(d: seq<Entry>, id: string) {
    exists i :: 0 <= i < |d| && d[i].id == id
  }

  /** What the engine guarantees about a computed result; shown for every evaluated row in `Reports`. */
  predicate WellScored(r: Row) {
    if r.result.Failed? then !r.correct
    else
      && DistinctLabels(r.result.distribution)
      && HasLabel(r.result.distribution, r.expectedOptionId)
      && HasLabel(r.result.distribution, r.result.selected)
      && 0.0 <= r.result.probability <= 1.0
      && (r.correct <==> r.result.selected == r.expectedOptionId)
  }

  datatype Counts = Counts(tp: nat, fp: nat, fn: nat, support: nat)

  type Classes = map<string, Counts>

  /** f"{family}:{tag}". */
  function ClassKey(family: string, tag: string): string {
    family + ":" + tag
  }

  // ----- Sums over the classes -----

  ghost function Total(classes: Classes, f: Counts -> nat): nat
    decreases classes
  {
    if classes == map[] then 0
    else
      var k :| k in classes;
      f(classes[k]) + Total(classes - {k}, f)
  }

  lemma {:induction false} TotalSplit(classes: Classes, f: Counts -> nat, k: string)
    requires k in classes
    ensures Total(classes, f) == f(classes[k]) + Total(classes - {k}, f)
    decreases classes
  {
    var c :| c in classes && Total(classes, f) == f(classes[c]) + Total(classes - {c}, f);
    if c != k {
      TotalSplit(classes - {c}, f, k);
      TotalSplit(classes - {k}, f, c);
      assert classes - {c} - {k} == classes - {k} - {c};
    }
  }

  function Lookup(classes: Classes, k: string): Counts {
    if k in classes then classes[k] else Counts(0, 0, 0, 0)
  }

  lemma TotalUpdate(classes: Classes, f: Counts -> nat, k: string, c: Counts)
    requires f(Counts(0, 0, 0, 0)) == 0
    ensures Total(classes[k := c], f) + f(Lookup(classes, k)) == Total(classes, f) + f(c)
  {
    TotalSplit(classes[k := c], f, k);
    assert classes[k := c] - {k} == classes - {k};
    if k in classes { TotalSplit(classes, f, k); } else { assert classes - {k} == classes; }
  }

  function Tp(): Counts -> nat { (c: Counts) => c.tp }
  function Fp(): Counts -> nat { (c: Counts) => c.fp }
  function Fn(): Counts -> nat { (c: Counts) => c.fn }
  function Support(): Counts -> nat { (c: Counts) => c.support }

  function Bit(b: bool): nat {
    if b then 1 else 0
  }

  function Tally(c: Counts, gold: string, prediction: string, tag: string): Counts {
    Counts(c.tp + Bit(gold == prediction && prediction == tag), c.fp + Bit(prediction == tag && gold != tag),
           c.fn + Bit(gold == tag && prediction != tag), c.support + Bit(gold == tag))
  }

  /** The four totals, in terms of the labels of one row seen so far. */
  ghost predicate Totals(classes: Classes, tp: nat, fp: nat, fn: nat, support: nat) {
    && Total(classes, Tp()) == tp && Total(classes, Fp()) == fp
    && Total(classes, Fn()) == fn && Total(classes, Support()) == support
    && forall k :: k in classes ==> classes[k].tp + classes[k].fn == classes[k].support
  }

  lemma TallyTotals(classes: Classes, k: string, gold: string, prediction: string, tag: string,
                    tp: nat, fp: nat, fn: nat, support: nat)
    requires Totals(classes, tp, fp, fn, support)
    ensures Totals(classes[k := Tally(Lookup(classes, k), gold, prediction, tag)],
                   tp + Bit(gold == prediction && prediction == tag), fp + Bit(prediction == tag && gold != tag),
                   fn + Bit(gold == tag && prediction != tag), support + Bit(gold == tag))
  {
    var c := Tally(Lookup(classes, k), gold, prediction, tag);
    hide Total;
    TotalUpdate(classes, Tp(), k, c);
    TotalUpdate(classes, Fp(), k, c);
    TotalUpdate(classes, Fn(), k, c);
    TotalUpdate(classes, Support(), k, c);
  }

  /** Among distinct labels the first j contain a given one at most once. */
  function SeenAmong(d: seq<Entry>, j: nat, id: string): bool
    requires j <= |d|
  {
    exists i :: 0 <= i < j && d[i].id == id
  }

  lemma SeenStep(d: seq<Entry>, j: nat, id: string)
    requires j < |d| && DistinctLabels(d)
    ensures Bit(SeenAmong(d, j + 1, id)) == Bit(SeenAmong(d, j, id)) + Bit(d[j].id == id)
  {
    if SeenAmong(d, j, id) { var i :| 0 <= i < j && d[i].id == id; assert d[i].id != d[j].id; }
  }

  function Plus(c: Counts, d: Counts): Counts {
    Counts(c.tp + d.tp, c.fp + d.fp, c.fn + d.fn, c.support + d.support)
  }

  /** What the first j labels of a row's distribution contribute to the class with key k. */
  function Share(r: Row, j: nat, k: string): Counts
    requires r.result.Computed? && j <= |r.result.distribution|
  {
    var d := r.result.distribution;
    var gold := k == ClassKey(r.family, r.expectedOptionId) && SeenAmong(d, j, r.expectedOptionId);
    var prediction := k == ClassKey(r.family, r.result.selected) && SeenAmong(d, j, r.result.selected);
    Counts(Bit(gold && r.correct), Bit(prediction && !r.correct), Bit(gold && !r.correct), Bit(gold))
  }

  /** A scored row supports its gold class: a true positive there, or a miss there and a false positive elsewhere. */
  function Contribution(r: Row, k: string): Counts
    requires r.result.Computed?
  {
    var gold := k == ClassKey(r.family, r.expectedOptionId);
    var prediction := k == ClassKey(r.family, r.result.selected);
    Counts(Bit(gold && r.correct), Bit(prediction && !r.correct), Bit(gold && !r.correct), Bit(gold))
  }

  /** The exact counts of the class with key k. */
  function ClassCounts(scored: seq<Row>, k: string): Counts
    requires forall i :: 0 <= i < |scored| ==> scored[i].result.Computed?
  {
    if scored == [] then Counts(0, 0, 0, 0)
    else Plus(ClassCounts(scored[..|scored| - 1], k), Contribution(scored[|scored| - 1], k))
  }

  /** `after` is `before` with the given shares added. */
  ghost predicate Tallied(before: Classes, after: Classes, shares: string -> Counts) {
    forall k :: Lookup(after, k) == Plus(Lookup(before, k), shares(k))
  }

  function SharesOf(r: Row, j: nat): string -> Counts
    requires r.result.Computed? && j <= |r.result.distribution|
  {
    (k: string) => Share(r, j, k)
  }

  lemma SameFamilyKeys(family: string, x: string, y: string)
    ensures ClassKey(family, x) == ClassKey(family, y) <==> x == y
  {
    assert ClassKey(family, x)[|family| + 1..] == x;
    assert ClassKey(family, y)[|family| + 1..] == y;
  }

  lemma ScoredFacts(r: Row)
    requires WellScored(r) && r.result.Computed?
    ensures DistinctLabels(r.result.distribution) && (r.correct <==> r.result.selected == r.expectedOptionId)
    ensures SeenAmong(r.result.distribution, |r.result.distribution|, r.expectedOptionId)
    ensures SeenAmong(r.result.distribution, |r.result.distribution|, r.result.selected)
  {
  }

  /** Before its turn a label of the distribution has not been seen. */
  lemma NotSeenYet(d: seq<Entry>, j: nat, id: string)
    requires j < |d| && DistinctLabels(d)
    ensures SeenAmong(d, j + 1, id) == (SeenAmong(d, j, id) || d[j].id == id)
    ensures d[j].id == id ==> !SeenAmong(d, j, id)
  {
    SeenStep(d, j, id);
  }

  /** Label j changes the share of its own class only, and there as `Tally` says. */
  lemma ShareStep(r: Row, j: nat, k: string)
    requires WellScored(r) && r.result.Computed? && j < |r.result.distribution|
    ensures var tag := r.result.distribution[j].id;
      Share(r, j + 1, k) == if k == ClassKey(r.family, tag)
                            then Tally(Share(r, j, k), r.expectedOptionId, r.result.selected, tag)
                            else Share(r, j, k)
  {
    var d, gold, prediction := r.result.distribution, r.expectedOptionId, r.result.selected;
    var tag := d[j].id;
    ScoredFacts(r);
    NotSeenYet(d, j, gold);
    NotSeenYet(d, j, prediction);
    SameFamilyKeys(r.family, tag, gold);
    SameFamilyKeys(r.family, tag, prediction);
    hide SeenAmong, WellScored, DistinctLabels, ClassKey;
  }

  lemma TallyPlus(b: Counts, s: Counts, gold: string, prediction: string, tag: string)
    ensures Tally(Plus(b, s), gold, prediction, tag) == Plus(b, Tally(s, gold, prediction, tag))
  {
  }

  lemma LookupUpdate(classes: Classes, key: string, c: Counts, k: string)
    ensures Lookup(classes[key := c], k) == if k == key then c else Lookup(classes, k)
  {
  }

  lemma TallyOneLabel(before: Classes, after: Classes, shares: string -> Counts, next: string -> Counts,
                      key: string, gold: string, prediction: string, tag: string)
    requires Tallied(before, after, shares)
    requires forall k :: next(k) == if k == key then Tally(shares(k), gold, prediction, tag) else shares(k)
    ensures Tallied(before, after[key := Tally(Lookup(after, key), gold, prediction, tag)], next)
  {
    hide Plus, Tally, Lookup;
    var c := Tally(Lookup(after, key), gold, prediction, tag);
    forall k ensures Lookup(after[key := c], k) == Plus(Lookup(before, k), next(k)) {
      assert Lookup(after, k) == Plus(Lookup(before, k), shares(k));
      LookupUpdate(after, key, c, k);
      TallyPlus(Lookup(before, k), shares(k), gold, prediction, tag);
    }
  }

  lemma NoShares(r: Row, k: string)
    requires r.result.Computed?
    ensures Share(r, 0, k) == Counts(0, 0, 0, 0)
  {
  }

  lemma AllShares(r: Row, k: string)
    requires WellScored(r) && r.result.Computed?
    ensures Share(r, |r.result.distribution|, k) == Contribution(r, k)
  {
    ScoredFacts(r);
    hide WellScored, SeenAmong, ClassKey;
  }

  /** The loop over the labels of one scored row. */
  method TallyRow(classes: Classes, r: Row, ghost tp: nat, ghost fp: nat, ghost fn: nat, ghost support: nat)
    returns (after: Classes)
    requires WellScored(r) && r.result.Computed? && Totals(classes, tp, fp, fn, support)
    ensures Totals(after, tp + Bit(r.correct), fp + Bit(!r.correct), fn + Bit(!r.correct), support + 1)
    ensures Tallied(classes, after, ContributionOf(r))
  {
    hide Total, Totals, Tallied, Tally, Lookup, Plus, Contribution, Share, ClassKey;
    after := classes;
    var d, gold, prediction := r.result.distribution, r.expectedOptionId, r.result.selected;
    StartTally(classes, r);
    for j := 0 to |d|
      invariant Totals(after,
                       tp + Bit(r.correct && SeenAmong(d, j, gold)),
                       fp + Bit(!r.correct && SeenAmong(d, j, prediction)),
                       fn + Bit(!r.correct && SeenAmong(d, j, gold)), support + Bit(SeenAmong(d, j, gold)))
      invariant Tallied(classes, after, SharesOf(r, j))
    {
      var tag := d[j].id;
      var k := ClassKey(r.family, tag);
      SeenStep(d, j, gold);
      SeenStep(d, j, prediction);
      TallyTotals(after, k, gold, prediction, tag,
                  tp + Bit(r.correct && SeenAmong(d, j, gold)), fp + Bit(!r.correct && SeenAmong(d, j, prediction)),
                  fn + Bit(!r.correct && SeenAmong(d, j, gold)), support + Bit(SeenAmong(d, j, gold)));
      SharesStep(r, j);
      TallyOneLabel(classes, after, SharesOf(r, j), SharesOf(r, j + 1), k, gold, prediction, tag);
      after := after[k := Tally(Lookup(after, k), gold, prediction, tag)];
    }
    EndTally(classes, after, r);
  }

  function ContributionOf(r: Row): string -> Counts
    requires r.result.Computed?
  {
    (k: string) => Contribution(r, k)
  }

  lemma StartTally(classes: Classes, r: Row)
    requires r.result.Computed?
    ensures Tallied(classes, classes, SharesOf(r, 0))
  {
    hide Lookup, Share;
    forall k: string ensures Share(r, 0, k) == Counts(0, 0, 0, 0) { NoShares(r, k); }
  }

  lemma SharesStep(r: Row, j: nat)
    requires WellScored(r) && r.result.Computed? && j < |r.result.distribution|
    ensures var tag := r.result.distribution[j].id;
      forall k :: SharesOf(r, j + 1)(k)
        == if k == ClassKey(r.family, tag) then Tally(SharesOf(r, j)(k), r.expectedOptionId, r.result.selected, tag)
           else SharesOf(r, j)(k)
  {
    hide Share, Tally, ClassKey, WellScored;
    forall k: string
      ensures Share(r, j + 1, k)
           == if k == ClassKey(r.family, r.result.distribution[j].id)
              then Tally(Share(r, j, k), r.expectedOptionId, r.result.selected, r.result.distribution[j].id)
              else Share(r, j, k)
    {
      ShareStep(r, j, k);
    }
  }

  lemma EndTally(before: Classes, after: Classes, r: Row)
    requires WellScored(r) && r.result.Computed? && Tallied(before, after, SharesOf(r, |r.result.distribution|))
    ensures Tallied(before, after, ContributionOf(r))
  {
    hide Share, Contribution, WellScored, Lookup, Plus;
    forall k: string ensures Share(r, |r.result.distribution|, k) == Contribution(r, k) { AllShares(r, k); }
  }

  // ----- F1 and calibration error -----

  function F1(c: Counts): (f: Option<real>)
    ensures f.None? <==> c.tp == c.fp == c.fn == 0
    ensures f.Some? ==> 0.0 <= f.value <= 1.0
    ensures f.Some? ==> f.value * (c.tp + c.fp + c.tp + c.fn) as real == 2.0 * c.tp as real
  {
    var denominator := 2 * c.tp + c.fp + c.fn;
    if denominator == 0 then None
    else
      FractionBounds((2 * c.tp) as real, denominator as real);
      Some((2 * c.tp) as real / denominator as real)
  }

  lemma FractionBounds(x: real, y: real)
    requires 0.0 <= x <= y && y > 0.0
    ensures 0.0 <= x / y <= 1.0
  {
    var q := x / y;
    assert q * y == x;
    if q < 0.0 { MulLess(y, q, 0.0); }
    if q > 1.0 { MulLess(y, 1.0, q); }
  }

  /** F1 is the harmonic mean of precision tp/(tp+fp) and recall tp/(tp+fn). */
  lemma F1IsHarmonicMean(c: Counts, precision: real, recall: real)
    requires c.tp > 0
    requires precision * (c.tp + c.fp) as real == c.tp as real && recall * (c.tp + c.fn) as real == c.tp as real
    ensures precision > 0.0 && recall > 0.0
    ensures F1(c).Some? && F1(c).value * (precision + recall) == 2.0 * (precision * recall)
  {
    var t, x, y := c.tp as real, (c.tp + c.fp) as real, (c.tp + c.fn) as real;
    PositiveFactor(precision, x, t);
    PositiveFactor(recall, y, t);
    HarmonicMean(t, x, y, precision, recall, F1(c).value);
  }

  lemma PositiveFactor(p: real, x: real, t: real)
    requires x > 0.0 && t > 0.0 && p * x == t
    ensures p > 0.0
  {
    if p <= 0.0 { MulLeq(x, p, 0.0); }
  }

  lemma HarmonicMean(t: real, x: real, y: real, p: real, r: real, f: real)
    requires t > 0.0 && x > 0.0 && y > 0.0 && p * x == t && r * y == t && f * (x + y) == 2.0 * t
    ensures f * (p + r) == 2.0 * (p * r)
  {
    var u, v, pr := x + y, p + r, p * r;
    assert v * t == pr * u by {
      assert p * t == pr * y by { assert p * (r * y) == (p * r) * y; }
      assert r * t == pr * x by { assert r * (p * x) == (p * r) * x; }
    }
    var w := f * v;
    assert w * t == 2.0 * pr * t by {
      assert w * t == f * (v * t);
      assert f * (pr * u) == pr * (f * u);
    }
    Cancel(w, 2.0 * pr, t);
  }

  lemma Cancel(x: real, y: real, t: real)
    requires t > 0.0 && x * t == y * t
    ensures x == y
  {
    if x < y { MulLess(t, x, y); } else if y < x { MulLess(t, y, x); }
  }

  ghost function F1Total(classes: Classes): real
    decreases classes
  {
    if classes == map[] then 0.0
    else
      var k :| k in classes;
      F1(classes[k]).GetOr(0.0) + F1Total(classes - {k})
  }

  lemma {:induction false} F1TotalSplit(classes: Classes, k: string)
    requires k in classes
    ensures F1Total(classes) == F1(classes[k]).GetOr(0.0) + F1Total(classes - {k})
    decreases classes
  {
    hide F1;
    var c :| c in classes && F1Total(classes) == F1(classes[c]).GetOr(0.0) + F1Total(classes - {c});
    if c != k {
      F1TotalSplit(classes - {c}, k);
      F1TotalSplit(classes - {k}, c);
      assert classes - {c} - {k} == classes - {k} - {c};
    }
  }

  ghost function Occurring(classes: Classes): set<string> {
    set k | k in classes && F1(classes[k]).Some?
  }

  /** The mean F1 of the classes that occur. */
  method MacroF1(classes: Classes) returns (macro: Option<real>)
    ensures macro.None? <==> Occurring(classes) == {}
    ensures macro.Some? ==> macro.value * |Occurring(classes)| as real == F1Total(classes)
    ensures macro.Some? ==> 0.0 <= macro.value <= 1.0
  {
    hide F1, F1Total, Occurring;
    var total, count := 0.0, 0;
    var left := classes;
    while left.Keys != {}
      invariant left.Keys <= classes.Keys && forall k :: k in left ==> left[k] == classes[k]
      invariant 0.0 <= total <= count as real && count >= 0
      invariant total + F1Total(left) == F1Total(classes)
      invariant count + |Occurring(left)| == |Occurring(classes)|
      decreases left.Keys
    {
      var k :| k in left.Keys;
      F1TotalSplit(left, k);
      OccurringSplit(left, k);
      var f := F1(classes[k]);
      if f.Some? { total, count := total + f.value, count + 1; }
      left := left - {k};
    }
    NothingOccurs(left);
    if count == 0 { return None; }
    FractionBounds(total, count as real);
    macro := Some(total / count as real);
  }

  lemma NothingOccurs(left: Classes)
    requires left.Keys == {}
    ensures F1Total(left) == 0.0 && Occurring(left) == {}
  {
    assert left == map[];
  }

  lemma OccurringSplit(classes: Classes, k: string)
    requires k in classes
    ensures |Occurring(classes)| == |Occurring(classes - {k})| + if F1(classes[k]).Some? then 1 else 0
  {
    hide F1;
    if F1(classes[k]).Some? {
      assert Occurring(classes) == Occurring(classes - {k}) + {k};
    } else {
      assert Occurring(classes) == Occurring(classes - {k});
    }
  }

  /** A reliability bin: confidence and correctness of each scored row in it. */
  type Bin = seq<(real, bool)>

  /** The points of the scored rows whose confidence falls into bin i. */
  function BinPoints(scored: seq<Row>, i: nat): Bin
    requires forall k :: 0 <= k < |scored| ==> scored[k].result.Computed? && 0.0 <= scored[k].result.probability
  {
    if scored == [] then []
    else
      var last := scored[|scored| - 1];
      BinPoints(scored[..|scored| - 1], i)
      + if BinOf(last.result.probability) == i then [(last.result.probability, last.correct)] else []
  }

  predicate GoodBin(b: Bin) {
    forall i :: 0 <= i < |b| ==> 0.0 <= b[i].0 <= 1.0
  }

  function BinTotal(b: Bin): real {
    if b == [] then 0.0 else BinTotal(b[..|b| - 1]) + b[|b| - 1].0
  }

  function BinCorrect(b: Bin): (n: nat)
    ensures n <= |b|
  {
    if b == [] then 0 else BinCorrect(b[..|b| - 1]) + Bit(b[|b| - 1].1)
  }

  lemma {:induction false} BinTotalBounds(b: Bin)
    requires GoodBin(b)
    ensures 0.0 <= BinTotal(b) <= |b| as real
  {
    if b != [] { BinTotalBounds(b[..|b| - 1]); }
  }

  /** |bucket| * |mean confidence - accuracy|. */
  function BinGap(b: Bin): real {
    if b == [] then 0.0
    else
      var confidence := BinTotal(b) / |b| as real;
      var accuracy := BinCorrect(b) as real / |b| as real;
      |b| as real * Distance(confidence, accuracy)
  }

  function Distance(x: real, y: real): (d: real)
    ensures d >= 0.0 && (0.0 <= x <= 1.0 && 0.0 <= y <= 1.0 ==> d <= 1.0)
  {
    if x >= y then x - y else y - x
  }

  lemma ScaledShare(n: real, d: real, g: real)
    requires n >= 0.0 && 0.0 <= d <= 1.0 && g == n * d
    ensures 0.0 <= g <= n
  {
    MulLeq(n, 0.0, d);
    MulLeq(n, d, 1.0);
  }

  lemma BinGapBounds(b: Bin)
    requires GoodBin(b)
    ensures 0.0 <= BinGap(b) <= |b| as real
  {
    if b != [] {
      BinTotalBounds(b);
      FractionBounds(BinTotal(b), |b| as real);
      FractionBounds(BinCorrect(b) as real, |b| as real);
      var p, q := BinTotal(b) / |b| as real, BinCorrect(b) as real / |b| as real;
      ScaledShare(|b| as real, Distance(p, q), BinGap(b));
    }
  }

  function BinSizes(bins: seq<Bin>): nat {
    if bins == [] then 0 else |bins[0]| + BinSizes(bins[1..])
  }

  function GapTotal(bins: seq<Bin>): real {
    if bins == [] then 0.0 else BinGap(bins[0]) + GapTotal(bins[1..])
  }

  lemma {:induction false} GapTotalBounds(bins: seq<Bin>)
    requires forall i :: 0 <= i < |bins| ==> GoodBin(bins[i])
    ensures 0.0 <= GapTotal(bins) <= BinSizes(bins) as real
  {
    hide BinGap, GoodBin;
    if bins != [] {
      BinGapBounds(bins[0]);
      GapTotalBounds(bins[1..]);
    }
  }

  lemma {:induction false} BinSizesGrow(bins: seq<Bin>, i: nat, x: (real, bool))
    requires i < |bins|
    ensures BinSizes(bins[i := bins[i] + [x]]) == BinSizes(bins) + 1
  {
    if i > 0 {
      BinSizesGrow(bins[1..], i - 1, x);
      assert bins[i := bins[i] + [x]][1..] == bins[1..][i - 1 := bins[1..][i - 1] + [x]];
    }
  }

  /** min(9, int(10 * confidence)). */
  function BinOf(confidence: real): (i: nat)
    requires 0.0 <= confidence
    ensures i <= 9
  {
    var i := (confidence * 10.0).Floor;
    if i > 9 then 9 else i
  }

  // ----- The report -----

  function ScoredRows(rows: seq<Row>): seq<Row> {
    if rows == [] then []
    else ScoredRows(rows[..|rows| - 1]) + if rows[|rows| - 1].result.Computed? then [rows[|rows| - 1]] else []
  }

  function CountCorrect(rows: seq<Row>): nat {
    if rows == [] then 0 else CountCorrect(rows[..|rows| - 1]) + Bit(rows[|rows| - 1].correct)
  }

  predicate IsAccepted(r: Row) {
    r.result.Computed? && r.result.reason == Accepted
  }

  function AcceptedRows(rows: seq<Row>): seq<Row> {
    if rows == [] then []
    else AcceptedRows(rows[..|rows| - 1]) + if IsAccepted(rows[|rows| - 1]) then [rows[|rows| - 1]] else []
  }

  datatype Summary = Summary(
    attempted: nat, scored: nat, backendErrors: nat, abstained: nat, accepted: nat, correct: nat, acceptedErrors: nat,
    bins: seq<Bin>, classes: Classes, ece: Option<real>, macroF1: Option<real>)

  /**
   Nothing is lost or counted twice: scored and failed rows make up the attempts, accepted and abstained
   rows the scored ones; each scored row sits in one reliability bin and is one true positive, or one
   false positive and one false negative; F1 and the calibration error are proportions.
   */
  ghost predicate Conserves(rows: seq<Row>, m: Summary) {
    && m.attempted == |rows| && m.scored == |ScoredRows(rows)| && m.scored + m.backendErrors == m.attempted
    && m.accepted == |AcceptedRows(rows)| && m.accepted + m.abstained == m.scored
    && m.correct == CountCorrect(rows) && m.acceptedErrors + CountCorrect(AcceptedRows(rows)) == m.accepted
    && |m.bins| == 10 && BinSizes(m.bins) == m.scored
    && m.correct <= m.scored
    && Totals(m.classes, m.correct, m.scored - m.correct, m.scored - m.correct, m.scored)
    && AllScored(ScoredRows(rows)) && BinsFilled(ScoredRows(rows), m.bins) && ClassesFilled(ScoredRows(rows), m.classes)
    && m.ece == (if m.scored > 0 then Some(GapTotal(m.bins) / m.scored as real) else None)
    && (m.ece.Some? ==> 0.0 <= m.ece.value <= 1.0)
    && (m.macroF1.Some? <==> Occurring(m.classes) != {})
    && (m.macroF1.Some? ==>
          0.0 <= m.macroF1.value <= 1.0 && m.macroF1.value * |Occurring(m.classes)| as real == F1Total(m.classes))
  }

  lemma RowsGrow(rows: seq<Row>, k: nat)
    requires k < |rows|
    ensures ScoredRows(rows[..k + 1]) == ScoredRows(rows[..k]) + if rows[k].result.Computed? then [rows[k]] else []
    ensures AcceptedRows(rows[..k + 1]) == AcceptedRows(rows[..k]) + if IsAccepted(rows[k]) then [rows[k]] else []
    ensures CountCorrect(rows[..k + 1]) == CountCorrect(rows[..k]) + Bit(rows[k].correct)
  {
    assert rows[..k + 1][..k] == rows[..k];
  }

  /** `scored`, `accepted` and the count of correct rows. */
  method SelectRows(rows: seq<Row>) returns (scored: seq<Row>, accepted: seq<Row>, correct: nat)
    requires forall i :: 0 <= i < |rows| ==> WellScored(rows[i])
    ensures scored == ScoredRows(rows) && accepted == AcceptedRows(rows) && |accepted| <= |scored| <= |rows|
    ensures correct == CountCorrect(rows) == CountCorrect(scored)
    ensures forall i :: 0 <= i < |scored| ==> WellScored(scored[i]) && scored[i].result.Computed?
  {
    hide WellScored, ScoredRows, AcceptedRows, CountCorrect;
    scored, accepted, correct := [], [], 0;
    SelectNone();
    for k := 0 to |rows|
      invariant scored == ScoredRows(rows[..k]) && accepted == AcceptedRows(rows[..k])
      invariant forall i :: 0 <= i < |scored| ==> WellScored(scored[i]) && scored[i].result.Computed?
      invariant correct == CountCorrect(rows[..k]) == CountCorrect(scored)
      invariant |accepted| <= |scored| <= k
    {
      RowsGrow(rows, k);
      if rows[k].result.Computed? {
        LastCounts(scored, rows[k]);
        scored := scored + [rows[k]];
        if rows[k].correct { correct := correct + 1; }
      } else {
        FailedIsIncorrect(rows[k]);
      }
      if IsAccepted(rows[k]) { accepted := accepted + [rows[k]]; }
    }
    assert rows[..|rows|] == rows;
  }

  lemma SelectNone()
    ensures ScoredRows([]) == [] && AcceptedRows([]) == [] && CountCorrect([]) == 0
  {
  }

  predicate AllScored(rows: seq<Row>) {
    forall i :: 0 <= i < |rows| ==> rows[i].result.Computed? && 0.0 <= rows[i].result.probability
  }

  /** Each bin holds its points, in order. */
  ghost predicate BinsFilled(scored: seq<Row>, bins: seq<Bin>)
    requires AllScored(scored)
  {
    |bins| == 10 && forall i :: 0 <= i < 10 ==> bins[i] == BinPoints(scored, i)
  }

  /** Each class has its exact counts. */
  ghost predicate ClassesFilled(scored: seq<Row>, classes: Classes)
    requires AllScored(scored)
  {
    forall k :: Lookup(classes, k) == ClassCounts(scored, k)
  }

  lemma FillBin(before: seq<Row>, r: Row, bins: seq<Bin>, rows: seq<Row>, i: nat, point: (real, bool))
    requires AllScored(before) && BinsFilled(before, bins) && r.result.Computed? && 0.0 <= r.result.probability
    requires rows == before + [r] && i == BinOf(r.result.probability) && point == (r.result.probability, r.correct)
    ensures AllScored(rows) && BinsFilled(rows, bins[i := bins[i] + [point]])
  {
    hide BinOf, BinPoints;
    forall n: nat | n < 10 ensures AllScored(rows) && bins[i := bins[i] + [point]][n] == BinPoints(rows, n) {
      BinOne(before, r, rows, n);
    }
  }

  lemma FillClass(before: seq<Row>, r: Row, classes: Classes, after: Classes, rows: seq<Row>)
    requires AllScored(before) && ClassesFilled(before, classes) && r.result.Computed? && 0.0 <= r.result.probability
    requires rows == before + [r] && Tallied(classes, after, ContributionOf(r))
    ensures AllScored(rows) && ClassesFilled(rows, after)
  {
    hide Lookup, Plus, Contribution, ClassCounts;
    forall k ensures AllScored(rows) && Lookup(after, k) == ClassCounts(rows, k) {
      assert Lookup(after, k) == Plus(Lookup(classes, k), ContributionOf(r)(k));
      assert Lookup(classes, k) == ClassCounts(before, k);
      CountOne(before, r, rows, k);
    }
  }

  lemma CountOne(before: seq<Row>, r: Row, rows: seq<Row>, k: string)
    requires AllScored(before) && r.result.Computed? && 0.0 <= r.result.probability && rows == before + [r]
    ensures AllScored(rows) && ClassCounts(rows, k) == Plus(ClassCounts(before, k), Contribution(r, k))
  {
    hide Plus, Contribution;
    assert rows[..|before|] == before;
  }

  lemma BinOne(before: seq<Row>, r: Row, rows: seq<Row>, i: nat)
    requires AllScored(before) && r.result.Computed? && 0.0 <= r.result.probability && rows == before + [r]
    ensures AllScored(rows) && BinPoints(rows, i)
         == BinPoints(before, i) + if BinOf(r.result.probability) == i then [(r.result.probability, r.correct)] else []
  {
    hide BinOf;
    assert rows[..|before|] == before;
  }

  /** The loop over the scored rows that fills the reliability bins and the class counts. */
  method FillBins(scored: seq<Row>) returns (bins: seq<Bin>, classes: Classes)
    requires forall i :: 0 <= i < |scored| ==> WellScored(scored[i]) && scored[i].result.Computed?
    ensures |bins| == 10 && AllScored(scored) && BinsFilled(scored, bins) && ClassesFilled(scored, classes)
    ensures BinSizes(bins) == |scored| && forall i :: 0 <= i < 10 ==> GoodBin(bins[i])
    ensures CountCorrect(scored) <= |scored|
    ensures Totals(classes, CountCorrect(scored), |scored| - CountCorrect(scored),
                   |scored| - CountCorrect(scored), |scored|)
  {
    hide Total, Totals, WellScored, BinSizes, CountCorrect, ScoredRows, AcceptedRows, GoodBin, BinsFilled,
         ClassesFilled, Tallied, AllScored, BinOf;
    bins, classes := seq(10, i => []), map[];
    NoBins(bins);
    NoTotals();
    SelectNone();
    FillNone(bins, classes);
    for k := 0 to |scored|
      invariant AllScored(scored[..k]) && BinsFilled(scored[..k], bins) && ClassesFilled(scored[..k], classes)
      invariant |bins| == 10
      invariant BinSizes(bins) == k
      invariant forall i :: 0 <= i < 10 ==> GoodBin(bins[i])
      invariant CountCorrect(scored[..k]) <= k
      invariant Totals(classes, CountCorrect(scored[..k]), k - CountCorrect(scored[..k]),
                       k - CountCorrect(scored[..k]), k)
    {
      var row := scored[k];
      ConfidenceInRange(row);
      RowsGrow(scored, k);
      assert scored[..k + 1] == scored[..k] + [row];
      var i, point := BinOf(row.result.probability), (row.result.probability, row.correct);
      BinSizesGrow(bins, i, point);
      GoodBinGrows(bins[i], point);
      var after := TallyRow(classes, row, CountCorrect(scored[..k]), k - CountCorrect(scored[..k]),
                            k - CountCorrect(scored[..k]), k);
      FillBin(scored[..k], row, bins, scored[..k + 1], i, point);
      FillClass(scored[..k], row, classes, after, scored[..k + 1]);
      bins := bins[i := bins[i] + [point]];
      classes := after;
    }
    assert scored[..|scored|] == scored;
  }

  lemma FillNone(bins: seq<Bin>, classes: Classes)
    requires bins == seq(10, i => []) && classes == map[]
    ensures AllScored([]) && BinsFilled([], bins) && ClassesFilled([], classes)
  {
  }

  lemma GoodBinGrows(b: Bin, point: (real, bool))
    requires GoodBin(b) && 0.0 <= point.0 <= 1.0
    ensures GoodBin(b + [point])
  {
  }

  method MetricsOf(rows: seq<Row>) returns (m: Summary)
    requires forall i :: 0 <= i < |rows| ==> WellScored(rows[i])
    ensures Conserves(rows, m)
  {
    hide Totals, WellScored, GapTotal, BinSizes, CountCorrect, ScoredRows, AcceptedRows, GoodBin, F1Total, Occurring;
    var scored, accepted, correct := SelectRows(rows);
    var bins, classes := FillBins(scored);
    var errors := CountErrors(accepted);
    var macro := MacroF1(classes);
    GapTotalBounds(bins);
    if |scored| > 0 { FractionBounds(GapTotal(bins), |scored| as real); }
    m := Summary(|rows|, |scored|, |rows| - |scored|, |scored| - |accepted|, |accepted|, correct, errors, bins, classes,
                 if |scored| > 0 then Some(GapTotal(bins) / |scored| as real) else None, macro);
  }

  method CountErrors(accepted: seq<Row>) returns (errors: nat)
    ensures errors + CountCorrect(accepted) == |accepted|
  {
    errors := 0;
    for k := 0 to |accepted|
      invariant errors + CountCorrect(accepted[..k]) == k
    {
      RowsGrow(accepted, k);
      if !accepted[k].correct { errors := errors + 1; }
    }
    assert accepted[..|accepted|] == accepted;
  }

  lemma LastCounts(rows: seq<Row>, r: Row)
    ensures CountCorrect(rows + [r]) == CountCorrect(rows) + Bit(r.correct)
  {
    assert (rows + [r])[..|rows|] == rows;
  }

  lemma FailedIsIncorrect(r: Row)
    requires WellScored(r) && r.result.Failed?
    ensures !r.correct
  {
  }

  lemma ConfidenceInRange(r: Row)
    requires WellScored(r) && r.result.Computed?
    ensures 0.0 <= r.result.probability <= 1.0
  {
  }

  lemma NoBins(bins: seq<Bin>)
    requires bins == seq(10, i => [])
    ensures BinSizes(bins) == 0 && forall i :: 0 <= i < 10 ==> GoodBin(bins[i])
  {
    EmptyBins(bins);
  }

  lemma {:induction false} EmptyBins(bins: seq<Bin>)
    requires forall i :: 0 <= i < |bins| ==> bins[i] == []
    ensures BinSizes(bins) == 0
  {
    if bins != [] { EmptyBins(bins[1..]); }
  }

  lemma NoTotals()
    ensures Totals(map[], 0, 0, 0, 0)
  {
  }

  // ----- Class keys -----

  /** Two keys agree exactly when the classes do, or one family is the other extended past a colon. */
  lemma ClassKeysCollide(f: string, l: string, g: string, m: string)
    requires |f| <= |g|
    ensures ClassKey(f, l) == ClassKey(g, m)
      <==> (f == g && l == m) || (|f| < |g| && g[..|f|] == f && g[|f|] == ':' && l == g[|f| + 1..] + ":" + m)
  {
    var x, y := ClassKey(f, l), ClassKey(g, m);
    assert x[..|f|] == f && x[|f|] == ':' && x[|f| + 1..] == l;
    assert y[..|g|] == g;
    if |f| == |g| {
      assert y[|g| + 1..] == m;
    } else {
      assert y[..|f|] == g[..|f|] && y[|f|] == g[|f|];
      assert y[|f| + 1..] == g[|f| + 1..] + ":" + m;
      assert y == y[..|f|] + [y[|f|]] + y[|f| + 1..];
      assert x == f + [':'] + l;
    }
  }

  /**
   The key "family:tag" keeps families apart when no family name contains a colon.  Identifiers may
   contain one, and then distinct classes can share a key.
   */
  lemma ClassKeysDiffer(f: string, l: string, g: string, m: string)
    requires ':' !in f && ':' !in g
    ensures ClassKey(f, l) == ClassKey(g, m) <==> f == g && l == m
  {
    if |f| <= |g| { ClassKeysCollide(f, l, g, m); } else { ClassKeysCollide(g, m, f, l); }
  }

  lemma ClassesCanCollide()
    ensures ClassKey("a", "b:c") == ClassKey("a:b", "c")
  {
    ClassKeysCollide("a", "b:c", "a:b", "c");
    assert "a:b"[..1] == "a" && "a:b"[2..] == "b" && "b:c" == "b" + ":" + "c";
  }

  // ----- Percentiles -----

  function InsertReal(x: real, s: seq<real>): seq<real> {
    if s == [] || x <= s[0] then [x] + s else [s[0]] + InsertReal(x, s[1..])
  }

  function SortReals(s: seq<real>): seq<real> {
    if s == [] then [] else InsertReal(s[0], SortReals(s[1..]))
  }

  function CountAtMost(s: seq<real>, v: real): nat {
    if s == [] then 0 else Bit(s[0] <= v) + CountAtMost(s[1..], v)
  }

  function CountBelow(s: seq<real>, v: real): nat {
    if s == [] then 0 else Bit(s[0] < v) + CountBelow(s[1..], v)
  }

  ghost predicate Ascending(s: seq<real>) {
    forall i, j :: 0 <= i <= j < |s| ==> s[i] <= s[j]
  }

  lemma {:induction false} InsertRealKeeps(x: real, s: seq<real>, v: real)
    requires Ascending(s)
    ensures Ascending(InsertReal(x, s)) && |InsertReal(x, s)| == |s| + 1
    ensures s != [] ==> InsertReal(x, s)[0] == (if x <= s[0] then x else s[0])
    ensures CountAtMost(InsertReal(x, s), v) == CountAtMost(s, v) + Bit(x <= v)
    ensures CountBelow(InsertReal(x, s), v) == CountBelow(s, v) + Bit(x < v)
  {
    if s != [] && x > s[0] {
      InsertRealKeeps(x, s[1..], v);
      var rest := InsertReal(x, s[1..]);
      assert s[0] <= rest[0] by { if |s| == 1 { assert rest == [x]; } }
      assert InsertReal(x, s) == [s[0]] + rest;
    } else {
      assert ([x] + s)[1..] == s;
    }
  }

  lemma {:induction false} SortRealsKeeps(s: seq<real>, v: real)
    ensures Ascending(SortReals(s)) && |SortReals(s)| == |s|
    ensures CountAtMost(SortReals(s), v) == CountAtMost(s, v) && CountBelow(SortReals(s), v) == CountBelow(s, v)
  {
    if s != [] {
      SortRealsKeeps(s[1..], v);
      InsertRealKeeps(s[0], SortReals(s[1..]), v);
    }
  }

  lemma {:induction false} AscendingCounts(s: seq<real>, k: nat, v: real)
    requires Ascending(s) && k < |s| && v == s[k]
    ensures CountAtMost(s, v) >= k + 1 && CountBelow(s, v) <= k
  {
    if k == 0 {
      NoneBelowFirst(s, v);
    } else {
      AscendingCounts(s[1..], k - 1, v);
    }
  }

  lemma {:induction false} NoneBelowFirst(s: seq<real>, v: real)
    requires Ascending(s) && s != [] && v <= s[0]
    ensures CountBelow(s, v) == 0
  {
    if |s| > 1 { NoneBelowFirst(s[1..], v); }
  }

  function Ceiling(x: real): int {
    -((-x).Floor)
  }

  /** max(0, ceil(n * q) - 1), the index the code reads. */
  function RankIndex(n: nat, q: real): nat {
    var r := Ceiling(n as real * q) - 1;
    if r < 0 then 0 else r
  }

  lemma RankIndexInRange(n: nat, q: real)
    requires n > 0 && 0.0 <= q <= 1.0
    ensures RankIndex(n, q) < n
  {
    var x := n as real * q;
    MulLeq(n as real, q, 1.0);
    CeilingAtMost(x, n);
  }

  lemma CeilingAtMost(x: real, n: nat)
    requires x <= n as real
    ensures Ceiling(x) <= n
  {
  }

  /** `percentile` before its final rounding. */
  function Percentile(values: seq<real>, q: real): (v: Option<real>)
    requires 0.0 <= q <= 1.0
    ensures v.None? <==> values == []
  {
    if values == [] then None
    else
      SortRealsKeeps(values, 0.0);
      RankIndexInRange(|values|, q);
      Some(SortReals(values)[RankIndex(|values|, q)])
  }

  lemma CountsCompare(most: nat, below: nat, k: nat, x: real)
    requires most >= k + 1 && below <= k && (k + 1) as real >= x && (k == 0 || k as real < x)
    ensures most as real >= x && (below == 0 || below as real < x)
  {
  }

  lemma RankBounds(n: nat, q: real, x: real)
    requires x == n as real * q
    ensures (RankIndex(n, q) + 1) as real >= x
    ensures RankIndex(n, q) == 0 || RankIndex(n, q) as real < x
  {
    var c := Ceiling(x);
    assert c as real >= x && (c - 1) as real < x;
  }

  /** The nearest-rank percentile: at least q of the values do not exceed it, fewer than q (or none) lie below. */
  lemma PercentileIsNearestRank(values: seq<real>, q: real)
    requires values != [] && 0.0 <= q <= 1.0
    ensures var v := Percentile(values, q).value;
      && CountAtMost(values, v) as real >= |values| as real * q
      && (CountBelow(values, v) == 0 || CountBelow(values, v) as real < |values| as real * q)
  {
    hide RankIndex, SortReals, CountAtMost, CountBelow, Ascending;
    var k, x := RankIndex(|values|, q), |values| as real * q;
    RankIndexInRange(|values|, q);
    RankBounds(|values|, q, x);
    var v := Percentile(values, q).value;
    SortRealsKeeps(values, v);
    AscendingCounts(SortReals(values), k, v);
    CountsCompare(CountAtMost(values, v), CountBelow(values, v), k, x);
  }
}
