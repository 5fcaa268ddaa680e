/** What presenting the options in reverse does to a decision, for a backend that follows the order. */
module OptionOrder {
  import opened Elementary
  import opened Outcomes
  import opened Softmax
  import opened Contracts
  import opened Engine

  function Mirror(n: nat, i: nat): nat
    requires i < n
  {
    n - 1 - i
  }

  lemma {:induction false} SumReversed(s: seq<real>)
    ensures Sum(Reversed(s)) == Sum(s)
  {
    if s != [] {
      SumReversed(s[1..]);
      SumAppend(Reversed(s[1..]), s[0]);
      assert Reversed(s) == Reversed(s[1..]) + [s[0]];
    }
  }

  lemma MaxReversed(v: seq<real>)
    requires v != []
    ensures MaxOf(Reversed(v)) == MaxOf(v)
  {
    var i :| 0 <= i < |v| && v[i] == MaxOf(v);
    assert Reversed(v)[Mirror(|v|, i)] == MaxOf(v);
    var j :| 0 <= j < |v| && Reversed(v)[j] == MaxOf(Reversed(v));
    assert v[Mirror(|v|, j)] == MaxOf(Reversed(v));
  }

  lemma WeightsReversed(a: Analysis, zs: seq<real>, beta: real)
    ensures Weights(a, Reversed(zs), beta) == Reversed(Weights(a, zs, beta))
  {
  }

  /** Reversed scores give reversed probabilities. */
  lemma ProbabilitiesReversed(a: Analysis, logits: seq<real>, t: real)
    requires a.Lawful() && logits != [] && t > 0.0
    ensures Probabilities(a, Reversed(logits), |logits|, t).value
      == Reversed(Probabilities(a, logits, |logits|, t).value)
  {
    hide Weights, MaxOf, Sum, Probabilities, Scaled;
    var zs, beta := Shifted(logits, MaxOf(logits)), 1.0 / t;
    MaxReversed(logits);
    assert Shifted(Reversed(logits), MaxOf(logits)) == Reversed(zs);
    WeightsReversed(a, zs, beta);
    SumReversed(Weights(a, zs, beta));
    ProbabilitiesAt(a, logits, t, beta);
    ProbabilitiesAt(a, Reversed(logits), t, beta);
    ScaledReversed(Weights(a, zs, beta), Sum(Weights(a, zs, beta)));
  }

  lemma ScaledReversed(ws: seq<real>, total: real)
    requires total != 0.0
    ensures Scaled(Reversed(ws), total) == Reversed(Scaled(ws, total))
  {
    forall i | 0 <= i < |ws| ensures Scaled(Reversed(ws), total)[i] == Reversed(Scaled(ws, total))[i] {
      assert Reversed(ws)[i] == ws[|ws| - 1 - i];
    }
  }

  // ----- Leader and runner-up by value -----

  /** `i` holds the largest entry and `j` the largest of the others. */
  ghost predicate BestTwo(ps: seq<real>, i: nat, j: nat) {
    && i < |ps| && j < |ps| && i != j
    && forall k :: 0 <= k < |ps| ==> ps[k] <= ps[i] && (k != i ==> ps[k] <= ps[j])
  }

  function Leader(ps: seq<real>): (i: nat)
    requires |ps| >= 2
    ensures i < |ps|
  {
    Ranking(ps, |ps|)[0]
  }

  function RunnerUp(ps: seq<real>): (i: nat)
    requires |ps| >= 2
    ensures i < |ps|
  {
    Ranking(ps, |ps|)[1]
  }

  lemma LeaderIsAhead(ps: seq<real>, k: nat)
    requires |ps| >= 2 && k < |ps| && k != Leader(ps)
    ensures Ahead(ps, Leader(ps), k) && (k == RunnerUp(ps) || Ahead(ps, RunnerUp(ps), k))
  {
    var order := Ranking(ps, |ps|);
    RankingRanks(ps, |ps|);
    assert k in order;
    var p :| 0 <= p < |order| && order[p] == k;
    assert Ahead(ps, order[0], order[p]);
    if p > 1 { assert Ahead(ps, order[1], order[p]); }
  }

  lemma RankingBestTwo(ps: seq<real>)
    requires |ps| >= 2
    ensures BestTwo(ps, Leader(ps), RunnerUp(ps))
  {
    var order := Ranking(ps, |ps|);
    RankingRanks(ps, |ps|);
    assert Ahead(ps, order[0], order[1]);
    forall k | 0 <= k < |ps|
      ensures ps[k] <= ps[Leader(ps)] && (k != Leader(ps) ==> ps[k] <= ps[RunnerUp(ps)])
    {
      if k != Leader(ps) { LeaderIsAhead(ps, k); }
    }
  }

  lemma MirroredBestTwo(ps: seq<real>, i: nat, j: nat)
    requires BestTwo(Reversed(ps), i, j)
    ensures BestTwo(ps, Mirror(|ps|, i), Mirror(|ps|, j))
  {
    var rs := Reversed(ps);
    forall k | 0 <= k < |ps|
      ensures ps[k] <= ps[Mirror(|ps|, i)] && (k != Mirror(|ps|, i) ==> ps[k] <= ps[Mirror(|ps|, j)])
    {
      assert rs[Mirror(|ps|, k)] == ps[k];
    }
  }

  lemma BestTwoValues(ps: seq<real>, i: nat, j: nat, k: nat, l: nat)
    requires BestTwo(ps, i, j) && BestTwo(ps, k, l)
    ensures ps[i] == ps[k] && ps[j] == ps[l]
  {
  }

  ghost predicate LeadsAlone(ps: seq<real>, i: nat) {
    i < |ps| && forall k :: 0 <= k < |ps| && k != i ==> ps[k] < ps[i]
  }

  /** No other entry reaches the leader. */
  ghost predicate UniqueLeader(ps: seq<real>) {
    exists i :: LeadsAlone(ps, i)
  }

  /** Both orders see the same two best values. */
  lemma MirroredValues(ps: seq<real>)
    requires |ps| >= 2
    ensures Reversed(ps)[Leader(Reversed(ps))] == ps[Leader(ps)]
    ensures Reversed(ps)[RunnerUp(Reversed(ps))] == ps[RunnerUp(ps)]
  {
    RankingBestTwo(ps);
    RankingBestTwo(Reversed(ps));
    MirroredBestTwo(ps, Leader(Reversed(ps)), RunnerUp(Reversed(ps)));
    BestTwoValues(ps, Leader(ps), RunnerUp(ps), Mirror(|ps|, Leader(Reversed(ps))),
                  Mirror(|ps|, RunnerUp(Reversed(ps))));
  }

  /** Both orders lead with the same option exactly when it leads alone. */
  lemma MirroredLeader(ps: seq<real>)
    requires |ps| >= 2
    ensures UniqueLeader(ps) <==> Mirror(|ps|, Leader(Reversed(ps))) == Leader(ps)
  {
    var i, j := Leader(ps), Leader(Reversed(ps));
    if Mirror(|ps|, j) == i {
      forall k | 0 <= k < |ps| && k != i ensures ps[k] < ps[i] {
        LeaderIsAhead(ps, k);
        LeaderIsAhead(Reversed(ps), Mirror(|ps|, k));
      }
      assert LeadsAlone(ps, i);
    }
    if UniqueLeader(ps) {
      var u :| LeadsAlone(ps, u);
      MirroredValues(ps);
      RankingBestTwo(ps);
      assert i == u && Mirror(|ps|, j) == u;
    }
  }

  lemma SameComparisons(ps: seq<real>, qs: seq<real>)
    requires |ps| == |qs|
    requires forall i, k :: 0 <= i < |ps| && 0 <= k < |ps| ==> (ps[k] < ps[i] <==> qs[k] < qs[i])
    ensures UniqueLeader(ps) <==> UniqueLeader(qs)
  {
    if UniqueLeader(ps) { var i :| LeadsAlone(ps, i); assert LeadsAlone(qs, i); }
    if UniqueLeader(qs) { var i :| LeadsAlone(qs, i); assert LeadsAlone(ps, i); }
  }

  lemma {:induction false} ExpectationAppend(ps: seq<real>, os: seq<Candidate>, p: real, o: Candidate)
    requires |ps| == |os|
    ensures Expectation(ps + [p], os + [o])
         == Expectation(ps, os) + p * (if o.value.Number? then o.value.number else 0.0)
  {
    if ps != [] {
      ExpectationAppend(ps[1..], os[1..], p, o);
      assert (ps + [p])[1..] == ps[1..] + [p] && (os + [o])[1..] == os[1..] + [o];
    }
  }

  lemma {:induction false} ExpectationReversed(ps: seq<real>, os: seq<Candidate>)
    requires |ps| == |os|
    ensures Expectation(Reversed(ps), Reversed(os)) == Expectation(ps, os)
  {
    if ps != [] {
      ExpectationReversed(ps[1..], os[1..]);
      ExpectationAppend(Reversed(ps[1..]), Reversed(os[1..]), ps[0], os[0]);
      assert Reversed(ps) == Reversed(ps[1..]) + [ps[0]] && Reversed(os) == Reversed(os[1..]) + [os[0]];
    }
  }

  function ReversedRequest(q: Request): Request {
    q.(options := Reversed(q.options))
  }

  /** A backend whose scores follow the options. */
  function ReversedRun(run: Inference): Inference {
    if run.reply.Success?
    then run.(reply := Success(run.reply.value.(logits := Reversed(run.reply.value.logits))))
    else run
  }

  lemma MirroredSelection(cs: seq<Candidate>, ps: seq<real>)
    requires |ps| == |cs| >= 2 && DistinctIds(cs)
    ensures Reversed(cs)[Leader(Reversed(ps))].id == cs[Leader(ps)].id <==> UniqueLeader(ps)
    ensures UniqueLeader(ps) ==> Reversed(cs)[Leader(Reversed(ps))] == cs[Leader(ps)]
  {
    MirroredLeader(ps);
    var i, j := Leader(ps), Mirror(|ps|, Leader(Reversed(ps)));
    assert Reversed(cs)[Leader(Reversed(ps))] == cs[j];
    if i < j { assert cs[i].id != cs[j].id; }
    if j < i { assert cs[j].id != cs[i].id; }
  }

  lemma JudgeReversed(policy: Policy, q: Request, ps: seq<real>, scores: Scores)
    requires |ps| == |scores.logits| == |q.options| >= 2 && DistinctIds(q.options)
    ensures var b := Judge(policy, q, ps, scores);
      var c := Judge(policy, ReversedRequest(q), Reversed(ps), scores.(logits := Reversed(scores.logits)));
      && c.probability == b.probability && c.margin == b.margin
      && (c.selected == b.selected <==> UniqueLeader(ps))
      && (UniqueLeader(ps) ==> c.reason == b.reason && c.value == b.value)
  {
    hide Ranking, Expectation, UniqueLeader;
    MirroredValues(ps);
    MirroredSelection(q.options, ps);
    ExpectationReversed(ps, q.options);
  }

  lemma UniqueLeaderOfScores(a: Analysis, logits: seq<real>, t: real)
    requires a.Lawful() && logits != [] && t > 0.0
    ensures UniqueLeader(Probabilities(a, logits, |logits|, t).value) <==> UniqueLeader(logits)
  {
    var ps := Probabilities(a, logits, |logits|, t).value;
    forall i, k | 0 <= i < |ps| && 0 <= k < |ps| ensures ps[k] < ps[i] <==> logits[k] < logits[i] {
      ProbabilitiesKeepOrder(a, logits, t, k, i);
    }
    SameComparisons(ps, logits);
  }

  /**
   Reversing the options changes neither whether the decision fails nor the leading probability nor the
   margin.  It keeps the selected option exactly when the leading score is unique; then the status and
   the typed value, the expected score included, are kept too.
   */
  lemma ReversalKeepsDecision(a: Analysis, e: DecisionEngine, q: Request, run: Inference)
    requires a.Lawful() && IsRequest(q) && |q.options| >= 2 && Temperature(e.calibration) > 0.0
    ensures var b, c := Evaluate(a, e, q, run), Evaluate(a, e, ReversedRequest(q), ReversedRun(run));
      if b.Failed? then c == b
      else c.Computed? && c.probability == b.probability && c.margin == b.margin
           && (c.selected == b.selected <==> UniqueLeader(run.reply.value.logits))
           && (c.selected == b.selected ==> c.reason == b.reason && c.value == b.value)
  {
    hide IsRequest, SchemaSha, Judge, Probabilities, UniqueLeader, DistinctIds;
    RequestFacts(q);
    ReversedIsPermutation(q.options);
    SchemaShaIsOrderFree(q, ReversedRequest(q));
    if run.reply.Success? && |run.reply.value.logits| == |q.options| {
      var logits, t := run.reply.value.logits, Temperature(e.calibration);
      ProbabilitiesReversed(a, logits, t);
      UniqueLeaderOfScores(a, logits, t);
      JudgeReversed(e.policy, q, Probabilities(a, logits, |logits|, t).value, run.reply.value);
    }
  }
}
