/** The in-process counters behind `/metrics`: what they say about the requests that have finished. */
module Metrics {
  import opened Outcomes
  import Engine

  /** Every reason a decision handler can report: the engine's codes and the server's own. */
  datatype ServerReason =
    | FromEngine(code: Code) | Busy | ProfileMismatch | ReadTimeout | InvalidContentType | InvalidContentLength
    | BodyTooLarge | LocalClientsOnly | NotFound

  datatype Response = Decided(reason: Engine.Reason) | Rejected(cause: ServerReason)

  datatype Outcome =
    | Ok | Abstain | BusyOutcome | Invalid | ProfileMismatchOutcome | ContextRejected
    | BackendErrorOutcome | TimeoutOutcome | CancelledOutcome | UnavailableOutcome

  datatype Class = ComputedClass | RejectedClass | FailedClass

  const OUTCOMES := [Ok, Abstain, BusyOutcome, Invalid, ProfileMismatchOutcome, ContextRejected,
                     BackendErrorOutcome, TimeoutOutcome, CancelledOutcome, UnavailableOutcome]

  const CLASSES := [ComputedClass, RejectedClass, FailedClass]

  const BUCKETS := [0.05, 0.1, 0.25, 0.5, 1.0, 2.0, 5.0, 10.0]

  /** `outcome`: total, so an unknown reason cannot escape the vocabulary. */
  function OutcomeOf(r: Response): Outcome {
    match r
    case Decided(Accepted) => Ok
    case Decided(_) => Abstain
    case Rejected(Busy) => BusyOutcome
    case Rejected(ProfileMismatch) => ProfileMismatchOutcome
    case Rejected(FromEngine(ContextTooLong)) => ContextRejected
    case Rejected(FromEngine(CalibrationOutOfScope)) => ContextRejected
    case Rejected(FromEngine(InferenceTimeout)) => TimeoutOutcome
    case Rejected(ReadTimeout) => TimeoutOutcome
    case Rejected(FromEngine(InferenceCancelled)) => CancelledOutcome
    case Rejected(FromEngine(BackendUnavailable)) => UnavailableOutcome
    case Rejected(FromEngine(InvalidRequest)) => Invalid
    case Rejected(InvalidContentType) => Invalid
    case Rejected(InvalidContentLength) => Invalid
    case Rejected(BodyTooLarge) => Invalid
    case Rejected(LocalClientsOnly) => Invalid
    case Rejected(_) => BackendErrorOutcome
  }

  function ClassOf(o: Outcome): Class {
    if o in {Ok, Abstain} then ComputedClass
    else if o in {BusyOutcome, Invalid, ProfileMismatchOutcome, ContextRejected} then RejectedClass
    else FailedClass
  }

  /** One finished request. */
  datatype Observation = Observation(outcome: Outcome, seconds: real)

  datatype Histogram = Histogram(buckets: seq<nat>, count: nat, sum: real)

  // ----- What the counters mean, as functions of everything observed -----

  function CountOutcome(log: seq<Observation>, o: Outcome): nat {
    if log == [] then 0 else CountOutcome(log[..|log| - 1], o) + if log[|log| - 1].outcome == o then 1 else 0
  }

  function CountClass(log: seq<Observation>, c: Class): nat {
    if log == [] then 0 else CountClass(log[..|log| - 1], c) + if ClassOf(log[|log| - 1].outcome) == c then 1 else 0
  }

  function CountWithin(log: seq<Observation>, c: Class, upper: real): nat {
    if log == [] then 0
    else CountWithin(log[..|log| - 1], c, upper)
         + if ClassOf(log[|log| - 1].outcome) == c && log[|log| - 1].seconds <= upper then 1 else 0
  }

  function TotalSeconds(log: seq<Observation>, c: Class): real {
    if log == [] then 0.0
    else TotalSeconds(log[..|log| - 1], c)
         + if ClassOf(log[|log| - 1].outcome) == c then log[|log| - 1].seconds else 0.0
  }

  ghost predicate HistogramIs(histograms: map<Class, Histogram>, log: seq<Observation>, c: Class) {
    && c in histograms && |histograms[c].buckets| == |BUCKETS|
    && histograms[c].count == CountClass(log, c)
    && histograms[c].sum == TotalSeconds(log, c)
    && forall i :: 0 <= i < |BUCKETS| ==> histograms[c].buckets[i] == CountWithin(log, c, BUCKETS[i])
  }

  class DecisionMetrics {
    var inProgress: int
    var outcomes: map<Outcome, nat>
    var histograms: map<Class, Histogram>
    ghost var log: seq<Observation>

    ghost predicate Valid()
      reads this
    {
      && inProgress >= 0
      && (forall o: Outcome :: o in outcomes && outcomes[o] == CountOutcome(log, o))
      && (forall c: Class :: HistogramIs(histograms, log, c))
    }

    constructor ()
      ensures Valid() && inProgress == 0 && log == []
    {
      inProgress, log := 0, [];
      outcomes := map o: Outcome | o in OUTCOMES :: 0;
      histograms := map c: Class | c in CLASSES :: Histogram(seq(|BUCKETS|, i => 0), 0, 0.0);
      new;
      forall o: Outcome ensures o in OUTCOMES { EveryOutcomeListed(o); }
      forall c: Class ensures HistogramIs(histograms, log, c) { EveryClassListed(c); }
    }

    method Begin()
      requires Valid()
      modifies `inProgress
      ensures Valid() && inProgress == old(inProgress) + 1
    {
      inProgress := inProgress + 1;
    }

    /** Records one observation; refuses, changing nothing, only a negative duration or a missing start. */
    method Finish(value: Outcome, seconds: real) returns (ok: bool)
      requires Valid()
      modifies this
      ensures Valid()
      ensures ok <==> seconds >= 0.0 && old(inProgress) > 0
      ensures ok ==> inProgress == old(inProgress) - 1 && log == old(log) + [Observation(value, seconds)]
      ensures !ok ==> inProgress == old(inProgress) && log == old(log)
    {
      hide CountOutcome, CountClass, CountWithin, TotalSeconds;
      if seconds < 0.0 || inProgress <= 0 { return false; }
      ghost var before := log;
      var class_ := ClassOf(value);
      assert HistogramIs(histograms, log, class_);
      var histogram := histograms[class_];
      var buckets := histogram.buckets;
      for i := 0 to |BUCKETS|
        invariant |buckets| == |BUCKETS|
        invariant forall k :: 0 <= k < i ==> buckets[k] == histogram.buckets[k] + if seconds <= BUCKETS[k] then 1 else 0
        invariant forall k :: i <= k < |BUCKETS| ==> buckets[k] == histogram.buckets[k]
      {
        if seconds <= BUCKETS[i] { buckets := buckets[i := buckets[i] + 1]; }
      }
      inProgress := inProgress - 1;
      outcomes := outcomes[value := outcomes[value] + 1];
      ghost var previous := histograms;
      histograms := histograms[class_ := Histogram(buckets, histogram.count + 1, histogram.sum + seconds)];
      log := log + [Observation(value, seconds)];
      LogGrows(before, value, seconds);
      forall c: Class ensures HistogramIs(histograms, log, c) {
        assert HistogramIs(previous, before, c);
        if c != class_ { assert histograms[c] == previous[c]; }
      }
      ok := true;
    }
  }

  lemma LogGrows(log: seq<Observation>, value: Outcome, seconds: real)
    ensures var more := log + [Observation(value, seconds)];
      && (forall o: Outcome :: CountOutcome(more, o) == CountOutcome(log, o) + if o == value then 1 else 0)
      && (forall c: Class :: CountClass(more, c) == CountClass(log, c) + if c == ClassOf(value) then 1 else 0)
      && (forall c: Class ::
            TotalSeconds(more, c) == TotalSeconds(log, c) + if c == ClassOf(value) then seconds else 0.0)
      && (forall c: Class, u: real :: CountWithin(more, c, u)
            == CountWithin(log, c, u) + if c == ClassOf(value) && seconds <= u then 1 else 0)
  {
    var more := log + [Observation(value, seconds)];
    assert more[..|more| - 1] == log;
  }

  lemma EveryOutcomeListed(o: Outcome)
    ensures o in OUTCOMES
  {
    match o
    case Ok => assert OUTCOMES[0] == o;
    case Abstain => assert OUTCOMES[1] == o;
    case BusyOutcome => assert OUTCOMES[2] == o;
    case Invalid => assert OUTCOMES[3] == o;
    case ProfileMismatchOutcome => assert OUTCOMES[4] == o;
    case ContextRejected => assert OUTCOMES[5] == o;
    case BackendErrorOutcome => assert OUTCOMES[6] == o;
    case TimeoutOutcome => assert OUTCOMES[7] == o;
    case CancelledOutcome => assert OUTCOMES[8] == o;
    case UnavailableOutcome => assert OUTCOMES[9] == o;
  }

  lemma EveryClassListed(c: Class)
    ensures c in CLASSES
  {
    match c
    case ComputedClass => assert CLASSES[0] == c;
    case RejectedClass => assert CLASSES[1] == c;
    case FailedClass => assert CLASSES[2] == c;
  }

  function SumOutcomes(log: seq<Observation>, os: seq<Outcome>): nat {
    if os == [] then 0 else CountOutcome(log, os[0]) + SumOutcomes(log, os[1..])
  }

  function OfClass(c: Class): seq<Outcome> {
    match c
    case ComputedClass => [Ok, Abstain]
    case RejectedClass => [BusyOutcome, Invalid, ProfileMismatchOutcome, ContextRejected]
    case FailedClass => [BackendErrorOutcome, TimeoutOutcome, CancelledOutcome, UnavailableOutcome]
  }

  function Occurs(os: seq<Outcome>, value: Outcome): nat {
    if os == [] then 0 else (if os[0] == value then 1 else 0) + Occurs(os[1..], value)
  }

  lemma {:induction false} OccursAppend(xs: seq<Outcome>, ys: seq<Outcome>, value: Outcome)
    ensures Occurs(xs + ys, value) == Occurs(xs, value) + Occurs(ys, value)
  {
    if xs == [] {
      assert xs + ys == ys;
    } else {
      OccursAppend(xs[1..], ys, value);
      assert (xs + ys)[1..] == xs[1..] + ys;
    }
  }

  function Is(x: Outcome, y: Outcome): nat {
    if x == y then 1 else 0
  }

  lemma OccursPair(a: Outcome, b: Outcome, value: Outcome)
    ensures Occurs([a, b], value) == Is(a, value) + Is(b, value)
  {
    assert [a, b][1..] == [b] && [b][1..] == [];
    assert Occurs([b], value) == Is(b, value) + Occurs([], value);
  }

  lemma OccursFour(a: Outcome, b: Outcome, c: Outcome, d: Outcome, value: Outcome)
    ensures Occurs([a, b, c, d], value) == Is(a, value) + Is(b, value) + Is(c, value) + Is(d, value)
  {
    OccursPair(a, b, value);
    OccursPair(c, d, value);
    OccursAppend([a, b], [c, d], value);
    assert [a, b, c, d] == [a, b] + [c, d];
  }

  /** Every outcome is listed once in its own class and in no other. */
  lemma OnceInItsClass(value: Outcome, c: Class)
    ensures Occurs(OfClass(c), value) == if c == ClassOf(value) then 1 else 0
  {
    OccursPair(Ok, Abstain, value);
    OccursFour(BusyOutcome, Invalid, ProfileMismatchOutcome, ContextRejected, value);
    OccursFour(BackendErrorOutcome, TimeoutOutcome, CancelledOutcome, UnavailableOutcome, value);
    hide Occurs;
  }

  /** So it is listed once overall. */
  lemma OnceEach(value: Outcome)
    ensures Occurs(OUTCOMES, value) == 1
    ensures forall c: Class :: Occurs(OfClass(c), value) == if c == ClassOf(value) then 1 else 0
  {
    hide *;
    OutcomesByClass();
    OccursAppend(OfClass(ComputedClass), OfClass(RejectedClass) + OfClass(FailedClass), value);
    OccursAppend(OfClass(RejectedClass), OfClass(FailedClass), value);
    forall c: Class ensures Occurs(OfClass(c), value) == if c == ClassOf(value) then 1 else 0 {
      OnceInItsClass(value, c);
    }
    OnceInItsClass(value, ComputedClass);
    OnceInItsClass(value, RejectedClass);
    OnceInItsClass(value, FailedClass);
  }

  lemma OutcomesByClass()
    ensures OUTCOMES == OfClass(ComputedClass) + (OfClass(RejectedClass) + OfClass(FailedClass))
  {
  }

  /** One more observation adds to a sum of counters as often as its outcome is listed. */
  lemma {:induction false} SumGrows(log: seq<Observation>, value: Outcome, seconds: real, os: seq<Outcome>)
    ensures SumOutcomes(log + [Observation(value, seconds)], os) == SumOutcomes(log, os) + Occurs(os, value)
  {
    if os == [] {
    } else {
      SumGrows(log, value, seconds, os[1..]);
      LogGrows(log, value, seconds);
      hide CountOutcome;
    }
  }

  lemma {:induction false} NothingSummed(os: seq<Outcome>)
    ensures SumOutcomes([], os) == 0
  {
    if os != [] { NothingSummed(os[1..]); }
  }

  /** The outcome counters add up to the finished requests, and each class count to its outcomes. */
  lemma {:induction false} OutcomesAddUp(log: seq<Observation>)
    ensures SumOutcomes(log, OUTCOMES) == |log|
    ensures forall c: Class :: CountClass(log, c) == SumOutcomes(log, OfClass(c))
  {
    if log == [] {
      NothingSummed(OUTCOMES);
      forall c: Class ensures SumOutcomes([], OfClass(c)) == 0 { NothingSummed(OfClass(c)); }
    } else {
      var rest, last := log[..|log| - 1], log[|log| - 1];
      OutcomesAddUp(rest);
      AddOne(rest, last.outcome, last.seconds);
      assert log == rest + [Observation(last.outcome, last.seconds)];
    }
  }

  lemma AddOne(log: seq<Observation>, value: Outcome, seconds: real)
    requires SumOutcomes(log, OUTCOMES) == |log|
    requires forall c: Class :: CountClass(log, c) == SumOutcomes(log, OfClass(c))
    ensures var more := log + [Observation(value, seconds)];
      && SumOutcomes(more, OUTCOMES) == |more|
      && forall c: Class :: CountClass(more, c) == SumOutcomes(more, OfClass(c))
  {
    hide *;
    OnceEach(value);
    LogGrows(log, value, seconds);
    SumGrows(log, value, seconds, OUTCOMES);
    var more := log + [Observation(value, seconds)];
    forall c: Class ensures CountClass(more, c) == SumOutcomes(more, OfClass(c)) {
      SumGrows(log, value, seconds, OfClass(c));
      assert CountClass(log, c) == SumOutcomes(log, OfClass(c));
    }
  }

  /** The buckets are cumulative and the +Inf bucket, the class count, is the largest. */
  lemma {:induction false} BucketsAreCumulative(log: seq<Observation>, c: Class, lower: real, upper: real)
    requires lower <= upper
    ensures CountWithin(log, c, lower) <= CountWithin(log, c, upper) <= CountClass(log, c)
  {
    if log != [] { BucketsAreCumulative(log[..|log| - 1], c, lower, upper); }
  }

  // ----- What the counters say about the responses -----

  /** The log of finished requests, each with its response and duration. */
  function LogOf(served: seq<(Response, real)>): (log: seq<Observation>)
    ensures |log| == |served|
  {
    if served == [] then []
    else
      var last := served[|served| - 1];
      LogOf(served[..|served| - 1]) + [Observation(OutcomeOf(last.0), last.1)]
  }

  function CountDecided(served: seq<(Response, real)>): nat {
    if served == [] then 0
    else CountDecided(served[..|served| - 1]) + if served[|served| - 1].0.Decided? then 1 else 0
  }

  function CountAccepted(served: seq<(Response, real)>): nat {
    if served == [] then 0
    else CountAccepted(served[..|served| - 1]) + if served[|served| - 1].0 == Decided(Engine.Accepted) then 1 else 0
  }

  /** The computed class counts exactly the requests that got a decision, and `ok` exactly the accepted ones. */
  lemma {:induction false} ComputedMeansDecided(served: seq<(Response, real)>)
    ensures CountClass(LogOf(served), ComputedClass) == CountDecided(served)
    ensures CountOutcome(LogOf(served), Ok) == CountAccepted(served)
    ensures CountOutcome(LogOf(served), Abstain) == CountDecided(served) - CountAccepted(served)
  {
    if served != [] {
      var rest, last := served[..|served| - 1], served[|served| - 1];
      ComputedMeansDecided(rest);
      assert LogOf(served)[..|served| - 1] == LogOf(rest);
      DecidedIsComputed(last.0);
      hide OutcomeOf, ClassOf;
    }
  }

  lemma DecidedIsComputed(r: Response)
    ensures ClassOf(OutcomeOf(r)) == ComputedClass <==> r.Decided?
    ensures OutcomeOf(r) == Ok <==> r == Decided(Engine.Accepted)
    ensures OutcomeOf(r) == Abstain <==> r.Decided? && r != Decided(Engine.Accepted)
  {
  }
}
