/**
 The HTTP server around the engine, as a transition system over its handler threads, the inference
 lock, the counters, the shutdown thread and the main thread that drains and exits.
 */
module Server {
  import opened Outcomes
  import opened Metrics

  /** A decision handler.  `Replying` holds the outcome its reply recorded; `Done` has been counted. */
  datatype Handler = Accepted | Begun | Admitted | Deciding | Replying(outcome: Outcome) | Done

  /**
   Where the main thread is: in `serve_forever`; in `server_close`, possibly with an interrupt pending;
   after it; between keeping the profile and returning; in the `finally` block; gone.
   */
  datatype Main =
    | Serving | Draining(interrupted: bool) | Drained | Retiring
    | Closing(code: int) | Recording(code: int) | Exited(code: int) | Crashed

  datatype State = State(
    handlers: map<nat, Handler>, lock: Option<nat>,
    inProgress: int, log: seq<Observation>,
    backendAlive: bool, backendFailed: bool, shutdowns: nat, shutdownRequested: bool,
    main: Main, backendClosed: bool, profileKept: bool, recorded: bool, interruptedLate: bool)

  ghost predicate Initial(s: State) {
    && s.handlers == map[] && s.lock == None && s.inProgress == 0 && s.log == []
    && !s.backendFailed && s.shutdowns == 0 && !s.shutdownRequested
    && s.main == Serving && !s.backendClosed && !s.profileKept && !s.recorded
    && !s.interruptedLate
  }

  // ----- Handlers -----

  predicate Accept(s: State, t: State, id: nat) {
    s.main == Serving && id !in s.handlers && t == s.(handlers := s.handlers[id := Accepted])
  }

  predicate Begin(s: State, t: State, id: nat) {
    id in s.handlers && s.handlers[id] == Accepted
    && t == s.(handlers := s.handlers[id := Begun], inProgress := s.inProgress + 1)
  }

  /** A reply, or an exception, before the lock: header checks, `busy`. */
  predicate TurnAway(s: State, t: State, id: nat, outcome: Outcome) {
    id in s.handlers && s.handlers[id] == Begun && (outcome == BusyOutcome ==> s.lock.Some?)
    && t == s.(handlers := s.handlers[id := Replying(outcome)])
  }

  /** `acquire(blocking=False)` succeeds only on a free lock. */
  predicate Acquire(s: State, t: State, id: nat) {
    id in s.handlers && s.handlers[id] == Begun && s.lock == None
    && t == s.(handlers := s.handlers[id := Admitted], lock := Some(id))
  }

  predicate Decide(s: State, t: State, id: nat) {
    id in s.handlers && s.handlers[id] == Admitted && t == s.(handlers := s.handlers[id := Deciding])
  }

  /** The `finally` that frees the lock, on a normal return and on any exception alike. */
  predicate Release(s: State, t: State, id: nat, outcome: Outcome) {
    id in s.handlers && (s.handlers[id] == Admitted || s.handlers[id] == Deciding)
    && t == s.(handlers := s.handlers[id := Replying(outcome)], lock := None)
  }

  /** The outer `finally`: one observation per handler, whatever happened to its reply. */
  predicate Finish(s: State, t: State, id: nat, seconds: real) {
    id in s.handlers && s.handlers[id].Replying? && seconds >= 0.0
    && t == s.(handlers := s.handlers[id := Done], inProgress := s.inProgress - 1,
               log := s.log + [Observation(s.handlers[id].outcome, seconds)])
  }

  // ----- Backend, shutdown and the main thread -----

  predicate BackendDies(s: State, t: State) {
    t == s.(backendAlive := false)
  }

  /** `service_actions`, run between requests and while idle; `exiting` is `exit_on_backend_unavailable`. */
  predicate ServiceActions(exiting: bool, s: State, t: State) {
    s.main == Serving && exiting && !s.backendFailed && !s.backendAlive
    && t == s.(backendFailed := true, shutdowns := s.shutdowns + 1, shutdownRequested := true)
  }

  predicate StopServing(s: State, t: State) {
    s.main == Serving && s.shutdownRequested && t == s.(main := Draining(false))
  }

  ghost predicate AllDone(s: State) {
    forall id :: id in s.handlers ==> s.handlers[id] == Done
  }

  /** `server_close` joins the handler threads unless they are daemons, which is when the option is off. */
  ghost predicate Drain(exiting: bool, s: State, t: State) {
    s.main.Draining? && (exiting ==> AllDone(s))
    && t == s.(main := if s.main.interrupted then Closing(130) else Drained)
  }

  predicate KeepProfile(exiting: bool, s: State, t: State) {
    s.main == Drained
    && t == if exiting && s.backendFailed then s.(main := Retiring, profileKept := true) else s.(main := Closing(0))
  }

  predicate Leave75(s: State, t: State) {
    s.main == Retiring && t == s.(main := Closing(75))
  }

  predicate CloseBackend(s: State, t: State) {
    s.main.Closing? && t == s.(main := Recording(s.main.code), backendClosed := true, backendAlive := false)
  }

  predicate Record(s: State, t: State) {
    s.main.Recording? && t == s.(main := Exited(s.main.code), recorded := s.profileKept)
  }

  /** SIGTERM or Ctrl-C in the main thread: exit 130 before the `finally` block, fatal inside it. */
  predicate Interrupt(s: State, t: State) {
    match s.main
    case Serving => t == s.(main := Draining(true))
    case Draining(_) => t == s.(main := Closing(130))
    case Drained => t == s.(main := Closing(130))
    case Retiring => t == s.(main := Closing(130), interruptedLate := true)
    case Closing(_) => t == s.(main := Crashed)
    case Recording(_) => t == s.(main := Crashed)
    case _ => false
  }

  datatype Event =
    | EAccept(id: nat) | EBegin(id: nat) | ETurnAway(id: nat, outcome: Outcome) | EAcquire(id: nat) | EDecide(id: nat)
    | ERelease(id: nat, outcome: Outcome) | EFinish(id: nat, seconds: real)
    | EBackendDies | EServiceActions | EStopServing | EDrain | EKeepProfile | ELeave75 | ECloseBackend | ERecord
    | EInterrupt

  ghost predicate HandlerStep(s: State, e: Event, t: State) {
    match e
    case EAccept(id) => Accept(s, t, id)
    case EBegin(id) => Begin(s, t, id)
    case ETurnAway(id, outcome) => TurnAway(s, t, id, outcome)
    case EAcquire(id) => Acquire(s, t, id)
    case EDecide(id) => Decide(s, t, id)
    case ERelease(id, outcome) => Release(s, t, id, outcome)
    case EFinish(id, seconds) => Finish(s, t, id, seconds)
    case _ => false
  }

  ghost predicate MainStep(exiting: bool, s: State, e: Event, t: State) {
    match e
    case EBackendDies => BackendDies(s, t)
    case EServiceActions => ServiceActions(exiting, s, t)
    case EStopServing => StopServing(s, t)
    case EDrain => Drain(exiting, s, t)
    case EKeepProfile => KeepProfile(exiting, s, t)
    case ELeave75 => Leave75(s, t)
    case ECloseBackend => CloseBackend(s, t)
    case ERecord => Record(s, t)
    case EInterrupt => Interrupt(s, t)
    case _ => false
  }

  ghost predicate Step(exiting: bool, s: State, e: Event, t: State) {
    HandlerStep(s, e, t) || MainStep(exiting, s, e, t)
  }

  // ----- The invariant -----

  predicate Inside(h: Handler) {
    h == Admitted || h == Deciding
  }

  predicate Active(h: Handler) {
    h == Begun || Inside(h) || h.Replying?
  }

  ghost function ActiveHandlers(handlers: map<nat, Handler>): set<nat> {
    set id | id in handlers && Active(handlers[id])
  }

  ghost function DoneHandlers(handlers: map<nat, Handler>): set<nat> {
    set id | id in handlers && handlers[id] == Done
  }

  /** The lock names exactly the handler that is inside. */
  ghost predicate Exclusive(s: State) {
    && (s.lock.Some? ==> s.lock.value in s.handlers && Inside(s.handlers[s.lock.value]))
    && (forall id :: id in s.handlers && Inside(s.handlers[id]) ==> s.lock == Some(id))
  }

  ghost predicate Counted(s: State) {
    s.inProgress == |ActiveHandlers(s.handlers)| && |s.log| == |DoneHandlers(s.handlers)|
  }

  ghost predicate ShutdownOnce(exiting: bool, s: State) {
    && s.shutdowns == (if s.backendFailed then 1 else 0)
    && (s.backendFailed ==> exiting && !s.backendAlive)
    && (s.shutdownRequested ==> s.backendFailed)
  }

  /** What is known of the way out, by program point of the main thread. */
  ghost predicate ExitInOrder(exiting: bool, s: State) {
    && (s.profileKept ==> exiting && s.backendFailed && AllDone(s))
    && (exiting && s.main in {Drained, Retiring} ==> AllDone(s))
    && (s.main in {Draining(false), Drained, Retiring} ==> exiting && s.backendFailed)
    && (s.main in {Serving, Drained} || s.main.Draining? ==> !s.profileKept)
    && (s.main == Retiring ==> s.profileKept && !s.interruptedLate)
    && (s.interruptedLate ==> s.profileKept)
    && (s.main.Recording? || s.main.Exited? ==> s.backendClosed)
    && (s.recorded ==> s.profileKept && s.main.Exited?)
    && (s.main.Exited? ==> s.recorded == s.profileKept)
    && (s.main.Closing? || s.main.Recording? || s.main.Exited? ==>
          (s.main.code == 75 <==> s.profileKept && !s.interruptedLate) && s.main.code in {75, 130})
  }

  ghost predicate Inv(exiting: bool, s: State) {
    Exclusive(s) && Counted(s) && ShutdownOnce(exiting, s) && ExitInOrder(exiting, s)
  }

  lemma InitialInv(exiting: bool, s: State)
    requires Initial(s)
    ensures Inv(exiting, s)
  {
    assert ActiveHandlers(s.handlers) == {} && DoneHandlers(s.handlers) == {};
  }

  lemma MoveActive(handlers: map<nat, Handler>, id: nat, h: Handler)
    ensures |ActiveHandlers(handlers[id := h])|
         == |ActiveHandlers(handlers)| + (if Active(h) then 1 else 0)
            - (if id in handlers && Active(handlers[id]) then 1 else 0)
  {
    var before, after := ActiveHandlers(handlers), ActiveHandlers(handlers[id := h]);
    assert id in after <==> Active(h);
    forall x | x != id ensures x in before <==> x in after { }
    Recounted(before, after, id);
  }

  lemma MoveDone(handlers: map<nat, Handler>, id: nat, h: Handler)
    ensures |DoneHandlers(handlers[id := h])|
         == |DoneHandlers(handlers)| + (if h == Done then 1 else 0)
            - (if id in handlers && handlers[id] == Done then 1 else 0)
  {
    var before, after := DoneHandlers(handlers), DoneHandlers(handlers[id := h]);
    assert id in after <==> h == Done;
    forall x | x != id ensures x in before <==> x in after { }
    Recounted(before, after, id);
  }

  /** Two sets that agree outside one element differ in size by that element alone. */
  lemma Recounted(before: set<nat>, after: set<nat>, x: nat)
    requires forall y :: y != x ==> (y in before <==> y in after)
    ensures |after| == |before| + (if x in after then 1 else 0) - (if x in before then 1 else 0)
  {
    Without(after, x);
    Without(before, x);
    assert after - {x} == before - {x};
  }

  /** Moving one handler changes each count by that handler alone. */
  lemma MoveCounts(handlers: map<nat, Handler>, id: nat, h: Handler)
    ensures |ActiveHandlers(handlers[id := h])|
         == |ActiveHandlers(handlers)| + (if Active(h) then 1 else 0)
            - (if id in handlers && Active(handlers[id]) then 1 else 0)
    ensures |DoneHandlers(handlers[id := h])|
         == |DoneHandlers(handlers)| + (if h == Done then 1 else 0)
            - (if id in handlers && handlers[id] == Done then 1 else 0)
  {
    hide ActiveHandlers, DoneHandlers;
    MoveActive(handlers, id, h);
    MoveDone(handlers, id, h);
  }

  lemma Without<T>(s: set<T>, x: T)
    ensures |s| == |s - {x}| + if x in s then 1 else 0
  {
    if x in s { assert s == (s - {x}) + {x}; } else { assert s == s - {x}; }
  }

  lemma HandlerStepCounts(s: State, e: Event, t: State)
    requires Counted(s) && HandlerStep(s, e, t)
    ensures Counted(t)
  {
    hide ActiveHandlers, DoneHandlers;
    match e
    case EAccept(id) => MoveCounts(s.handlers, id, Accepted);
    case EBegin(id) => MoveCounts(s.handlers, id, Begun);
    case ETurnAway(id, outcome) => MoveCounts(s.handlers, id, Replying(outcome));
    case EAcquire(id) => MoveCounts(s.handlers, id, Admitted);
    case EDecide(id) => MoveCounts(s.handlers, id, Deciding);
    case ERelease(id, outcome) => MoveCounts(s.handlers, id, Replying(outcome));
    case EFinish(id, seconds) => MoveCounts(s.handlers, id, Done);
  }

  lemma HandlerStepExcludes(s: State, e: Event, t: State)
    requires Exclusive(s) && HandlerStep(s, e, t)
    ensures Exclusive(t)
  {
  }

  /** Handlers do not touch the way out, and none moves once all are done and none is accepted any more. */
  lemma HandlerStepExits(exiting: bool, s: State, e: Event, t: State)
    requires ShutdownOnce(exiting, s) && ExitInOrder(exiting, s) && HandlerStep(s, e, t)
    ensures ShutdownOnce(exiting, t) && ExitInOrder(exiting, t)
  {
  }

  lemma HandlerStepInv(exiting: bool, s: State, e: Event, t: State)
    requires Inv(exiting, s) && HandlerStep(s, e, t)
    ensures Inv(exiting, t)
  {
    hide HandlerStep, Exclusive, Counted, ShutdownOnce, ExitInOrder;
    HandlerStepCounts(s, e, t);
    HandlerStepExcludes(s, e, t);
    HandlerStepExits(exiting, s, e, t);
  }

  lemma MainStepLeavesHandlers(exiting: bool, s: State, e: Event, t: State)
    requires MainStep(exiting, s, e, t)
    ensures t.handlers == s.handlers && t.lock == s.lock && t.inProgress == s.inProgress && t.log == s.log
    ensures ShutdownOnce(exiting, s) ==> ShutdownOnce(exiting, t)
  {
    hide AllDone;
    match e
    case EBackendDies => case EServiceActions => case EStopServing => case EDrain => case EKeepProfile =>
    case ELeave75 => case ECloseBackend => case ERecord => case EInterrupt =>
  }

  lemma MainStepExits(exiting: bool, s: State, e: Event, t: State)
    requires ShutdownOnce(exiting, s) && ExitInOrder(exiting, s) && MainStep(exiting, s, e, t)
      && t.handlers == s.handlers
    ensures ExitInOrder(exiting, t)
  {
    assert AllDone(t) <==> AllDone(s);
    hide AllDone;
    if e.EInterrupt? {
      InterruptExits(exiting, s, t);
    } else {
      match e
      case EBackendDies => case EServiceActions => case EStopServing => case EDrain => case EKeepProfile =>
      case ELeave75 => case ECloseBackend => case ERecord =>
    }
  }

  lemma InterruptExits(exiting: bool, s: State, t: State)
    requires ExitInOrder(exiting, s) && Interrupt(s, t) && (AllDone(t) <==> AllDone(s))
    ensures ExitInOrder(exiting, t)
  {
    hide AllDone;
  }

  lemma MainStepInv(exiting: bool, s: State, e: Event, t: State)
    requires Inv(exiting, s) && MainStep(exiting, s, e, t)
    ensures Inv(exiting, t)
  {
    hide MainStep, ShutdownOnce, ExitInOrder, ActiveHandlers, DoneHandlers;
    MainStepLeavesHandlers(exiting, s, e, t);
    MainStepExits(exiting, s, e, t);
  }

  lemma StepInv(exiting: bool, s: State, e: Event, t: State)
    requires Inv(exiting, s) && Step(exiting, s, e, t)
    ensures Inv(exiting, t)
  {
    hide Inv, HandlerStep, MainStep;
    if HandlerStep(s, e, t) { HandlerStepInv(exiting, s, e, t); } else { MainStepInv(exiting, s, e, t); }
  }

  ghost predicate IsRun(exiting: bool, ss: seq<State>, es: seq<Event>) {
    && |ss| == |es| + 1 && Initial(ss[0])
    && forall i :: 0 <= i < |es| ==> Step(exiting, ss[i], es[i], ss[i + 1])
  }

  lemma {:induction false} RunInv(exiting: bool, ss: seq<State>, es: seq<Event>, i: nat)
    requires IsRun(exiting, ss, es) && i < |ss|
    ensures Inv(exiting, ss[i])
  {
    hide Inv, Step;
    if i == 0 {
      InitialInv(exiting, ss[0]);
    } else {
      RunInv(exiting, ss, es, i - 1);
      StepInv(exiting, ss[i - 1], es[i - 1], ss[i]);
    }
  }

  /**
   Under every interleaving at most one handler is inside the engine: the lock names exactly that handler, and it
   is free whenever none is inside.  The gauge counts the handlers between begin and finish, the log holds one
   observation per finished handler, and a handler that reaches `finish` always finds its own start, so `finish`
   never raises.
   */
  lemma OneInsideAndAllCounted(exiting: bool, ss: seq<State>, es: seq<Event>, i: nat, h: nat, k: nat)
    requires IsRun(exiting, ss, es) && i < |ss|
    ensures h in ss[i].handlers && k in ss[i].handlers && Inside(ss[i].handlers[h]) && Inside(ss[i].handlers[k])
      ==> h == k
    ensures ss[i].lock == Some(h) <==> h in ss[i].handlers && Inside(ss[i].handlers[h])
    ensures ss[i].lock == None <==> forall id :: id in ss[i].handlers ==> !Inside(ss[i].handlers[id])
    ensures ss[i].inProgress == |ActiveHandlers(ss[i].handlers)|
    ensures |ss[i].log| == |DoneHandlers(ss[i].handlers)|
    ensures h in ss[i].handlers && ss[i].handlers[h].Replying? ==> ss[i].inProgress > 0
  {
    RunInv(exiting, ss, es, i);
    if h in ss[i].handlers && ss[i].handlers[h].Replying? { assert h in ActiveHandlers(ss[i].handlers); }
  }

  /** A request is turned away as busy only while another one is inside the engine. */
  lemma BusyMeansOccupied(exiting: bool, ss: seq<State>, es: seq<Event>, i: nat, id: nat)
    requires IsRun(exiting, ss, es) && i < |es| && es[i] == ETurnAway(id, BusyOutcome)
    ensures exists h :: h in ss[i].handlers && h != id && Inside(ss[i].handlers[h])
  {
    RunInv(exiting, ss, es, i);
    assert Step(exiting, ss[i], es[i], ss[i + 1]);
    assert ss[i].lock.value in ss[i].handlers;
  }

  /**
   Shutdown is safe: the shutdown thread starts at most once and only after the backend was seen dead;
   an exit with code 75, and the retirement record, come only after every accepted handler has finished,
   with the lock free and the backend closed.  The record accompanies exit code 75 except in one window:
   an interrupt between keeping the profile and returning leaves a record but exit code 130.
   No other code is ever returned: serving ends by that shutdown or by an interrupt.
   */
  lemma ShutdownIsSafe(exiting: bool, ss: seq<State>, es: seq<Event>, i: nat)
    requires IsRun(exiting, ss, es) && i < |ss|
    ensures ss[i].shutdowns <= 1 && (ss[i].shutdowns > 0 ==> !ss[i].backendAlive)
    ensures ss[i].main == Exited(75) || ss[i].recorded ==>
      && exiting && ss[i].backendFailed && ss[i].backendClosed && AllDone(ss[i])
      && ss[i].lock == None && ss[i].inProgress == 0
    ensures ss[i].main.Exited? ==>
      (ss[i].main.code == 75 <==> ss[i].recorded && !ss[i].interruptedLate)
      && (ss[i].recorded && ss[i].main.code != 75 <==> ss[i].interruptedLate)
      && ss[i].main.code in {75, 130}
  {
    RunInv(exiting, ss, es, i);
    if AllDone(ss[i]) { assert ActiveHandlers(ss[i].handlers) == {}; }
  }

  lemma RunGrows(exiting: bool, ss: seq<State>, es: seq<Event>, e: Event, t: State)
    requires IsRun(exiting, ss, es) && MainStep(exiting, ss[|ss| - 1], e, t)
    ensures IsRun(exiting, ss + [t], es + [e])
  {
    hide MainStep, HandlerStep, Initial;
    var more, events := ss + [t], es + [e];
    forall i | 0 <= i < |events| ensures Step(exiting, more[i], events[i], more[i + 1]) {
      if i < |es| { assert Step(exiting, ss[i], es[i], ss[i + 1]); }
    }
  }

  /** From a kept profile, an interrupt still leads to a record, with exit code 130. */
  lemma InterruptInTheWindow(ss: seq<State>, es: seq<Event>) returns (ss': seq<State>, es': seq<Event>)
    requires IsRun(true, ss, es) && ss[|ss| - 1].main == Retiring && ss[|ss| - 1].profileKept
    ensures IsRun(true, ss', es') && ss <= ss'
    ensures ss'[|ss'| - 1].recorded && ss'[|ss'| - 1].main == Exited(130)
  {
    var s4 := ss[|ss| - 1];
    hide IsRun;
    var s5 := s4.(main := Closing(130), interruptedLate := true);
    var s6 := s5.(main := Recording(130), backendClosed := true, backendAlive := false);
    var s7 := s6.(main := Exited(130), recorded := s6.profileKept);
    RunGrows(true, ss, es, EInterrupt, s5);
    RunGrows(true, ss + [s5], es + [EInterrupt], ECloseBackend, s6);
    RunGrows(true, ss + [s5] + [s6], es + [EInterrupt] + [ECloseBackend], ERecord, s7);
    ss', es' := ss + [s5] + [s6] + [s7], es + [EInterrupt] + [ECloseBackend] + [ERecord];
  }

  /** The window is reached: a run that records a retirement and exits with 130. */
  lemma RecordWithoutCode75() returns (ss: seq<State>, es: seq<Event>)
    ensures IsRun(true, ss, es)
    ensures ss[|ss| - 1].recorded && ss[|ss| - 1].main == Exited(130)
  {
    hide *;
    ss, es := RunToRetiring();
    ss, es := InterruptInTheWindow(ss, es);
  }

  lemma FirstSteps(s0: State, s1: State, s2: State, s3: State, s4: State)
    requires s0 == State(map[], None, 0, [], false, false, 0, false, Serving, false, false, false, false)
    requires s1 == s0.(backendFailed := true, shutdowns := 1, shutdownRequested := true)
    requires s2 == s1.(main := Draining(false)) && s3 == s2.(main := Drained)
    requires s4 == s3.(main := Retiring, profileKept := true)
    ensures IsRun(true, [s0], [])
    ensures MainStep(true, s0, EServiceActions, s1) && MainStep(true, s1, EStopServing, s2)
    ensures MainStep(true, s2, EDrain, s3) && MainStep(true, s3, EKeepProfile, s4)
  {
  }

  /** A run whose backend dies at once and whose profile has just been kept. */
  lemma RunToRetiring() returns (ss: seq<State>, es: seq<Event>)
    ensures IsRun(true, ss, es) && ss[|ss| - 1].main == Retiring && ss[|ss| - 1].profileKept
  {
    var s0 := State(map[], None, 0, [], false, false, 0, false, Serving, false, false, false, false);
    var s1 := s0.(backendFailed := true, shutdowns := 1, shutdownRequested := true);
    var s2 := s1.(main := Draining(false));
    var s3 := s2.(main := Drained);
    var s4 := s3.(main := Retiring, profileKept := true);
    FirstSteps(s0, s1, s2, s3, s4);
    hide *;
    RunGrows(true, [s0], [], EServiceActions, s1);
    ss, es := [s0] + [s1], [] + [EServiceActions];
    RunGrows(true, ss, es, EStopServing, s2);
    ss, es := ss + [s2], es + [EStopServing];
    RunGrows(true, ss, es, EDrain, s3);
    ss, es := ss + [s3], es + [EDrain];
    RunGrows(true, ss, es, EKeepProfile, s4);
    ss, es := ss + [s4], es + [EKeepProfile];
  }
}
