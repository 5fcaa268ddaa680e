/**
 `IsolatedBackend`: the parent side as the code runs it, with its polling loops, deadline and
 cancellation.  Every state change it makes is a step of `Protocol`, with steps of the child in between.
 */
module Isolated {
  import opened Outcomes
  import opened Contracts
  import opened Framing
  import opened Protocol
  import Engine

  const POLL := 0.02

  /** Why a private read or write ended early: the exception `_score` distinguishes. */
  datatype Fault = CancelFault | DeadlineFault | ConnectionFault

  ghost predicate ReachesIn(c: Codec, maxTokens: int, n: nat, s: State, t: State) {
    if n == 0 then s == t
    else exists u, e :: ReachesIn(c, maxTokens, n - 1, s, u) && Step(c, maxTokens, u, e, t)
  }

  /** `t` follows from `s` by steps of parent and child. */
  ghost predicate Reaches(c: Codec, maxTokens: int, s: State, t: State) {
    exists n: nat :: ReachesIn(c, maxTokens, n, s, t)
  }

  lemma ReachesItself(c: Codec, maxTokens: int, s: State)
    ensures Reaches(c, maxTokens, s, s)
  {
    assert ReachesIn(c, maxTokens, 0, s, s);
  }

  lemma ReachesOneMore(c: Codec, maxTokens: int, s: State, u: State, e: Event, t: State)
    requires Reaches(c, maxTokens, s, u) && Step(c, maxTokens, u, e, t)
    ensures Reaches(c, maxTokens, s, t)
  {
    hide Step;
    var n: nat :| ReachesIn(c, maxTokens, n, s, u);
    assert ReachesIn(c, maxTokens, n + 1, s, t);
  }

  /** The parent's half of the state, which the child cannot touch. */
  ghost predicate SameParent(s: State, t: State) {
    && t.available == s.available && t.stopReason == s.stopReason && t.phase == s.phase
    && t.current == s.current && t.dispatched == s.dispatched && t.delivered == s.delivered
    && s.computed <= t.computed
  }

  /** What the child does when it is scheduled for `e`; nothing if it cannot. */
  function ChildNext(c: Codec, s: State, e: Event): State {
    match e
    case EChildReads(n) =>
      if s.child.Reading? && !BadLength(s.child.got) && 0 < n <= |s.toChild| && n <= Need(s.child.got)
      then s.(child := Reading(s.child.got + s.toChild[..n]), toChild := s.toChild[n..]) else s
    case EChildParses =>
      if s.child.Reading? && Complete(s.child.got) then
        var message := c.decode(s.child.got[4..]);
        if message.Some? && message.value.Ask? && Parse(message.value.raw).Success?
        then s.(child := Computing(Parse(message.value.raw).value)) else s.(child := Gone)
      else s
    case EChildReplies(reply) =>
      if s.child.Computing? && (reply.Scored? ==> reply.input == InputSha(s.child.asked))
         && (reply.Refused? ==> Reportable(reply.code))
      then s.(child := if Fits(c, Answer(reply)) then Writing(FrameOf(c, Answer(reply))) else Gone,
              computed := s.computed + [Computation(s.child.asked, reply)])
      else s
    case EChildWrites(n) =>
      if s.child.Writing? && 0 < n <= |s.child.rest|
      then s.(child := Writing(s.child.rest[n..]), toParent := s.toParent + s.child.rest[..n]) else s
    case EChildLoops => if s.child == Writing([]) then s.(child := Reading([])) else s
    case EChildDies => s.(child := Gone)
    case _ => s
  }

  lemma ChildNextSteps(c: Codec, maxTokens: int, s: State, e: Event)
    ensures var t := ChildNext(c, s, e); (t == s || Step(c, maxTokens, s, e, t)) && SameParent(s, t)
  {
  }

  /** The environment leaves out nothing the child can do. */
  lemma EveryChildStep(c: Codec, s: State, e: Event, t: State)
    requires ChildStep(c, s, e, t)
    ensures ChildNext(c, s, e) == t
  {
  }

  lemma Onward(c: Codec, maxTokens: int, s: State, u: State, e: Event, t: State)
    requires c.Faithful() && Inv(c, u) && Reaches(c, maxTokens, s, u) && (t == u || Step(c, maxTokens, u, e, t))
    ensures Inv(c, t) && Reaches(c, maxTokens, s, t)
  {
    hide Inv, Step, Reaches;
    if t != u {
      StepInv(c, maxTokens, u, e, t);
      ReachesOneMore(c, maxTokens, s, u, e, t);
    }
  }

  class IsolatedBackend {
    const codec: Codec
    const maxTokens: int
    /** `_available`, the recorded stop reason, the socket pair and the process. */
    var state: State
    var locked: bool
    var clock: real
    /** The cancellation event of the current request. */
    var cancelled: bool
    /** The socket has reported an error or the end of the stream. */
    var broken: bool

    ghost predicate Valid()
      reads this
    {
      && codec.Faithful() && Inv(codec, state)
      && (!locked ==> state.phase == Idle && (state.available ==> !broken))
    }

    /** A started backend: the child has sent its greeting and nothing is in flight. */
    constructor (c: Codec, tokens: int, started: State)
      requires c.Faithful() && Initial(started)
      ensures Valid() && codec == c && maxTokens == tokens && state == started && !locked
    {
      codec, maxTokens, state := c, tokens, started;
      locked, clock, cancelled, broken := false, 0.0, false, false;
      new;
      InitialInv(c, started);
    }

    /** During a call the state is reachable from where the call began. */
    ghost predicate Running(start: State)
      reads this
    {
      codec.Faithful() && Inv(codec, state) && Reaches(codec, maxTokens, start, state)
    }

    /** The other process runs, time passes and cancellation may arrive. */
    method Environment(ghost start: State)
      requires Running(start)
      modifies `state, `clock, `cancelled
      ensures Running(start) && SameParent(old(state), state)
      ensures clock >= old(clock) && (old(cancelled) ==> cancelled)
    {
      hide Inv, Step, Reaches;
      var steps: int := *;
      var i := 0;
      while i < steps
        invariant Running(start) && SameParent(old(state), state)
        invariant clock == old(clock) && cancelled == old(cancelled)
      {
        var event: Event := *;
        ChildNextSteps(codec, maxTokens, state, event);
        Onward(codec, maxTokens, start, state, event, ChildNext(codec, state, event));
        state := ChildNext(codec, state, event);
        i := i + 1;
      }
      var elapsed: real := *;
      if elapsed > 0.0 { clock := clock + elapsed; }
      if * { cancelled := true; }
    }

    /** `_timeout`: how long the next socket operation may block. */
    method Patience(deadline: real, cancellable: bool) returns (r: Result<real, Fault>)
      ensures r.Success? ==> 0.0 < r.value <= deadline - clock
      ensures r.Success? ==> clock + r.value == deadline || (cancellable && r.value == POLL)
      ensures r == Failure(CancelFault) ==> cancellable && cancelled
      ensures r == Failure(DeadlineFault) ==> clock >= deadline
      ensures r != Failure(ConnectionFault)
    {
      if cancellable && cancelled { return Failure(CancelFault); }
      var remaining := deadline - clock;
      if remaining <= 0.0 { return Failure(DeadlineFault); }
      r := Success(if !cancellable then remaining else if remaining < POLL then remaining else POLL);
    }

    /** One blocking socket operation that did not complete in time. */
    method Wait(patience: real)
      modifies `clock
      ensures clock >= old(clock) + patience
    {
      var late: real := *;
      clock := clock + patience;
      if late > 0.0 { clock := clock + late; }
    }

    /** One socket operation: so many bytes moved, none in time, or an error. */
    method Transfer(limit: nat) returns (n: int)
      modifies `broken
      ensures n <= limit
      ensures if n < 0 then broken else broken == old(broken)
    {
      n := *;
      if n > limit { n := limit; }
      if n < 0 { broken := true; }
    }

    /** What a fault is evidence of. */
    ghost predicate Witnessed(fault: Fault, deadline: real, cancellable: bool)
      reads this
    {
      match fault
      case CancelFault => cancellable && cancelled
      case DeadlineFault => clock >= deadline
      case ConnectionFault => broken || (state.phase.Receiving? && BadLength(state.phase.got))
    }

    /**
     `_send`.  Bytes leave in arbitrary pieces.  It ends because everything was sent or because of a
     fault; timed-out rounds are bounded by the time that was left, 20 ms each.
     */
    method Send(deadline: real, cancellable: bool, ghost start: State)
      returns (fault: Option<Fault>, ghost timeouts: nat)
      requires Running(start) && state.phase.Sending? && state.available
      modifies `state, `clock, `cancelled, `broken
      ensures Running(start) && state.available && SameCall(old(state), state)
      ensures clock >= old(clock)
      ensures fault.None? ==> state.phase == Receiving([])
      ensures fault.Some? ==> state.phase.Sending? && Witnessed(fault.value, deadline, cancellable)
      ensures fault.None? ==> broken == old(broken)
      ensures timeouts <= RoundsLeft(deadline, old(clock))
    {
      hide Inv, Step, Reaches;
      timeouts := 0;
      while state.phase.rest != []
        invariant Running(start) && state.phase.Sending? && state.available && SameCall(old(state), state)
        invariant clock >= old(clock) && broken == old(broken)
        invariant timeouts + RoundsLeft(deadline, clock) <= RoundsLeft(deadline, old(clock))
        decreases |state.phase.rest|, RoundsLeft(deadline, clock)
      {
        var patience := Patience(deadline, cancellable);
        if patience.Failure? { return Some(patience.error), timeouts; }
        ghost var before := clock;
        Environment(start);
        LaterLeavesLess(deadline, before, clock);
        var n := Transfer(|state.phase.rest|);
        if n > 0 {
          var next := state.(phase := Sending(state.phase.rest[n..]), toChild := state.toChild + state.phase.rest[..n]);
          SendIsStep(codec, maxTokens, state, n, next);
          Onward(codec, maxTokens, start, state, ESend(n), next);
          state := next;
        } else if n == 0 {
          Wait(patience.value);
          TimeoutLeavesLess(deadline, before, clock, patience.value, cancellable);
          if !cancellable { return Some(DeadlineFault), timeouts + 1; }
          timeouts := timeouts + 1;
        } else {
          return Some(ConnectionFault), timeouts;
        }
      }
      if cancellable && cancelled { return Some(CancelFault), timeouts; }
      var next := state.(phase := Receiving([]));
      SendDoneIsStep(codec, maxTokens, state, next);
      Onward(codec, maxTokens, start, state, ESendDone, next);
      state := next;
      fault := None;
    }

    /** The loop `exact`: read until `goal` bytes are held. */
    method ReadUpTo(goal: nat, deadline: real, cancellable: bool, ghost start: State)
      returns (fault: Option<Fault>, ghost timeouts: nat)
      requires Running(start) && state.phase.Receiving? && state.available
      requires |state.phase.got| <= goal == |state.phase.got| + Need(state.phase.got) && !BadLength(state.phase.got)
      requires goal == 4 || |state.phase.got| >= 4
      modifies `state, `clock, `cancelled, `broken
      ensures Running(start) && state.available && SameCall(old(state), state) && state.phase.Receiving?
      ensures clock >= old(clock)
      ensures if fault.Some? then Witnessed(fault.value, deadline, cancellable) else broken == old(broken)
      ensures old(state.phase.got) <= state.phase.got
      ensures fault.None? ==> |state.phase.got| == goal
      ensures timeouts <= RoundsLeft(deadline, old(clock))
      ensures timeouts + RoundsLeft(deadline, clock) <= RoundsLeft(deadline, old(clock)) || fault.Some?
    {
      hide Inv, Step, Reaches, BadLength, Need, RoundsLeft;
      timeouts := 0;
      while |state.phase.got| < goal
        invariant Running(start) && state.phase.Receiving? && state.available && SameCall(old(state), state)
        invariant old(state.phase.got) <= state.phase.got && |state.phase.got| <= goal
        invariant |state.phase.got| < goal ==>
          !BadLength(state.phase.got) && Need(state.phase.got) == goal - |state.phase.got|
        invariant clock >= old(clock) && broken == old(broken)
        invariant timeouts + RoundsLeft(deadline, clock) <= RoundsLeft(deadline, old(clock))
        decreases goal - |state.phase.got|, RoundsLeft(deadline, clock)
      {
        var patience := Patience(deadline, cancellable);
        if patience.Failure? { return Some(patience.error), timeouts; }
        ghost var before := clock;
        Environment(start);
        LaterLeavesLess(deadline, before, clock);
        var missing := goal - |state.phase.got|;
        var n := Transfer(if |state.toParent| < missing then |state.toParent| else missing);
        if n > 0 {
          ghost var held := state.phase.got;
          var next := state.(phase := Receiving(state.phase.got + state.toParent[..n]),
                             toParent := state.toParent[n..]);
          ReceiveIsStep(codec, maxTokens, state, n, next);
          StillNeeds(held, next.phase.got, goal);
          Onward(codec, maxTokens, start, state, EReceive(n), next);
          state := next;
        } else if n == 0 {
          Wait(patience.value);
          TimeoutLeavesLess(deadline, before, clock, patience.value, cancellable);
          if !cancellable { return Some(DeadlineFault), timeouts + 1; }
          timeouts := timeouts + 1;
        } else {
          return Some(ConnectionFault), timeouts;
        }
      }
      fault := None;
    }

    /** `_receive`: a header, then exactly the announced number of bytes. */
    method Receive(deadline: real, cancellable: bool, ghost start: State)
      returns (fault: Option<Fault>, ghost timeouts: nat)
      requires Running(start) && state.phase == Receiving([]) && state.available
      modifies `state, `clock, `cancelled, `broken
      ensures Running(start) && state.available && SameCall(old(state), state) && state.phase.Receiving?
      ensures clock >= old(clock)
      ensures if fault.Some? then Witnessed(fault.value, deadline, cancellable) else broken == old(broken)
      ensures fault.None? ==> Complete(state.phase.got)
      ensures timeouts <= RoundsLeft(deadline, old(clock))
    {
      hide Inv, Step, Reaches;
      fault, timeouts := ReadUpTo(4, deadline, cancellable, start);
      if fault.Some? { return; }
      var length := Length(state.phase.got[..4]);
      if !(0 < length <= MAX_MESSAGE) { return Some(ConnectionFault), timeouts; }
      ghost var more;
      fault, more := ReadUpTo(4 + length, deadline, cancellable, start);
      timeouts := timeouts + more;
      if fault.None? && cancellable && cancelled { fault := Some(CancelFault); }
    }

    /** `_stop`: retire for good, keeping the first reason. */
    method Stop(reason: StopReason, ghost start: State)
      requires Running(start)
      requires state.phase == Idle || reason in {Timeout, Cancelled, BackendFault}
      modifies `state
      ensures Running(start) && state == Stopped(old(state), reason)
    {
      hide Inv, Reaches;
      var event := if state.phase == Idle then ERetire(reason) else EAbort(reason);
      Onward(codec, maxTokens, start, state, event, Stopped(state, reason));
      state := Stopped(state, reason);
    }

    /**
     How a dispatched call ends: cancelled, too late or cut off, each with its own code and stop reason; or with the
     child's own reply, received before the deadline and uncancelled, which decides the result by itself.
     */
    ghost predicate Ended(q: Request, deadline: real, cancellable: bool, fault: Option<Fault>,
                          r: Result<Engine.Scores, Code>)
      reads this
    {
      match fault
      case Some(CancelFault) =>
        cancellable && cancelled && r == Failure(InferenceCancelled) && state.stopReason == Some(Cancelled)
      case Some(DeadlineFault) =>
        clock >= deadline && r == Failure(InferenceTimeout) && state.stopReason == Some(Timeout)
      case Some(ConnectionFault) =>
        broken && r == Failure(BackendError) && state.stopReason == Some(BackendFault)
      case None =>
        && clock < deadline && !(cancellable && cancelled)
        && OwnReply(state) && state.current == q && Answered(q, LastReply(state), r)
    }

    /** Scores for every option within the token limit are returned; an error of the request is passed on. */
    ghost predicate Answered(q: Request, reply: Reply, r: Result<Engine.Scores, Code>)
      reads this
    {
      match reply
      case Scored(input, logits, tokens) =>
        if 0 < tokens <= maxTokens && |logits| == |q.options|
        then r == Success(Engine.Scores(logits, tokens)) && state.available
        else r == Failure(BackendError) && state.stopReason == Some(BackendFault)
      case Refused(code) =>
        if code in {InvalidRequest, ContextTooLong, UnsupportedTokenizer, InvalidScores}
        then r == Failure(code) && state.available
        else r == Failure(BackendError) && state.stopReason == Some(BackendFault)
    }

    /**
     `_score`.  Scores are returned only for this call's own request and only as the child computed them
     for this call; afterwards the process is available exactly when nothing could be left in the socket.
     Every failure has its own cause: `began` is when the deadline was set, `fault` what cut the exchange short.
     */
    method Score(q: Request, timeout: real, cancellable: bool)
      returns (r: Result<Engine.Scores, Code>, ghost began: real, ghost fault: Option<Fault>)
      requires Valid() && IsRequest(q) && timeout > 0.0
      modifies this
      ensures Valid() && locked == old(locked)
      ensures old(locked) ==> r == Failure(BackendUnavailable) && state == old(state)
      ensures Reaches(codec, maxTokens, old(state), state)
      ensures state.phase == Idle && state.available ==> state.toChild == [] && state.toParent == []
      ensures r.Success? ==>
        && state.available && state.dispatched == old(state.dispatched) + 1 == |state.computed|
        && state.computed[old(state.dispatched)]
           == Computation(q, Scored(InputSha(q), r.value.logits, r.value.inputTokens))
        && 0 < r.value.inputTokens <= maxTokens && |r.value.logits| == |q.options|
      ensures state.dispatched == old(state.dispatched) || state.dispatched == old(state.dispatched) + 1
      ensures state.dispatched == old(state.dispatched) + 1 ==>
        && !old(locked) && old(state.available) && Fits(codec, Ask(ToDict(q)))
        && old(clock) <= began <= clock && Ended(q, began + timeout, cancellable, fault, r)
        && (!state.available ==>
              && (r == Failure(InferenceTimeout) <==> state.stopReason == Some(Timeout))
              && (r == Failure(InferenceCancelled) <==> state.stopReason == Some(Cancelled))
              && (r == Failure(BackendError) <==> state.stopReason == Some(BackendFault)))
      ensures !old(locked) && state.dispatched == old(state.dispatched) ==>
        r.Failure? && match r.error
          case InferenceCancelled => cancellable && cancelled && old(state.available) && state.available
          case BackendUnavailable =>
            && (!old(state.available) || state.child == Gone) && !state.available
            && state.stopReason == if old(state.available) then Some(Unavailable) else old(state.stopReason)
          case BackendError =>
            && old(state.available) && !Fits(codec, Ask(ToDict(q))) && state.stopReason == Some(BackendFault)
          case _ => false
    {
      hide Inv, Step, Reaches, IsRequest;
      began, fault := clock, None;
      ReachesItself(codec, maxTokens, state);
      QuietWhenIdle(codec, state);
      if locked { return Failure(BackendUnavailable), began, fault; }
      ghost var start := state;
      locked := true;
      Environment(start);
      if !(state.available && state.child != Gone) {
        QuietWhenIdle(codec, state);
        Stop(Unavailable, start);
        r := Failure(BackendUnavailable);
      } else if cancellable && cancelled {
        r := Failure(InferenceCancelled);
      } else if !Fits(codec, Ask(ToDict(q))) {
        QuietWhenIdle(codec, state);
        Stop(BackendFault, start);
        r := Failure(BackendError);
      } else {
        began := clock;
        r, fault := Converse(q, clock + timeout, cancellable, start);
      }
      QuietWhenIdle(codec, state);
      locked := false;
    }

    /** The exchange itself, once admitted: send, receive, then the late checks and the verdict. */
    method Converse(q: Request, deadline: real, cancellable: bool, ghost start: State)
      returns (r: Result<Engine.Scores, Code>, ghost cut: Option<Fault>)
      requires Running(start) && state.phase == Idle && state.available && state.child != Gone && !broken
      requires IsRequest(q) && Fits(codec, Ask(ToDict(q)))
      modifies `state, `clock, `cancelled, `broken
      ensures Running(start) && state.phase == Idle && state.dispatched == old(state.dispatched) + 1
      ensures clock >= old(clock) && (state.available ==> !broken)
      ensures r.Success? ==>
        && state.available && |state.computed| == state.dispatched
        && state.computed[old(state.dispatched)]
           == Computation(q, Scored(InputSha(q), r.value.logits, r.value.inputTokens))
        && 0 < r.value.inputTokens <= maxTokens && |r.value.logits| == |q.options|
      ensures Ended(q, deadline, cancellable, cut, r)
    {
      hide Inv, Step, Reaches, IsRequest;
      QuietWhenIdle(codec, state);
      var next := state.(phase := Sending(FrameOf(codec, Ask(ToDict(q)))), current := q,
                         dispatched := state.dispatched + 1);
      DispatchIsStep(codec, maxTokens, state, q, next);
      Onward(codec, maxTokens, start, state, EDispatch(q), next);
      state := next;
      ghost var rounds;
      var fault;
      fault, rounds := Send(deadline, cancellable, start);
      if fault.None? { fault, rounds := Receive(deadline, cancellable, start); }
      if fault.None? && cancellable && cancelled { fault := Some(CancelFault); }
      if fault.None? && clock >= deadline { fault := Some(DeadlineFault); }
      cut := fault;
      if fault.Some? {
        NeverMalformed(codec, state);
        match fault.value
        case CancelFault => Stop(Cancelled, start); r := Failure(InferenceCancelled);
        case DeadlineFault => Stop(Timeout, start); r := Failure(InferenceTimeout);
        case ConnectionFault => Stop(BackendFault, start); r := Failure(BackendError);
      } else {
        r := Conclude(start);
      }
    }

    /** The verdict on a fully received message. */
    method Conclude(ghost start: State) returns (r: Result<Engine.Scores, Code>)
      requires Running(start) && state.phase.Receiving? && state.available && Complete(state.phase.got)
      modifies `state
      ensures Running(start) && state.phase == Idle
      ensures state.dispatched == old(state.dispatched) && state.current == old(state.current)
      ensures OwnReply(state) && |state.computed| == state.dispatched
      ensures Answered(state.current, LastReply(state), r)
      ensures r.Success? ==>
        && state.available && LastReply(state) == Scored(InputSha(state.current), r.value.logits, r.value.inputTokens)
        && 0 < r.value.inputTokens <= maxTokens && |r.value.logits| == |state.current.options|
      ensures r.Failure? && state.available ==>
        LastReply(state) == Refused(r.error) && Reportable(r.error) && r.error != BackendError
    {
      hide Inv, Step, Reaches;
      ReceivedIsOwnReply(codec, state);
      QuietWhenIdle(codec, state);
      var message := codec.decode(state.phase.got[4..]);
      if message.Some? && message.value.Answer? && Harmless(state.current, message.value.reply, maxTokens) {
        var reply := message.value.reply;
        var delivery := Delivery(state.dispatched, state.current, reply);
        var next := state.(phase := Idle, delivered := state.delivered + [delivery]);
        FinishIsStep(codec, maxTokens, state, next);
        Onward(codec, maxTokens, start, state, EFinish, next);
        state := next;
        r := if reply.Scored? then Success(Engine.Scores(reply.logits, reply.inputTokens)) else Failure(reply.code);
      } else {
        FinishIsStep(codec, maxTokens, state, Stopped(state, BackendFault));
        Onward(codec, maxTokens, start, state, EFinish, Stopped(state, BackendFault));
        state := Stopped(state, BackendFault);
        r := Failure(BackendError);
      }
    }

    /** `close`, once it has the lock. */
    method Close()
      requires Valid() && !locked
      modifies this
      ensures Valid() && !locked && !state.available && state.dispatched == old(state.dispatched)
      ensures state.stopReason == if old(state.available) then Some(Closed) else old(state.stopReason)
      ensures Reaches(codec, maxTokens, old(state), state)
    {
      ReachesItself(codec, maxTokens, state);
      Stop(Closed, state);
    }
  }

  lemma QuietWhenIdle(c: Codec, s: State)
    requires Inv(c, s)
    ensures s.available && s.phase == Idle ==> s.toChild == [] && s.toParent == []
    ensures s.available <==> s.stopReason == None
  {
  }

  /** Reading on toward the same goal. */
  lemma StillNeeds(held: seq<Byte>, got: seq<Byte>, goal: nat)
    requires held <= got && |held| < goal == |held| + Need(held) && !BadLength(held) && (goal == 4 || |held| >= 4)
    ensures |got| < goal ==> !BadLength(got) && Need(got) == goal - |got|
  {
    if |held| >= 4 { assert got[..4] == held[..4]; }
  }

  /** What the child writes never announces a bad length. */
  lemma NeverMalformed(c: Codec, s: State)
    requires c.Faithful() && Inv(c, s) && s.available
    ensures s.phase.Receiving? ==> !BadLength(s.phase.got)
  {
    if s.phase.Receiving? && Answering(c, s) && Fits(c, Answer(LastReply(s))) {
      var payload := c.encode(Answer(LastReply(s)));
      assert c.RoundTrips(Answer(LastReply(s)));
      assert s.phase.got <= Frame(payload);
      PrefixNeeds(payload, s.phase.got);
    }
  }

  lemma DispatchIsStep(c: Codec, maxTokens: int, s: State, q: Request, t: State)
    requires Dispatch(c, s, t, q)
    ensures Step(c, maxTokens, s, EDispatch(q), t)
  {
  }

  lemma FinishIsStep(c: Codec, maxTokens: int, s: State, t: State)
    requires Finish(c, maxTokens, s, t)
    ensures Step(c, maxTokens, s, EFinish, t)
  {
  }

  /** The call in progress is still the same one. */
  ghost predicate SameCall(s: State, t: State) {
    t.current == s.current && t.dispatched == s.dispatched && t.delivered == s.delivered && t.stopReason == s.stopReason
  }

  /** How many timed-out polls still fit before the deadline, the last one possibly shorter. */
  function RoundsLeft(deadline: real, clock: real): nat {
    if clock >= deadline then 0 else ((deadline - clock) / POLL).Floor + 1
  }

  lemma LaterLeavesLess(deadline: real, before: real, after: real)
    requires before <= after
    ensures RoundsLeft(deadline, after) <= RoundsLeft(deadline, before)
  {
  }

  lemma TimeoutLeavesLess(deadline: real, before: real, after: real, patience: real, cancellable: bool)
    requires 0.0 < patience <= deadline - before && after >= before + patience
    requires cancellable ==> patience == POLL || before + patience == deadline
    ensures RoundsLeft(deadline, before) >= 1
    ensures cancellable ==> RoundsLeft(deadline, after) < RoundsLeft(deadline, before)
  {
  }

  lemma SendIsStep(c: Codec, maxTokens: int, s: State, n: nat, t: State)
    requires SendBytes(s, t, n)
    ensures Step(c, maxTokens, s, ESend(n), t)
  {
  }

  lemma SendDoneIsStep(c: Codec, maxTokens: int, s: State, t: State)
    requires SendDone(s, t)
    ensures Step(c, maxTokens, s, ESendDone, t)
  {
  }

  lemma ReceiveIsStep(c: Codec, maxTokens: int, s: State, n: nat, t: State)
    requires ReceiveBytes(s, t, n)
    ensures Step(c, maxTokens, s, EReceive(n), t)
  {
  }
}
