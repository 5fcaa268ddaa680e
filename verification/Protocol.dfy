/**
 The conversation between the runtime and its one inference process, as a transition system.  The
 parent holds the lock from `Dispatch` until `Finish` or `Abort`; the child, the two byte queues of the
 socket pair and every fault interleave freely.  A step moves any number of bytes.
 */
module Protocol {
  import opened Outcomes
  import opened Contracts
  import opened Framing

  datatype Reply =
    | Scored(input: Digest, logits: seq<real>, inputTokens: int)
    | Refused(code: Code)

  datatype Message = Ask(raw: RawRequest) | Answer(reply: Reply)

  /**
   Canonical JSON, as far as the protocol depends on it.  `wire` are the messages it can express, those whose
   numbers are binary64 values; encoding anything else raises.
   */
  datatype Codec = Codec(wire: Message -> bool, encode: Message -> seq<Byte>, decode: seq<Byte> -> Option<Message>) {
    ghost predicate RoundTrips(m: Message) {
      encode(m) != [] && decode(encode(m)) == Some(m)
    }

    ghost predicate Faithful() {
      forall m :: wire(m) ==> RoundTrips(m)
    }
  }

  datatype StopReason = Timeout | Cancelled | BackendFault | Unavailable | Closed

  /** Where the holder of the lock is.  `Idle` means that the lock is free. */
  datatype Phase = Idle | Sending(rest: seq<Byte>) | Receiving(got: seq<Byte>)

  datatype Child = Reading(got: seq<Byte>) | Computing(asked: Request) | Writing(rest: seq<Byte>) | Gone

  /** What the child computed for the k-th request it read. */
  datatype Computation = Computation(asked: Request, reply: Reply)

  /** A reply the parent accepted: the number of the call it belongs to, the request, the reply. */
  datatype Delivery = Delivery(call: nat, asked: Request, reply: Reply)

  datatype State = State(
    available: bool, stopReason: Option<StopReason>,
    phase: Phase, current: Request, dispatched: nat,
    child: Child, toChild: seq<Byte>, toParent: seq<Byte>,
    computed: seq<Computation>, delivered: seq<Delivery>)

  /** After the handshake: ready, nothing in flight. */
  predicate Initial(s: State) {
    && s.available && s.stopReason == None && s.phase == Idle && s.dispatched == 0
    && s.child == Reading([]) && s.toChild == [] && s.toParent == [] && s.computed == [] && s.delivered == []
  }

  /** The message can be encoded and fits the frame; anything else fails before a byte is sent. */
  predicate Fits(c: Codec, m: Message) {
    c.wire(m) && |c.encode(m)| <= MAX_MESSAGE
  }

  function FrameOf(c: Codec, m: Message): seq<Byte>
    requires Fits(c, m)
  {
    Frame(c.encode(m))
  }

  /** `_stop`: the first reason stays. */
  function Stopped(s: State, reason: StopReason): State {
    s.(available := false, stopReason := if s.stopReason.None? then Some(reason) else s.stopReason, phase := Idle)
  }

  /** The codes the child may report, the set `ERRORS`. */
  predicate Reportable(code: Code) {
    code in {InvalidRequest, ContextTooLong, UnsupportedTokenizer, InvalidScores, BackendError}
  }

  /** What the parent accepts as scores for `q`. */
  predicate AcceptableScores(q: Request, r: Reply, maxTokens: int) {
    r.Scored? && r.input == InputSha(q) && 0 < r.inputTokens <= maxTokens && |r.logits| == |q.options|
  }

  /** A fully received reply that leaves the process usable. */
  predicate Harmless(q: Request, r: Reply, maxTokens: int) {
    AcceptableScores(q, r, maxTokens) || (r.Refused? && Reportable(r.code) && r.code != BackendError)
  }

  // ----- Steps of the parent -----

  predicate ChildAlive(s: State) {
    s.child != Gone
  }

  ghost predicate Dispatch(c: Codec, s: State, t: State, q: Request) {
    && s.phase == Idle && s.available && ChildAlive(s) && IsRequest(q) && Fits(c, Ask(ToDict(q)))
    && t == s.(phase := Sending(FrameOf(c, Ask(ToDict(q)))), current := q, dispatched := s.dispatched + 1)
  }

  predicate SendBytes(s: State, t: State, n: nat) {
    && s.phase.Sending? && 0 < n <= |s.phase.rest|
    && t == s.(phase := Sending(s.phase.rest[n..]), toChild := s.toChild + s.phase.rest[..n])
  }

  predicate SendDone(s: State, t: State) {
    s.phase == Sending([]) && t == s.(phase := Receiving([]))
  }

  predicate ReceiveBytes(s: State, t: State, n: nat) {
    && s.phase.Receiving? && !BadLength(s.phase.got) && 0 < n <= |s.toParent| && n <= Need(s.phase.got)
    && t == s.(phase := Receiving(s.phase.got + s.toParent[..n]), toParent := s.toParent[n..])
  }

  /** The whole reply has arrived, in time and not cancelled. */
  predicate Finish(c: Codec, maxTokens: int, s: State, t: State) {
    && s.phase.Receiving? && Complete(s.phase.got)
    && var message := c.decode(s.phase.got[4..]);
       if message.Some? && message.value.Answer? && Harmless(s.current, message.value.reply, maxTokens)
       then t == s.(phase := Idle, delivered := s.delivered + [Delivery(s.dispatched, s.current, message.value.reply)])
       else t == Stopped(s, BackendFault)
  }

  /** Timeout, cancellation, connection loss, a bad length, a late reply: anything else that ends a call. */
  predicate Abort(s: State, t: State, reason: StopReason) {
    s.phase != Idle && reason in {Timeout, Cancelled, BackendFault} && t == Stopped(s, reason)
  }

  /** Outside a call: an unavailable process is retired, an oversized request retires, `close` retires. */
  predicate Retire(s: State, t: State, reason: StopReason) {
    s.phase == Idle && reason in {Unavailable, BackendFault, Closed, Timeout, Cancelled} && t == Stopped(s, reason)
  }

  // ----- Steps of the child -----

  predicate ChildReads(s: State, t: State, n: nat) {
    && s.child.Reading? && !BadLength(s.child.got) && 0 < n <= |s.toChild| && n <= Need(s.child.got)
    && t == s.(child := Reading(s.child.got + s.toChild[..n]), toChild := s.toChild[n..])
  }

  /** A complete request that parses starts the backend; anything else ends the child. */
  predicate ChildParses(c: Codec, s: State, t: State) {
    && s.child.Reading? && Complete(s.child.got)
    && var message := c.decode(s.child.got[4..]);
       if message.Some? && message.value.Ask? && Parse(message.value.raw).Success?
       then t == s.(child := Computing(Parse(message.value.raw).value))
       else t == s.(child := Gone)
  }

  /** The backend returns scores or an error; the reply names the digest of the request it was made for. */
  predicate ChildReplies(c: Codec, s: State, t: State, reply: Reply) {
    && s.child.Computing?
    && (reply.Scored? ==> reply.input == InputSha(s.child.asked))
    && (reply.Refused? ==> Reportable(reply.code))
    && t == s.(child := if Fits(c, Answer(reply)) then Writing(FrameOf(c, Answer(reply))) else Gone,
               computed := s.computed + [Computation(s.child.asked, reply)])
  }

  predicate ChildWrites(s: State, t: State, n: nat) {
    && s.child.Writing? && 0 < n <= |s.child.rest|
    && t == s.(child := Writing(s.child.rest[n..]), toParent := s.toParent + s.child.rest[..n])
  }

  predicate ChildLoops(s: State, t: State) {
    s.child == Writing([]) && t == s.(child := Reading([]))
  }

  /** A crash, a kill, the orphan watchdog or a malformed frame: possible at any moment. */
  predicate ChildDies(s: State, t: State) {
    t == s.(child := Gone)
  }

  datatype Event =
    | EDispatch(q: Request) | ESend(n: nat) | ESendDone | EReceive(n: nat) | EFinish | EAbort(reason: StopReason)
    | ERetire(reason: StopReason)
    | EChildReads(n: nat) | EChildParses | EChildReplies(reply: Reply) | EChildWrites(n: nat) | EChildLoops | EChildDies

  ghost predicate ParentStep(c: Codec, maxTokens: int, s: State, e: Event, t: State) {
    match e
    case EDispatch(q) => Dispatch(c, s, t, q)
    case ESend(n) => SendBytes(s, t, n)
    case ESendDone => SendDone(s, t)
    case EReceive(n) => ReceiveBytes(s, t, n)
    case EFinish => Finish(c, maxTokens, s, t)
    case EAbort(reason) => Abort(s, t, reason)
    case ERetire(reason) => Retire(s, t, reason)
    case _ => false
  }

  predicate ChildStep(c: Codec, s: State, e: Event, t: State) {
    match e
    case EChildReads(n) => ChildReads(s, t, n)
    case EChildParses => ChildParses(c, s, t)
    case EChildReplies(reply) => ChildReplies(c, s, t, reply)
    case EChildWrites(n) => ChildWrites(s, t, n)
    case EChildLoops => ChildLoops(s, t)
    case EChildDies => ChildDies(s, t)
    case _ => false
  }

  ghost predicate Step(c: Codec, maxTokens: int, s: State, e: Event, t: State) {
    ParentStep(c, maxTokens, s, e, t) || ChildStep(c, s, e, t)
  }

  // ----- The invariant -----

  function Unsent(s: State): seq<Byte> {
    if s.phase.Sending? then s.phase.rest else []
  }

  function Got(s: State): seq<Byte> {
    if s.phase.Receiving? then s.phase.got else []
  }

  /** What the child still holds of the request being read; a finished reply counts as reading anew. */
  function Heard(s: State): seq<Byte> {
    if s.child.Reading? then s.child.got else []
  }

  function Unwritten(s: State): seq<Byte> {
    if s.child.Writing? then s.child.rest else []
  }

  /** The child has not finished reading the current request. */
  ghost predicate Asking(c: Codec, s: State) {
    && |s.computed| == s.dispatched - 1 && s.toParent == [] && Got(s) == [] && Unwritten(s) == []
    && Fits(c, Ask(ToDict(s.current)))
    && match s.child
       case Computing(asked) => asked == s.current && s.toChild == [] && Unsent(s) == []
       case Gone => true
       case _ => Heard(s) + s.toChild + Unsent(s) == FrameOf(c, Ask(ToDict(s.current)))
  }

  ghost predicate OwnReply(s: State) {
    && |s.computed| == s.dispatched > 0 && s.computed[s.dispatched - 1].asked == s.current
    && (s.computed[s.dispatched - 1].reply.Scored? ==> s.computed[s.dispatched - 1].reply.input == InputSha(s.current))
  }

  function LastReply(s: State): Reply
    requires s.computed != []
  {
    s.computed[|s.computed| - 1].reply
  }

  /** The child has answered the current request; the answer is in consecutive pieces. */
  ghost predicate Answering(c: Codec, s: State) {
    && OwnReply(s) && s.toChild == [] && Unsent(s) == [] && Heard(s) == [] && !s.child.Computing?
    && if Fits(c, Answer(LastReply(s)))
       then var frame := FrameOf(c, Answer(LastReply(s)));
            if s.child == Gone then Got(s) + s.toParent <= frame else Got(s) + s.toParent + Unwritten(s) == frame
       else s.child == Gone && Got(s) + s.toParent == []
  }

  /** Nothing is in flight in either direction. */
  predicate Quiet(s: State) {
    && s.toChild == [] && s.toParent == [] && Heard(s) == [] && Unwritten(s) == [] && !s.child.Computing?
    && |s.computed| == s.dispatched
  }

  /** The delivery is what the child computed for that very call. */
  ghost predicate Delivered(s: State, d: Delivery) {
    0 < d.call <= |s.computed| && s.computed[d.call - 1] == Computation(d.asked, d.reply)
  }

  ghost predicate AllDelivered(s: State) {
    && (forall i :: 0 <= i < |s.delivered| ==> Delivered(s, s.delivered[i]))
    && (forall i, j :: 0 <= i < j < |s.delivered| ==> s.delivered[i].call < s.delivered[j].call)
    && (s.available && s.phase != Idle ==> forall i :: 0 <= i < |s.delivered| ==> s.delivered[i].call < s.dispatched)
  }

  ghost predicate Inv(c: Codec, s: State) {
    && (s.available <==> s.stopReason == None)
    && (!s.available ==> s.phase == Idle)
    && (s.available && s.phase == Idle ==> Quiet(s))
    && (s.available && s.phase != Idle ==>
          IsRequest(s.current) && s.dispatched > 0 && (Asking(c, s) || Answering(c, s)))
    && AllDelivered(s)
  }

  lemma InitialInv(c: Codec, s: State)
    requires Initial(s)
    ensures Inv(c, s)
  {
  }

  lemma DispatchInv(c: Codec, s: State, t: State, q: Request)
    requires c.Faithful() && Inv(c, s) && Dispatch(c, s, t, q)
    ensures Inv(c, t)
  {
    forall i | 0 <= i < |t.delivered| ensures t.delivered[i].call < t.dispatched {
      assert Delivered(s, s.delivered[i]);
    }
    assert Heard(t) + t.toChild + Unsent(t) == FrameOf(c, Ask(ToDict(q)));
  }

  lemma SendBytesInv(c: Codec, s: State, t: State, n: nat)
    requires Inv(c, s) && SendBytes(s, t, n)
    ensures Inv(c, t)
  {
    assert s.phase.rest == s.phase.rest[..n] + s.phase.rest[n..];
    assert Heard(t) + t.toChild + Unsent(t) == Heard(s) + s.toChild + Unsent(s);
  }

  lemma SendDoneInv(c: Codec, s: State, t: State)
    requires Inv(c, s) && SendDone(s, t)
    ensures Inv(c, t)
  {
  }

  lemma ReceiveBytesInv(c: Codec, s: State, t: State, n: nat)
    requires Inv(c, s) && ReceiveBytes(s, t, n)
    ensures Inv(c, t)
  {
    assert s.toParent == s.toParent[..n] + s.toParent[n..];
    assert Got(t) + t.toParent == Got(s) + s.toParent;
  }

  /**
   A completely received reply is the child's own answer to the current request: the digest check of
   the parent never fails, and the reply always decodes.
   */
  lemma ReceivedIsOwnReply(c: Codec, s: State)
    requires c.Faithful() && Inv(c, s) && s.phase.Receiving? && Complete(s.phase.got)
    ensures OwnReply(s) && c.decode(s.phase.got[4..]) == Some(Answer(LastReply(s)))
    ensures s.toParent == [] && Unwritten(s) == [] && s.toChild == [] && Heard(s) == [] && !s.child.Computing?
  {
    var payload := c.encode(Answer(LastReply(s)));
    assert c.RoundTrips(Answer(LastReply(s)));
    PrefixNeeds(payload, s.phase.got);
    assert s.phase.got[4..] == payload;
  }

  lemma FinishInv(c: Codec, maxTokens: int, s: State, t: State)
    requires c.Faithful() && Inv(c, s) && Finish(c, maxTokens, s, t)
    ensures Inv(c, t)
  {
    ReceivedIsOwnReply(c, s);
    forall i | 0 <= i < |t.delivered| ensures Delivered(t, t.delivered[i]) {
      if i < |s.delivered| { assert Delivered(s, s.delivered[i]); }
    }
  }

  lemma StopInv(c: Codec, s: State, t: State, reason: StopReason)
    requires Inv(c, s) && t == Stopped(s, reason)
    ensures Inv(c, t)
  {
    forall i | 0 <= i < |t.delivered| ensures Delivered(t, t.delivered[i]) { assert Delivered(s, s.delivered[i]); }
  }

  /** Moving bytes from one place to the next one changes nothing in the stream. */
  lemma Regroup(before: seq<Byte>, moved: seq<Byte>, n: nat, after: seq<Byte>)
    requires n <= |moved|
    ensures before + moved[..n] + moved[n..] + after == before + moved + after
  {
    assert moved == moved[..n] + moved[n..];
  }

  lemma ChildReadsInv(c: Codec, s: State, t: State, n: nat)
    requires Inv(c, s) && ChildReads(s, t, n)
    ensures Inv(c, t)
  {
    DeliveredStable(s, t);
    hide AllDelivered, Complete, BadLength, Need;
    Regroup(s.child.got, s.toChild, n, Unsent(s));
    assert Heard(t) + t.toChild + Unsent(t) == Heard(s) + s.toChild + Unsent(s);
  }

  lemma ChildParsesInv(c: Codec, s: State, t: State)
    requires c.Faithful() && Inv(c, s) && ChildParses(c, s, t)
    ensures Inv(c, t)
  {
    DeliveredStable(s, t);
    if s.available && s.phase != Idle && Asking(c, s) {
      var m := Ask(ToDict(s.current));
      assert c.RoundTrips(m);
      assert Heard(s) <= FrameOf(c, m);
      PrefixNeeds(c.encode(m), s.child.got);
      assert s.child.got[4..] == c.encode(m);
      ParseToDict(s.current);
    }
  }

  lemma ChildRepliesInv(c: Codec, s: State, t: State, reply: Reply)
    requires Inv(c, s) && ChildReplies(c, s, t, reply)
    ensures Inv(c, t)
  {
    DeliveredStable(s, t);
  }

  lemma ChildWritesInv(c: Codec, s: State, t: State, n: nat)
    requires Inv(c, s) && ChildWrites(s, t, n)
    ensures Inv(c, t)
  {
    DeliveredStable(s, t);
    assert s.child.rest == s.child.rest[..n] + s.child.rest[n..];
    assert Got(t) + t.toParent + Unwritten(t) == Got(s) + s.toParent + Unwritten(s);
  }

  lemma ChildLoopsInv(c: Codec, s: State, t: State)
    requires Inv(c, s) && ChildLoops(s, t)
    ensures Inv(c, t)
  {
    DeliveredStable(s, t);
    hide AllDelivered;
  }

  lemma ChildDiesInv(c: Codec, s: State, t: State)
    requires Inv(c, s) && ChildDies(s, t)
    ensures Inv(c, t)
  {
    DeliveredStable(s, t);
    hide AllDelivered;
    if s.available && s.phase != Idle && Answering(c, s) {
      assert Got(s) + s.toParent <= Got(s) + s.toParent + Unwritten(s);
    }
  }

  lemma DeliveredStable(s: State, t: State)
    requires s.computed <= t.computed && s.delivered == t.delivered && AllDelivered(s)
    requires s.available == t.available && s.phase == t.phase && s.dispatched == t.dispatched
    ensures AllDelivered(t)
  {
    forall i | 0 <= i < |t.delivered| ensures Delivered(t, t.delivered[i]) { assert Delivered(s, s.delivered[i]); }
  }

  /** Every step, of either side, keeps the invariant. */
  lemma StepInv(c: Codec, maxTokens: int, s: State, e: Event, t: State)
    requires c.Faithful() && Inv(c, s) && Step(c, maxTokens, s, e, t)
    ensures Inv(c, t)
  {
    hide Inv, Dispatch, Finish, ChildParses, ChildReplies;
    match e
    case EDispatch(q) => DispatchInv(c, s, t, q);
    case ESend(n) => SendBytesInv(c, s, t, n);
    case ESendDone => SendDoneInv(c, s, t);
    case EReceive(n) => ReceiveBytesInv(c, s, t, n);
    case EFinish => FinishInv(c, maxTokens, s, t);
    case EAbort(reason) => StopInv(c, s, t, reason);
    case ERetire(reason) => StopInv(c, s, t, reason);
    case EChildReads(n) => ChildReadsInv(c, s, t, n);
    case EChildParses => ChildParsesInv(c, s, t);
    case EChildReplies(reply) => ChildRepliesInv(c, s, t, reply);
    case EChildWrites(n) => ChildWritesInv(c, s, t, n);
    case EChildLoops => ChildLoopsInv(c, s, t);
    case EChildDies => ChildDiesInv(c, s, t);
  }

  // ----- Whole runs -----

  ghost predicate IsRun(c: Codec, maxTokens: int, ss: seq<State>, es: seq<Event>) {
    && |ss| == |es| + 1 && Initial(ss[0])
    && forall i :: 0 <= i < |es| ==> Step(c, maxTokens, ss[i], es[i], ss[i + 1])
  }

  lemma {:induction false} RunInv(c: Codec, maxTokens: int, ss: seq<State>, es: seq<Event>, i: nat)
    requires c.Faithful() && IsRun(c, maxTokens, ss, es) && i < |ss|
    ensures Inv(c, ss[i])
  {
    hide Inv, Step;
    if i == 0 {
      InitialInv(c, ss[0]);
    } else {
      RunInv(c, maxTokens, ss, es, i - 1);
      StepInv(c, maxTokens, ss[i - 1], es[i - 1], ss[i]);
    }
  }

  /**
   Exact pairing.  In every state of every run: when the lock is free and the process is available both
   directions of the socket are empty, and whatever was ever returned to a call is the child's own
   computation for that call and its request, each call receiving at most one.
   */
  lemma ExactPairing(c: Codec, maxTokens: int, ss: seq<State>, es: seq<Event>, i: nat)
    requires c.Faithful() && IsRun(c, maxTokens, ss, es) && i < |ss|
    ensures ss[i].available && ss[i].phase == Idle ==> ss[i].toChild == [] && ss[i].toParent == []
    ensures forall k :: 0 <= k < |ss[i].delivered| ==>
              var d := ss[i].delivered[k];
              0 < d.call <= |ss[i].computed| && ss[i].computed[d.call - 1] == Computation(d.asked, d.reply)
    ensures forall k, l :: 0 <= k < l < |ss[i].delivered| ==> ss[i].delivered[k].call < ss[i].delivered[l].call
  {
    RunInv(c, maxTokens, ss, es, i);
    forall k | 0 <= k < |ss[i].delivered| ensures Delivered(ss[i], ss[i].delivered[k]) { }
  }

  lemma RetiredStep(c: Codec, maxTokens: int, s: State, e: Event, t: State)
    requires !s.available && s.stopReason.Some? && s.phase == Idle && Step(c, maxTokens, s, e, t)
    ensures !t.available && t.stopReason == s.stopReason && t.phase == Idle
    ensures t.dispatched == s.dispatched && t.delivered == s.delivered
  {
  }

  /** Retirement is one-way: afterwards nothing is dispatched or returned and the first cause stays recorded. */
  lemma {:induction false} RetirementIsFinal(c: Codec, maxTokens: int, ss: seq<State>, es: seq<Event>, i: nat, j: nat)
    requires c.Faithful() && IsRun(c, maxTokens, ss, es) && i <= j < |ss| && !ss[i].available
    ensures !ss[j].available && ss[j].phase == Idle && ss[j].stopReason == ss[i].stopReason && ss[i].stopReason.Some?
    ensures ss[j].dispatched == ss[i].dispatched && ss[j].delivered == ss[i].delivered
    decreases j
  {
    RunInv(c, maxTokens, ss, es, i);
    if i < j {
      RetirementIsFinal(c, maxTokens, ss, es, i, j - 1);
      RetiredStep(c, maxTokens, ss[j - 1], es[j - 1], ss[j]);
    }
  }

  function CauseOf(e: Event): StopReason {
    match e
    case EAbort(reason) => reason
    case ERetire(reason) => reason
    case _ => BackendFault
  }

  /**
   What a call may leave behind.  The process stays usable across a step exactly when the step is no
   stop: a call that ends leaves it usable exactly when its own reply arrived whole and was acceptable
   scores or a reportable error other than `backend_error`; otherwise the recorded cause is that of the step.
   */
  lemma UsableAfterwards(c: Codec, maxTokens: int, s: State, e: Event, t: State)
    requires c.Faithful() && Inv(c, s) && Step(c, maxTokens, s, e, t) && s.available
    ensures t.available <==> match e
              case EFinish => Harmless(s.current, LastReplyOr(s), maxTokens)
              case EAbort(_) => false
              case ERetire(_) => false
              case _ => true
    ensures !t.available ==> t.stopReason == Some(CauseOf(e))
    ensures t.available && t.phase == Idle ==> Quiet(t)
  {
    StepInv(c, maxTokens, s, e, t);
    if e.EFinish? { ReceivedIsOwnReply(c, s); }
  }

  function LastReplyOr(s: State): Reply {
    if s.computed == [] then Refused(BackendError) else LastReply(s)
  }

  // ----- The hypotheses are met, and calls complete -----

  function Position(ms: seq<Message>, m: Message): (k: nat)
    requires m in ms
    ensures k < |ms| && ms[k] == m
  {
    if ms[0] == m then 0 else
      assert ms == [ms[0]] + ms[1..];
      1 + Position(ms[1..], m)
  }

  /** Little-endian digits to base 256. */
  function Digits(k: nat): seq<Byte> {
    if k == 0 then [] else [k % 256] + Digits(k / 256)
  }

  function Number(digits: seq<Byte>): nat {
    if digits == [] then 0 else digits[0] + 256 * Number(digits[1..])
  }

  function Power256(d: nat): nat {
    if d == 0 then 1 else 256 * Power256(d - 1)
  }

  lemma {:induction false} DigitsRoundTrip(k: nat)
    ensures Number(Digits(k)) == k
  {
    if k > 0 {
      DigitsRoundTrip(k / 256);
      assert Digits(k)[1..] == Digits(k / 256);
    }
  }

  lemma {:induction false} DigitsLength(k: nat, d: nat)
    requires k < Power256(d)
    ensures |Digits(k)| <= d
  {
    if k > 0 { DigitsLength(k / 256, d - 1); }
  }

  /** A codec for any finite list of messages: the k-th one is encoded as the digits of k + 1. */
  function ListCodec(ms: seq<Message>): Codec {
    Codec(m => m in ms,
          m => if m in ms then Digits(Position(ms, m) + 1) else [],
          b => if 0 < Number(b) <= |ms| then Some(ms[Number(b) - 1]) else None)
  }

  /**
   So whatever finitely many messages a run exchanges, some faithful codec carries them; with d bytes for each one
   there is room for all but one of the 256^d numbers.
   */
  lemma FaithfulCodecExists(ms: seq<Message>, d: nat)
    ensures ListCodec(ms).Faithful()
    ensures d <= MAX_MESSAGE && |ms| < Power256(d) ==> forall m :: m in ms ==> Fits(ListCodec(ms), m)
  {
    hide Digits, Number, Power256;
    forall m | m in ms
      ensures ListCodec(ms).RoundTrips(m)
      ensures |ms| < Power256(d) ==> |ListCodec(ms).encode(m)| <= d
    {
      var k := Position(ms, m) + 1;
      DigitsRoundTrip(k);
      assert Digits(k) != [] by { NoDigits(); }
      if |ms| < Power256(d) { DigitsLength(k, d); }
    }
  }

  lemma NoDigits()
    ensures Number([]) == 0
  {
  }

  /** The states of one undisturbed call: dispatch, request across, computation, reply across, return. */
  function CallStates(c: Codec, s: State, q: Request, reply: Reply): (ss: seq<State>)
    requires Fits(c, Ask(ToDict(q))) && Fits(c, Answer(reply))
    ensures |ss| == 13
  {
    var ask, answer := FrameOf(c, Ask(ToDict(q))), FrameOf(c, Answer(reply));
    var s1 := s.(phase := Sending(ask), current := q, dispatched := s.dispatched + 1);
    var s2 := s1.(phase := Sending([]), toChild := ask);
    var s3 := s2.(phase := Receiving([]));
    var s4 := s3.(child := Reading(ask[..4]), toChild := ask[4..]);
    var s5 := s4.(child := Reading(ask), toChild := []);
    var s6 := s5.(child := Computing(q));
    var s7 := s6.(child := Writing(answer), computed := s.computed + [Computation(q, reply)]);
    var s8 := s7.(child := Writing([]), toParent := answer);
    var s9 := s8.(child := Reading([]));
    var s10 := s9.(phase := Receiving(answer[..4]), toParent := answer[4..]);
    var s11 := s10.(phase := Receiving(answer), toParent := []);
    var s12 := s11.(phase := Idle, delivered := s.delivered + [Delivery(s.dispatched + 1, q, reply)]);
    [s, s1, s2, s3, s4, s5, s6, s7, s8, s9, s10, s11, s12]
  }

  function CallEvents(c: Codec, q: Request, reply: Reply): seq<Event> {
    var ask, answer := |c.encode(Ask(ToDict(q)))|, |c.encode(Answer(reply))|;
    [EDispatch(q), ESend(4 + ask), ESendDone, EChildReads(4), EChildReads(ask), EChildParses, EChildReplies(reply),
     EChildWrites(4 + answer), EChildLoops, EReceive(4), EReceive(answer), EFinish]
  }

  /** A frame taken whole, or as its header and the rest. */
  lemma Pieces(payload: seq<Byte>, f: seq<Byte>)
    requires 0 < |payload| <= MAX_MESSAGE && f == Frame(payload)
    ensures f[|f|..] == [] && [] + f[..|f|] == f && |f| == 4 + |payload|
    ensures [] + f[..4] == f[..4] && f[4..][|f| - 4..] == [] && f[..4] + f[4..][..|f| - 4] == f
    ensures f[4..] == payload && Complete(f)
    ensures !BadLength([]) && Need([]) == 4 && !BadLength(f[..4]) && Need(f[..4]) == |payload|
  {
    HeaderRoundTrip(|payload|);
    PrefixNeeds(payload, []);
    PrefixNeeds(payload, f[..4]);
    PrefixNeeds(payload, f);
  }

  lemma RequestLeaves(c: Codec, maxTokens: int, s: State, q: Request, reply: Reply)
    requires c.Faithful() && IsRequest(q) && Fits(c, Ask(ToDict(q))) && Fits(c, Answer(reply))
    requires s.available && s.phase == Idle && s.child == Reading([]) && s.toChild == [] && s.toParent == []
    ensures var ss, es := CallStates(c, s, q, reply), CallEvents(c, q, reply);
      forall i :: 0 <= i < 3 ==> Step(c, maxTokens, ss[i], es[i], ss[i + 1])
  {
    var ss, es := CallStates(c, s, q, reply), CallEvents(c, q, reply);
    var ask := FrameOf(c, Ask(ToDict(q)));
    assert c.RoundTrips(Ask(ToDict(q)));
    Pieces(c.encode(Ask(ToDict(q))), ask);
    hide Frame, Header, Length, Complete, BadLength, Need, Parse, IsRequest, ToDict, InputSha;
    assert Dispatch(c, ss[0], ss[1], q);
    assert SendBytes(ss[1], ss[2], |ask|);
    assert SendDone(ss[2], ss[3]);
  }

  lemma ReadInTwo(t: State, u: State, v: State, payload: seq<Byte>, ask: seq<Byte>)
    requires 0 < |payload| <= MAX_MESSAGE && ask == Frame(payload) && t.child == Reading([]) && t.toChild == ask
    requires u == t.(child := Reading(ask[..4]), toChild := ask[4..]) && v == t.(child := Reading(ask), toChild := [])
    ensures ChildReads(t, u, 4) && ChildReads(u, v, |payload|)
  {
    Pieces(payload, ask);
    hide Frame, BadLength, Need;
  }

  lemma ArrivalStates(c: Codec, s: State, q: Request, reply: Reply)
    requires Fits(c, Ask(ToDict(q))) && Fits(c, Answer(reply)) && s.child == Reading([])
    ensures var ss, ask := CallStates(c, s, q, reply), FrameOf(c, Ask(ToDict(q)));
      && ss[3].child == Reading([]) && ss[3].toChild == ask
      && ss[4] == ss[3].(child := Reading(ask[..4]), toChild := ask[4..])
      && ss[5] == ss[3].(child := Reading(ask), toChild := [])
  {
    hide ToDict, Frame;
  }

  lemma RequestArrives(c: Codec, maxTokens: int, s: State, q: Request, reply: Reply)
    requires c.Faithful() && IsRequest(q) && Fits(c, Ask(ToDict(q))) && Fits(c, Answer(reply))
    requires s.child == Reading([])
    ensures var ss, ask := CallStates(c, s, q, reply), |c.encode(Ask(ToDict(q)))|;
      Step(c, maxTokens, ss[3], EChildReads(4), ss[4]) && Step(c, maxTokens, ss[4], EChildReads(ask), ss[5])
  {
    var ss, ask := CallStates(c, s, q, reply), FrameOf(c, Ask(ToDict(q)));
    var t, u, v := ss[3], ss[4], ss[5];
    assert c.RoundTrips(Ask(ToDict(q)));
    hide IsRequest, ToDict, ChildReads, Frame, CallStates;
    ArrivalStates(c, s, q, reply);
    ReadInTwo(t, u, v, c.encode(Ask(ToDict(q))), ask);
  }

  lemma RequestIsParsed(c: Codec, maxTokens: int, s: State, q: Request, reply: Reply)
    requires c.Faithful() && IsRequest(q) && Fits(c, Ask(ToDict(q))) && Fits(c, Answer(reply))
    ensures Step(c, maxTokens, CallStates(c, s, q, reply)[5], EChildParses, CallStates(c, s, q, reply)[6])
  {
    var t, u := CallStates(c, s, q, reply)[5], CallStates(c, s, q, reply)[6];
    var ask := FrameOf(c, Ask(ToDict(q)));
    ParseToDict(q);
    assert c.RoundTrips(Ask(ToDict(q)));
    Pieces(c.encode(Ask(ToDict(q))), ask);
    assert t.child == Reading(ask) && u == t.(child := Computing(q));
    hide Frame, Complete, Parse, IsRequest, ToDict, CallStates, Header, Length;
    assert ChildParses(c, t, u);
  }

  lemma ReplyLeaves(c: Codec, maxTokens: int, s: State, q: Request, reply: Reply)
    requires c.Faithful() && IsRequest(q) && Fits(c, Ask(ToDict(q))) && Fits(c, Answer(reply))
    requires s.available && s.phase == Idle && s.child == Reading([]) && s.toChild == [] && s.toParent == []
    requires Harmless(q, reply, maxTokens)
    ensures var ss, es := CallStates(c, s, q, reply), CallEvents(c, q, reply);
      forall i :: 6 <= i < 9 ==> Step(c, maxTokens, ss[i], es[i], ss[i + 1])
  {
    var ss, es := CallStates(c, s, q, reply), CallEvents(c, q, reply);
    var answer := FrameOf(c, Answer(reply));
    assert c.RoundTrips(Answer(reply));
    Pieces(c.encode(Answer(reply)), answer);
    hide Frame, Header, Length, Complete, BadLength, Need, Parse, IsRequest, ToDict, InputSha, Fits;
    var t, u, v, w := ss[6], ss[7], ss[8], ss[9];
    assert t.child == Computing(q) && t.computed == s.computed;
    assert u == t.(child := Writing(answer), computed := s.computed + [Computation(q, reply)]);
    assert v == u.(child := Writing([]), toParent := answer) && w == v.(child := Reading([]));
    assert u.toParent == [];
    hide CallStates;
    assert ChildReplies(c, t, u, reply);
    assert ChildWrites(u, v, |answer|);
    assert ChildLoops(v, w);
  }

  lemma ReplyArrives(c: Codec, maxTokens: int, s: State, q: Request, reply: Reply)
    requires c.Faithful() && IsRequest(q) && Fits(c, Ask(ToDict(q))) && Fits(c, Answer(reply))
    requires s.available && s.phase == Idle && s.child == Reading([]) && s.toChild == [] && s.toParent == []
    requires Harmless(q, reply, maxTokens)
    ensures var ss, es := CallStates(c, s, q, reply), CallEvents(c, q, reply);
      forall i :: 9 <= i < 12 ==> Step(c, maxTokens, ss[i], es[i], ss[i + 1])
  {
    var ss, es := CallStates(c, s, q, reply), CallEvents(c, q, reply);
    var answer := FrameOf(c, Answer(reply));
    assert c.RoundTrips(Answer(reply));
    Pieces(c.encode(Answer(reply)), answer);
    hide Frame, Header, Length, Complete, BadLength, Need, Parse, IsRequest, ToDict, InputSha;
    assert ReceiveBytes(ss[9], ss[10], 4);
    assert ReceiveBytes(ss[10], ss[11], |answer| - 4);
    assert Finish(c, maxTokens, ss[11], ss[12]);
  }

  /** Calls do complete: from any quiet state any request can be answered with any reply the parent accepts. */
  lemma CallCompletes(c: Codec, maxTokens: int, s: State, q: Request, reply: Reply)
    requires c.Faithful() && IsRequest(q) && Fits(c, Ask(ToDict(q))) && Fits(c, Answer(reply))
      && Harmless(q, reply, maxTokens)
    requires s.available && s.phase == Idle && s.child == Reading([]) && s.toChild == [] && s.toParent == []
    ensures var ss, es := CallStates(c, s, q, reply), CallEvents(c, q, reply);
      && |ss| == |es| + 1 && ss[0] == s
      && (forall i :: 0 <= i < |es| ==> Step(c, maxTokens, ss[i], es[i], ss[i + 1]))
      && ss[|es|].available && ss[|es|].phase == Idle && ss[|es|].child == Reading([])
      && ss[|es|].toChild == [] && ss[|es|].toParent == []
      && ss[|es|].delivered == s.delivered + [Delivery(s.dispatched + 1, q, reply)]
  {
    hide Step;
    RequestLeaves(c, maxTokens, s, q, reply);
    RequestArrives(c, maxTokens, s, q, reply);
    RequestIsParsed(c, maxTokens, s, q, reply);
    ReplyLeaves(c, maxTokens, s, q, reply);
    ReplyArrives(c, maxTokens, s, q, reply);
  }
}
