/** Length-prefixed private messages: a 4-byte big-endian length, then the payload. */
module Framing {

  type Byte = b: int | 0 <= b < 256

  const MAX_BODY_BYTES := 128 * 1024
  const MAX_MESSAGE := MAX_BODY_BYTES + 16 * 1024

  /** `struct.pack("!I", n)` for the lengths that occur. */
  function Header(n: nat): (h: seq<Byte>)
    requires n <= MAX_MESSAGE
    ensures |h| == 4
  {
    [n / 0x1000000, n / 0x10000 % 0x100, n / 0x100 % 0x100, n % 0x100]
  }

  function Length(h: seq<Byte>): nat
    requires |h| == 4
  {
    h[0] as int * 0x1000000 + h[1] as int * 0x10000 + h[2] as int * 0x100 + h[3] as int
  }

  ghost predicate Sendable(payload: seq<Byte>) {
    0 < |payload| <= MAX_MESSAGE
  }

  function Frame(payload: seq<Byte>): (f: seq<Byte>)
    requires |payload| <= MAX_MESSAGE
    ensures |f| == 4 + |payload|
  {
    Header(|payload|) + payload
  }

  /** How many bytes `_receive` asks for next when it holds `got`: the rest of the header, then the rest of the body. */
  function Need(got: seq<Byte>): int {
    if |got| < 4 then 4 - |got| else 4 + Length(got[..4]) - |got|
  }

  /** `_receive` has what it wants: a whole header announcing a permitted length, and that many bytes. */
  predicate Complete(got: seq<Byte>) {
    |got| >= 4 && 0 < Length(got[..4]) <= MAX_MESSAGE && Need(got) == 0
  }

  predicate BadLength(got: seq<Byte>) {
    |got| >= 4 && !(0 < Length(got[..4]) <= MAX_MESSAGE)
  }

  lemma HeaderRoundTrip(n: nat)
    requires n <= MAX_MESSAGE
    ensures Length(Header(n)) == n
  {
    assert n == n / 0x100 * 0x100 + n % 0x100;
    assert n / 0x100 == n / 0x10000 * 0x100 + n / 0x100 % 0x100;
    assert n / 0x10000 == n / 0x1000000 * 0x100 + n / 0x10000 % 0x100;
  }

  /** A prefix of a frame never looks complete or malformed, and asks for no byte beyond the frame. */
  lemma PrefixNeeds(payload: seq<Byte>, got: seq<Byte>)
    requires Sendable(payload) && got <= Frame(payload)
    ensures !BadLength(got)
    ensures 0 <= Need(got) <= |Frame(payload)| - |got|
    ensures Need(got) == 0 <==> got == Frame(payload)
    ensures Complete(got) <==> got == Frame(payload)
  {
    HeaderRoundTrip(|payload|);
    if |got| >= 4 { assert got[..4] == Frame(payload)[..4] == Header(|payload|); }
  }

  /** Reading a frame recovers the payload and nothing of what follows it. */
  lemma FrameRoundTrip(payload: seq<Byte>, rest: seq<Byte>)
    requires Sendable(payload)
    ensures var stream := Frame(payload) + rest;
      && Length(stream[..4]) == |payload| && Complete(stream[..4 + |payload|])
      && stream[4..4 + |payload|] == payload && stream[4 + |payload|..] == rest
  {
    var stream := Frame(payload) + rest;
    HeaderRoundTrip(|payload|);
    assert stream[..4] == Header(|payload|);
    assert stream[..4 + |payload|] == Frame(payload);
    assert Frame(payload)[..4] == Header(|payload|);
  }

  /** Frames are prefix-free: two streams that agree start with the same message. */
  lemma FramesAreSelfDelimiting(p: seq<Byte>, q: seq<Byte>, x: seq<Byte>, y: seq<Byte>)
    requires Sendable(p) && Sendable(q) && Frame(p) + x == Frame(q) + y
    ensures p == q && x == y
  {
    FrameRoundTrip(p, x);
    FrameRoundTrip(q, y);
  }
}
