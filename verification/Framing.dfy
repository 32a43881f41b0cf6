/** The packet format of the SDK's TCP transport: two bytes of magic, a version byte, an
    unused byte, a big-endian 32-bit body length, and the body. */
module Framing {
  import opened Integers

  newtype byte = x: int | 0 <= x < 256

  const MAGIC := 0x1234
  const VERSION: byte := 1
  const HEADER_LEN := 8
  const MAX_BODY_LEN := 1024 * 1024

  type Bytes = seq<byte>

  // ---- Big-endian integers ----------------------------------------------------------

  function PutUint16(v: int): Bytes {
    [(v / 256 % 256) as byte, (v % 256) as byte]
  }

  function Uint16(b: Bytes): nat
    requires |b| >= 2
  {
    b[0] as int * 256 + b[1] as int
  }

  /** uint32 conversion included: longer values wrap. */
  function PutUint32(v: nat): Bytes {
    [(v / 0x100_0000 % 256) as byte, (v / 0x1_0000 % 256) as byte, (v / 0x100 % 256) as byte, (v % 256) as byte]
  }

  function Uint32(b: Bytes): nat
    requires |b| >= 4
  {
    b[0] as int * 0x100_0000 + b[1] as int * 0x1_0000 + b[2] as int * 0x100 + b[3] as int
  }

  lemma Uint16RoundTrip(v: nat, rest: Bytes)
    requires v < 0x1_0000
    ensures Uint16(PutUint16(v) + rest) == v
  {
  }

  lemma Uint32RoundTrip(v: nat, rest: Bytes)
    ensures Uint32(PutUint32(v) + rest) == v % TWO_TO_THE_32
  {
    var b := PutUint32(v) + rest;
    assert v / 0x1_0000 == v / 0x100 / 0x100 && v / 0x100_0000 == v / 0x100 / 0x100 / 0x100;
    assert v / 0x100_0000 / 256 == v / TWO_TO_THE_32;
  }

  /** The packet Write sends. */
  function Packet(body: Bytes): Bytes {
    PutUint16(MAGIC) + [VERSION, 0] + PutUint32(|body|) + body
  }

  function Stream(bodies: seq<Bytes>): Bytes {
    if bodies == [] then [] else Packet(bodies[0]) + Stream(bodies[1..])
  }

  // ---- The parser -------------------------------------------------------------------

  datatype Fault = BadMagic(magic: nat) | TooLarge(length: nat)

  datatype Parse =
    | More                            // not enough bytes yet
    | Bad(fault: Fault)
    | Frame(body: Bytes, size: nat)   // a body, and the length of its whole packet

  /** One look at the buffer: what the loop of Read decides without reading any more. */
  function ParseHead(buf: Bytes): (p: Parse)
    ensures p.Frame? ==> HEADER_LEN <= p.size <= |buf| && p.size <= HEADER_LEN + MAX_BODY_LEN
    ensures p.More? ==> |buf| < HEADER_LEN + MAX_BODY_LEN
  {
    if |buf| < HEADER_LEN then More
    else if Uint16(buf[..2]) != MAGIC then Bad(BadMagic(Uint16(buf[..2])))
    else
      var length := Uint32(buf[4..8]);
      if length > MAX_BODY_LEN then Bad(TooLarge(length))
      else if |buf| < HEADER_LEN + length then More
      else Frame(buf[HEADER_LEN..HEADER_LEN + length], HEADER_LEN + length)
  }

  /** What one look makes of the bytes. */
  lemma HeadOnBytes(buf: Bytes)
    ensures |buf| < 8 ==> ParseHead(buf) == More
    ensures |buf| >= 8 ==>
      var length := buf[4] as int * 0x100_0000 + buf[5] as int * 0x1_0000 + buf[6] as int * 0x100 + buf[7] as int;
      ParseHead(buf) ==
        if buf[0] != 0x12 || buf[1] != 0x34 then Bad(BadMagic(buf[0] as int * 256 + buf[1] as int))
        else if length > 1048576 then Bad(TooLarge(length))
        else if |buf| < 8 + length then More
        else Frame(buf[8..8 + length], 8 + length)
  {
  }

  datatype Parsed = Parsed(bodies: seq<Bytes>, fault: Ending)

  datatype Ending = Incomplete(rest: Bytes) | Poisoned(reason: Fault, rest: Bytes)

  /** All the frames of a byte string, and why there are no more. */
  function ParseAll(stream: Bytes): Parsed
    decreases |stream|
  {
    match ParseHead(stream)
    case More => Parsed([], Incomplete(stream))
    case Bad(fault) => Parsed([], Poisoned(fault, stream))
    case Frame(body, size) =>
      var tail := ParseAll(stream[size..]);
      Parsed([body] + tail.bodies, tail.fault)
  }

  /** A decision, once taken, does not depend on bytes that arrive later. */
  lemma DecisionIsStable(buf: Bytes, more: Bytes)
    ensures !ParseHead(buf).More? ==> ParseHead(buf + more) == ParseHead(buf)
    ensures ParseHead(buf).Frame? ==> (buf + more)[ParseHead(buf).size..] == buf[ParseHead(buf).size..] + more
  {
    if |buf| >= HEADER_LEN {
      assert (buf + more)[..2] == buf[..2] && (buf + more)[4..8] == buf[4..8];
      if ParseHead(buf).Frame? {
        var n := ParseHead(buf).size;
        assert (buf + more)[HEADER_LEN..n] == buf[HEADER_LEN..n];
      }
    }
  }

  lemma PacketHeader(body: Bytes, more: Bytes)
    ensures var p := Packet(body) + more;
      && |Packet(body)| == HEADER_LEN + |body|
      && Uint16(p[..2]) == MAGIC && Uint32(p[4..8]) == |body| % TWO_TO_THE_32
      && p[HEADER_LEN..HEADER_LEN + |body|] == body && p[HEADER_LEN + |body|..] == more
  {
    var p := Packet(body) + more;
    assert p[..2] == PutUint16(MAGIC) + [];
    assert p[4..8] == PutUint32(|body|) + [];
    Uint16RoundTrip(MAGIC, []);
    Uint32RoundTrip(|body|, []);
  }

  /** The packet that is sent, byte by byte: 0x1234, version 1, an unused zero, and the length,
      high byte first. */
  lemma PacketBytes(body: Bytes)
    ensures var p := Packet(body);
      && |p| == 8 + |body| && p[8..] == body
      && p[0] == 0x12 && p[1] == 0x34 && p[2] == 1 && p[3] == 0
      && (|body| < 0x1_0000_0000 ==>
            p[4] as int * 0x100_0000 + p[5] as int * 0x1_0000 + p[6] as int * 0x100 + p[7] as int == |body|)
  {
    PacketHeader(body, []);
    assert Packet(body) + [] == Packet(body);
    BodyLength(|body|);
  }

  lemma BodyLength(n: nat)
    ensures n < TWO_TO_THE_32 ==> n % TWO_TO_THE_32 == n
    ensures n % TWO_TO_THE_32 <= n
  {
  }

  /** What Read makes of one packet: it gets the body back exactly when Write's caller kept to
      the length limit that only Read enforces. */
  lemma PacketRoundTrip(body: Bytes, more: Bytes)
    ensures ParseHead(Packet(body) + more) == Frame(body, |Packet(body)|) <==> |body| <= MAX_BODY_LEN
    ensures MAX_BODY_LEN < |body| < TWO_TO_THE_32 ==> ParseHead(Packet(body) + more) == Bad(TooLarge(|body|))
    ensures |body| <= MAX_BODY_LEN ==> (Packet(body) + more)[|Packet(body)|..] == more
  {
    hide Uint16, Uint32, Packet;
    PacketHeader(body, more);
    BodyLength(|body|);
  }

  lemma StreamHead(bodies: seq<Bytes>, more: Bytes)
    requires bodies != []
    ensures Stream(bodies) + more == Packet(bodies[0]) + (Stream(bodies[1..]) + more)
  {
    hide Packet;
    assert (Packet(bodies[0]) + Stream(bodies[1..])) + more == Packet(bodies[0]) + (Stream(bodies[1..]) + more);
  }

  lemma ParseStep(body: Bytes, rest: Bytes)
    requires |body| <= MAX_BODY_LEN
    ensures ParseAll(Packet(body) + rest) == Parsed([body] + ParseAll(rest).bodies, ParseAll(rest).fault)
  {
    hide ParseHead, Packet;
    PacketRoundTrip(body, rest);
  }

  lemma StreamStep(bodies: seq<Bytes>, more: Bytes)
    requires bodies != [] && |bodies[0]| <= MAX_BODY_LEN
    requires ParseAll(Stream(bodies[1..]) + more).bodies == bodies[1..] + ParseAll(more).bodies
    ensures ParseAll(Stream(bodies) + more).bodies == bodies + ParseAll(more).bodies
    ensures ParseAll(Stream(bodies) + more).fault == ParseAll(Stream(bodies[1..]) + more).fault
  {
    hide ParseAll, Stream, Packet;
    StreamHead(bodies, more);
    ParseStep(bodies[0], Stream(bodies[1..]) + more);
    assert [bodies[0]] + (bodies[1..] + ParseAll(more).bodies) == bodies + ParseAll(more).bodies;
  }

  /** Reading back what was written, whatever follows it. */
  lemma {:induction false} StreamRoundTrip(bodies: seq<Bytes>, more: Bytes)
    requires forall i :: 0 <= i < |bodies| ==> |bodies[i]| <= MAX_BODY_LEN
    ensures ParseAll(Stream(bodies) + more) == Parsed(bodies + ParseAll(more).bodies, ParseAll(more).fault)
  {
    hide ParseAll, Packet;
    if bodies == [] {
      assert Stream(bodies) + more == more;
      assert bodies + ParseAll(more).bodies == ParseAll(more).bodies;
    } else {
      StreamRoundTrip(bodies[1..], more);
      StreamStep(bodies, more);
    }
  }

  /** Two lists of bodies within the limit never share an encoding. */
  lemma StreamIsInjective(a: seq<Bytes>, b: seq<Bytes>)
    requires forall i :: 0 <= i < |a| ==> |a[i]| <= MAX_BODY_LEN
    requires forall i :: 0 <= i < |b| ==> |b[i]| <= MAX_BODY_LEN
    requires Stream(a) == Stream(b)
    ensures a == b
  {
    assert ParseAll([]).bodies == [];
    hide ParseAll, Stream;
    StreamRoundTrip(a, []);
    StreamRoundTrip(b, []);
    assert a + [] == a && b + [] == b;
  }
}
