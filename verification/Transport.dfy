/** The TCP transport of the SDK: Write prints packets, Read cuts frames out of whatever
    chunks the connection delivers, keeping the incomplete tail for the next call. */
module Transport {
  import opened Framing
  import opened Names

  const READ_SIZE := 4096

  /** What one net.Conn.Read reports. A passed deadline is a failure too. */
  datatype Event = Chunk(bytes: Bytes) | Eof | Failed

  datatype Outcome = GotBody(body: Bytes) | ProtocolError(fault: Fault) | Closed | ReadFailed | Cancelled

  /** The reader between two calls: its carry-over buffer and what the network will still do. */
  datatype Reader = Reader(buf: Bytes, incoming: seq<Event>)

  function Arriving(incoming: seq<Event>): Bytes {
    if incoming == [] then []
    else (if incoming[0].Chunk? then incoming[0].bytes else []) + Arriving(incoming[1..])
  }

  /** Everything the reader has or will get. */
  function AllBytes(r: Reader): Bytes {
    r.buf + Arriving(r.incoming)
  }

  /** One call of Read. `patience` counts the loop heads at which the context is still alive. */
  function ReadSpec(r: Reader, patience: nat): (Outcome, Reader)
    decreases patience
  {
    if patience == 0 then (Cancelled, r)
    else
      match ParseHead(r.buf)
      case Frame(body, size) => (GotBody(body), Reader(r.buf[size..], r.incoming))
      case Bad(fault) => (ProtocolError(fault), r)
      case More =>
        if r.incoming == [] then (ReadFailed, r)
        else
          match r.incoming[0]
          case Chunk(bytes) => ReadSpec(Reader(r.buf + bytes, r.incoming[1..]), patience - 1)
          case Eof => (Closed, Reader(r.buf, r.incoming[1..]))
          case Failed => (ReadFailed, Reader(r.buf, r.incoming[1..]))
  }

  // ---- The objects ------------------------------------------------------------------

  class Conn {
    var incoming: seq<Event>
    var sent: Bytes

    constructor (incoming: seq<Event>)
      ensures this.incoming == incoming && sent == []
    {
      this.incoming, sent := incoming, [];
    }

    method Read() returns (e: Event)
      modifies this`incoming
      ensures if old(incoming) == [] then e == Failed && incoming == []
              else e == old(incoming)[0] && incoming == old(incoming)[1..]
    {
      if incoming == [] {
        return Failed;
      }
      e, incoming := incoming[0], incoming[1..];
    }

    /** A connection that fails has taken only the first bytes. */
    method Write(bytes: Bytes, takes: nat) returns (ok: bool)
      modifies this`sent
      ensures ok == (takes >= |bytes|) && sent == old(sent) + if ok then bytes else bytes[..takes]
    {
      ok := takes >= |bytes|;
      sent := sent + if ok then bytes else bytes[..takes];
    }
  }

  datatype WriteOutcome = Written | WriteCancelled | MarshalFailed | WriteFailed

  class Transport {
    const conn: Conn
    var packetBuf: Bytes

    constructor (conn: Conn)
      ensures this.conn == conn && packetBuf == []
    {
      this.conn, packetBuf := conn, [];
    }

    ghost function View(): Reader
      reads this, conn
    {
      Reader(packetBuf, conn.incoming)
    }

    method Read(patience: nat) returns (out: Outcome)
      modifies this, conn`incoming
      ensures (out, View()) == ReadSpec(old(View()), patience)
      ensures conn.sent == old(conn.sent)
      // a wrong magic is refused, for ever
      ensures patience > 0 && |old(packetBuf)| >= 8 && (old(packetBuf)[0] != 0x12 || old(packetBuf)[1] != 0x34) ==>
        out == ProtocolError(BadMagic(old(packetBuf)[0] as int * 256 + old(packetBuf)[1] as int)) && View() == old(View())
      ensures out.ProtocolError? && out.fault.BadMagic? ==>
        && |packetBuf| >= 8 && (packetBuf[0] != 0x12 || packetBuf[1] != 0x34)
        && out.fault.magic == packetBuf[0] as int * 256 + packetBuf[1] as int
      // and so is a length beyond the limit
      ensures patience > 0 && |old(packetBuf)| >= 8 && old(packetBuf)[0] == 0x12 && old(packetBuf)[1] == 0x34 ==>
        var b := old(packetBuf);
        var length := b[4] as int * 0x100_0000 + b[5] as int * 0x1_0000 + b[6] as int * 0x100 + b[7] as int;
        && (length > 1048576 ==> out == ProtocolError(TooLarge(length)) && View() == old(View()))
        && (length <= 1048576 && |b| >= 8 + length ==>
              out == GotBody(b[8..8 + length]) && packetBuf == b[8 + length..] && conn.incoming == old(conn.incoming))
      ensures out.ProtocolError? && out.fault.TooLarge? ==>
        && |packetBuf| >= 8 && packetBuf[0] == 0x12 && packetBuf[1] == 0x34 && out.fault.length > 1048576
        && out.fault.length == packetBuf[4] as int * 0x100_0000 + packetBuf[5] as int * 0x1_0000
                               + packetBuf[6] as int * 0x100 + packetBuf[7] as int
    {
      var left: nat := patience;
      while true
        invariant left <= patience
        invariant ReadSpec(View(), left) == ReadSpec(old(View()), patience)
        decreases left
      {
        if left == 0 {
          return Cancelled;
        }
        if |packetBuf| < HEADER_LEN {
          var e := conn.Read();
          match e {
            case Eof => return Closed;
            case Failed => return ReadFailed;
            case Chunk(bytes) => packetBuf := packetBuf + bytes;
          }
          left := left - 1;
          continue;
        }
        var magic := Uint16(packetBuf[..2]);
        if magic != MAGIC {
          return ProtocolError(BadMagic(magic));
        }
        var length := Uint32(packetBuf[4..8]);
        if length > MAX_BODY_LEN {
          return ProtocolError(TooLarge(length));
        }
        var total := HEADER_LEN + length;
        if |packetBuf| < total {
          var e := conn.Read();
          match e {
            case Eof => return Closed;
            case Failed => return ReadFailed;
            case Chunk(bytes) => packetBuf := packetBuf + bytes;
          }
          left := left - 1;
          continue;
        }
        var body := packetBuf[HEADER_LEN..total];
        packetBuf := packetBuf[total..];
        return GotBody(body);
      }
    }

    /** Fills the packet in place and sends it. `body` is what marshalling gives, if it succeeds,
        and `takes` is how many bytes the connection takes before it fails. */
    method Write(cancelled: bool, body: Option<Bytes>, takes: nat) returns (out: WriteOutcome)
      modifies conn`sent
      ensures out == if cancelled then WriteCancelled
                     else if body == None then MarshalFailed
                     else if takes < |Packet(body.value)| then WriteFailed
                     else Written
      ensures conn.sent == match out
        case Written => old(conn.sent) + Packet(body.value)
        case WriteFailed => old(conn.sent) + Packet(body.value)[..takes]
        case _ => old(conn.sent)
      ensures View() == old(View())
    {
      if cancelled {
        return WriteCancelled;
      }
      if body == None {
        return MarshalFailed;
      }
      var packet := Fill(body.value);
      var ok := conn.Write(packet[..], takes);
      return if ok then Written else WriteFailed;
    }

    method Fill(body: Bytes) returns (packet: array<byte>)
      ensures fresh(packet) && packet[..] == Packet(body)
    {
      var magic, length := PutUint16(MAGIC), PutUint32(|body|);
      packet := new byte[HEADER_LEN + |body|](_ => 0);
      packet[0], packet[1] := magic[0], magic[1];
      packet[2] := VERSION;
      packet[4], packet[5], packet[6], packet[7] := length[0], length[1], length[2], length[3];
      forall i | 0 <= i < |body| {
        packet[HEADER_LEN + i] := body[i];
      }
      assert packet[..] == Packet(body);
    }
  }

  // ---- Laws of Read -----------------------------------------------------------------

  lemma ArrivingStep(r: Reader)
    requires r.incoming != [] && r.incoming[0].Chunk?
    ensures AllBytes(Reader(r.buf + r.incoming[0].bytes, r.incoming[1..])) == AllBytes(r)
  {
  }

  /** No byte is lost, invented or reordered: what a call had to work with is the packet it
      returned, if any, followed by what it left behind. */
  lemma {:induction false} ReadConserves(r: Reader, patience: nat)
    ensures var (out, after) := ReadSpec(r, patience);
      if out.GotBody?
      then var head := ParseHead(AllBytes(r));
        head.Frame? && head.body == out.body && AllBytes(r)[head.size..] == AllBytes(after)
      else AllBytes(after) == AllBytes(r)
    decreases patience
  {
    hide ParseHead;
    if patience > 0 {
      var arriving := Arriving(r.incoming);
      match ParseHead(r.buf)
      case Frame(body, size) => DecisionIsStable(r.buf, arriving);
      case Bad(fault) =>
      case More =>
        if r.incoming != [] && r.incoming[0].Chunk? {
          ArrivingStep(r);
          ReadConserves(Reader(r.buf + r.incoming[0].bytes, r.incoming[1..]), patience - 1);
        }
    }
  }

  // ---- Sessions: successive calls of Read -------------------------------------------

  function Reads(r: Reader, patiences: seq<nat>): (seq<Outcome>, Reader)
    decreases |patiences|
  {
    if patiences == [] then ([], r)
    else
      var (out, next) := ReadSpec(r, patiences[0]);
      var (outs, last) := Reads(next, patiences[1..]);
      ([out] + outs, last)
  }

  function Bodies(outs: seq<Outcome>): seq<Bytes> {
    if outs == [] then []
    else (if outs[0].GotBody? then [outs[0].body] else []) + Bodies(outs[1..])
  }

  function Prepend(bodies: seq<Bytes>, p: Parsed): Parsed {
    Parsed(bodies + p.bodies, p.fault)
  }

  /** Whatever the calls, the chunks and the failures in between: the bodies returned so far,
      followed by what a parse of the rest will give, are the parse of the whole byte stream. */
  lemma {:induction false} SessionConserves(r: Reader, patiences: seq<nat>)
    ensures var (outs, last) := Reads(r, patiences);
      ParseAll(AllBytes(r)) == Prepend(Bodies(outs), ParseAll(AllBytes(last)))
    decreases |patiences|
  {
    hide ParseHead, ReadSpec;
    if patiences != [] {
      var (out, next) := ReadSpec(r, patiences[0]);
      ReadConserves(r, patiences[0]);
      SessionConserves(next, patiences[1..]);
      assert Reads(r, patiences).0[1..] == Reads(next, patiences[1..]).0;
    }
  }

  /** The reader can get no further: its buffer is poisoned, or nothing more arrives and no
      complete frame is buffered. */
  predicate Stuck(r: Reader) {
    ParseHead(r.buf).Bad? || (r.incoming == [] && ParseHead(r.buf).More?)
  }

  /** What a reader that is stuck still has is where the parse of it ends. */
  lemma StuckIsTheEnd(r: Reader)
    requires Stuck(r)
    ensures ParseHead(AllBytes(r)) == ParseHead(r.buf)
    ensures ParseAll(AllBytes(r)).bodies == []
    ensures ParseAll(AllBytes(r)).fault == match ParseHead(r.buf)
      case Bad(fault) => Poisoned(fault, AllBytes(r))
      case _ => Incomplete(AllBytes(r))
  {
    hide ParseHead;
    DecisionIsStable(r.buf, Arriving(r.incoming));
    assert r.incoming == [] ==> AllBytes(r) == r.buf;
  }

  /** Chunking independence: however one byte stream is cut into chunks and however the calls
      are made, the bodies come out the same, up to how far the calls got; and once neither
      reader can get further, they have returned the same bodies, left the same bytes, and
      fail alike: both for the same bad header, or both for want of bytes. */
  lemma ChunkingIndependence(a: Reader, b: Reader, callsA: seq<nat>, callsB: seq<nat>)
    requires AllBytes(a) == AllBytes(b)
    ensures var (outsA, lastA) := Reads(a, callsA);
      var (outsB, lastB) := Reads(b, callsB);
      && (|Bodies(outsA)| <= |Bodies(outsB)| ==> Bodies(outsA) <= Bodies(outsB))
      && (Stuck(lastA) && Stuck(lastB) ==>
            && Bodies(outsA) == Bodies(outsB)
            && AllBytes(lastA) == AllBytes(lastB)
            && ParseHead(lastA.buf) == ParseHead(lastB.buf))
  {
    hide ParseHead, Stuck;
    SessionConserves(a, callsA);
    SessionConserves(b, callsB);
    var (outsA, lastA) := Reads(a, callsA);
    var (outsB, lastB) := Reads(b, callsB);
    var all := ParseAll(AllBytes(a)).bodies;
    assert Bodies(outsA) == all[..|Bodies(outsA)|] && Bodies(outsB) == all[..|Bodies(outsB)|];
    if Stuck(lastA) && Stuck(lastB) {
      StuckIsTheEnd(lastA);
      StuckIsTheEnd(lastB);
    }
  }

  /** A bad magic or an excessive length is for ever: every later call fails the same way. */
  lemma {:induction false} PoisonIsPermanent(r: Reader, patiences: seq<nat>)
    requires ParseHead(r.buf).Bad?
    ensures var (outs, last) := Reads(r, patiences);
      && last == r && |outs| == |patiences|
      && forall i :: 0 <= i < |outs| ==> outs[i] == if patiences[i] == 0 then Cancelled else ProtocolError(ParseHead(r.buf).fault)
  {
    if patiences != [] {
      PoisonIsPermanent(r, patiences[1..]);
    }
  }

  const BUFFER_BOUND := HEADER_LEN + MAX_BODY_LEN - 1 + READ_SIZE

  ghost predicate SmallChunks(incoming: seq<Event>) {
    forall e :: e in incoming && e.Chunk? ==> |e.bytes| <= READ_SIZE
  }

  lemma {:induction false} ReadIsBounded(r: Reader, patience: nat)
    requires |r.buf| <= BUFFER_BOUND && SmallChunks(r.incoming)
    ensures var after := ReadSpec(r, patience).1; |after.buf| <= BUFFER_BOUND && SmallChunks(after.incoming)
    decreases patience
  {
    if patience > 0 && ParseHead(r.buf).More? && r.incoming != [] && r.incoming[0].Chunk? {
      var next := Reader(r.buf + r.incoming[0].bytes, r.incoming[1..]);
      assert |next.buf| <= BUFFER_BOUND;
      hide ParseHead;
      ReadIsBounded(next, patience - 1);
    }
  }

  /** Over any calls the carry-over buffer stays within one incomplete packet and one read. */
  lemma {:induction false} BufferIsBounded(r: Reader, patiences: seq<nat>)
    requires |r.buf| <= BUFFER_BOUND && SmallChunks(r.incoming)
    ensures |Reads(r, patiences).1.buf| <= 8 + 1048576 - 1 + 4096
    decreases |patiences|
  {
    if patiences != [] {
      ReadIsBounded(r, patiences[0]);
      BufferIsBounded(ReadSpec(r, patiences[0]).1, patiences[1..]);
    }
  }

  /** The outcome that a byte stream calls for. */
  function OutcomeOf(stream: Bytes): Outcome {
    match ParseHead(stream)
    case Frame(body, _) => GotBody(body)
    case Bad(fault) => ProtocolError(fault)
    case More => ReadFailed
  }

  /** A call that may wait for everything ends with what the whole stream calls for, whatever
      the chunks: its first frame, its bad header, or the failure of a read that finds nothing
      more. It is never cancelled: every turn of the loop returns or takes a chunk. */
  lemma {:induction false} ReadFinds(r: Reader, patience: nat)
    requires forall i :: 0 <= i < |r.incoming| ==> r.incoming[i].Chunk?
    requires |r.incoming| < patience
    ensures ReadSpec(r, patience).0 == OutcomeOf(AllBytes(r))
    ensures |ReadSpec(r, patience).1.incoming| <= |r.incoming|
    ensures forall e :: e in ReadSpec(r, patience).1.incoming ==> e.Chunk?
    decreases patience
  {
    hide ParseHead;
    DecisionIsStable(r.buf, Arriving(r.incoming));
    if ParseHead(r.buf).More? {
      assert r.incoming == [] ==> AllBytes(r) == r.buf;
      if r.incoming != [] {
        ArrivingStep(r);
        ReadFinds(Reader(r.buf + r.incoming[0].bytes, r.incoming[1..]), patience - 1);
      }
    }
  }

  /** Any call, on the bytes of the whole stream and whatever the chunks: a body comes only from a
      packet with the right magic and a length within the limit, and that packet is consumed; a
      bad magic or an excessive length is reported only when the stream begins with it; and
      unless a body is returned nothing is consumed. */
  lemma ReadOnBytes(r: Reader, patience: nat)
    ensures var (out, after) := ReadSpec(r, patience);
      var all := AllBytes(r);
      && (out.GotBody? ==>
            && |all| >= 8 && all[0] == 0x12 && all[1] == 0x34
            && var length := all[4] as int * 0x100_0000 + all[5] as int * 0x1_0000 + all[6] as int * 0x100 + all[7] as int;
            && length <= 1048576 && 8 + length <= |all|
            && out.body == all[8..8 + length] && AllBytes(after) == all[8 + length..])
      && (!out.GotBody? ==> AllBytes(after) == all)
      && (out.ProtocolError? ==>
            && |all| >= 8
            && match out.fault
               case BadMagic(magic) => (all[0] != 0x12 || all[1] != 0x34) && magic == all[0] as int * 256 + all[1] as int
               case TooLarge(length) =>
                 && all[0] == 0x12 && all[1] == 0x34 && length > 1048576
                 && length == all[4] as int * 0x100_0000 + all[5] as int * 0x1_0000 + all[6] as int * 0x100 + all[7] as int)
  {
    hide ReadSpec, ParseHead;
    ReadConserves(r, patience);
    FaultIsInStream(r, patience);
    HeadOnBytes(AllBytes(r));
  }

  /** What a call takes from the network are chunks, all of them but the last event; that one tells
      a closed connection from a broken one. A cancelled call has used up its turns on chunks. */
  lemma {:induction false} EndingIsLastEvent(r: Reader, patience: nat)
    ensures var (out, after) := ReadSpec(r, patience);
      var n := |r.incoming| - |after.incoming|;
      && 0 <= n <= patience && after.incoming == r.incoming[n..]
      && (forall i :: 0 <= i < n - 1 ==> r.incoming[i].Chunk?)
      && (out.Closed? <==> n > 0 && r.incoming[n - 1] == Eof)
      && (n > 0 && r.incoming[n - 1] == Failed ==> out.ReadFailed?)
      && (out.ReadFailed? ==> after.incoming == [] || (n > 0 && r.incoming[n - 1] == Failed))
      && (out.Cancelled? ==> n == patience && (n > 0 ==> r.incoming[n - 1].Chunk?))
    decreases patience
  {
    hide ParseHead;
    if patience > 0 && ParseHead(r.buf).More? && r.incoming != [] && r.incoming[0].Chunk? {
      var next := Reader(r.buf + r.incoming[0].bytes, r.incoming[1..]);
      EndingIsLastEvent(next, patience - 1);
      assert forall i :: 0 < i < |r.incoming| ==> r.incoming[i] == next.incoming[i - 1];
    }
  }

  lemma {:induction false} FaultIsInStream(r: Reader, patience: nat)
    ensures var out := ReadSpec(r, patience).0; out.ProtocolError? ==> ParseHead(AllBytes(r)) == Bad(out.fault)
    decreases patience
  {
    hide ParseHead;
    if patience > 0 {
      DecisionIsStable(r.buf, Arriving(r.incoming));
      if ParseHead(r.buf).More? && r.incoming != [] && r.incoming[0].Chunk? {
        ArrivingStep(r);
        FaultIsInStream(Reader(r.buf + r.incoming[0].bytes, r.incoming[1..]), patience - 1);
      }
    }
  }

  /** A call that may wait for everything, on the bytes of the whole stream: which of the four
      endings it has depends on the bytes alone. */
  lemma PatientReadOnBytes(r: Reader, patience: nat)
    requires forall i :: 0 <= i < |r.incoming| ==> r.incoming[i].Chunk?
    requires |r.incoming| < patience
    ensures var all := AllBytes(r);
      var out := ReadSpec(r, patience).0;
      if |all| < 8 then out == ReadFailed
      else if all[0] != 0x12 || all[1] != 0x34 then out == ProtocolError(BadMagic(all[0] as int * 256 + all[1] as int))
      else
        var length := all[4] as int * 0x100_0000 + all[5] as int * 0x1_0000 + all[6] as int * 0x100 + all[7] as int;
        if length > 1048576 then out == ProtocolError(TooLarge(length))
        else if |all| < 8 + length then out == ReadFailed
        else out == GotBody(all[8..8 + length])
  {
    hide ReadSpec, ParseHead;
    ReadFinds(r, patience);
    HeadOnBytes(AllBytes(r));
  }

  /** End to end: the packets of any bodies within the limit, cut into any chunks, come out as
      those bodies, one per call, and nothing is left over. */
  lemma {:induction false} EndToEnd(bodies: seq<Bytes>, r: Reader, patiences: seq<nat>)
    requires forall i :: 0 <= i < |bodies| ==> |bodies[i]| <= MAX_BODY_LEN
    requires forall i :: 0 <= i < |r.incoming| ==> r.incoming[i].Chunk?
    requires AllBytes(r) == Stream(bodies)
    requires |patiences| == |bodies| && forall i :: 0 <= i < |patiences| ==> |r.incoming| < patiences[i]
    ensures var (outs, last) := Reads(r, patiences);
      && |outs| == |bodies| && AllBytes(last) == []
      && forall i :: 0 <= i < |outs| ==> outs[i] == GotBody(bodies[i])
  {
    hide ParseHead, Packet, ReadSpec;
    if bodies != [] {
      var rest := Stream(bodies[1..]);
      PacketRoundTrip(bodies[0], rest);
      ReadFinds(r, patiences[0]);
      ReadConserves(r, patiences[0]);
      var (out, next) := ReadSpec(r, patiences[0]);
      EndToEnd(bodies[1..], next, patiences[1..]);
    }
  }
}
