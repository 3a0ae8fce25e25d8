/** The framing of the SSL tunnel: length, packet type, payload (crates/snxcore/src/tunnel/ssl/codec.rs). */
module SlimCodec {
  import opened Wrappers
  import opened Sexprs
  import SexprExactness
  import SexprReader
  import SexprRoundTrip
  import opened Utf8

  const PKT_CONTROL: nat := 1
  const PKT_DATA: nat := 2
  const U32_LIMIT: nat := 0x1_0000_0000

  datatype Packet = Control(expr: Sexpr) | Data(data: seq<byte>)

  datatype CodecError = InvalidControl | UnknownPacketType

  type Decoded = Result<Option<Packet>, CodecError>

  function Be32(n: nat): (r: seq<byte>)
    requires n < U32_LIMIT
    ensures |r| == 4
  {
    var high := n / 0x100;
    var higher := high / 0x100;
    [higher / 0x100, higher % 0x100, high % 0x100, n % 0x100]
  }

  function FromBe32(s: seq<byte>): (n: nat)
    requires |s| == 4
    ensures n < U32_LIMIT
  {
    ((s[0] as int * 0x100 + s[1]) * 0x100 + s[2]) * 0x100 + s[3]
  }

  lemma Be32RoundTrip(n: nat)
    requires n < U32_LIMIT
    ensures FromBe32(Be32(n)) == n
  {
  }

  /** The bytes after the header: a control packet is its printed text and one NUL. */
  function Payload(p: Packet): seq<byte> {
    match p
    case Control(expr) => Encode(ToString(expr)) + [0]
    case Data(data) => data
  }

  function PacketType(p: Packet): nat {
    if p.Control? then PKT_CONTROL else PKT_DATA
  }

  /** A header before a payload; the length field keeps only the low 32 bits of the payload's length. */
  function Framed(kind: nat, payload: seq<byte>): seq<byte>
    requires kind < U32_LIMIT
  {
    Be32(|payload| % U32_LIMIT) + Be32(kind) + payload
  }

  /** One encoded packet. */
  function Frame(p: Packet): seq<byte> {
    Framed(PacketType(p), Payload(p))
  }

  function ParseControl(payload: seq<byte>): Option<Sexpr> {
    SexprReader.Parse(DecodeLossy(payload))
  }

  /** What one decoding attempt returns and what it leaves in the buffer. */
  function DecodeBytes(src: seq<byte>): (r: (Decoded, seq<byte>))
    ensures r.0.Ok? && r.0.value.Some? ==> |r.1| < |src|
  {
    if |src| < 4 then (Ok(None), src)
    else
      var len := FromBe32(src[..4]);
      if |src| < 8 + len then (Ok(None), src)
      else
        var packetType := FromBe32(src[4..8]);
        var payload := src[8..8 + len];
        if packetType == PKT_CONTROL then
          match ParseControl(payload)
          case Some(expr) => (Ok(Some(Control(expr))), src[8 + len..])
          case None => (Err(InvalidControl), src[8 + len..])
        else if packetType == PKT_DATA then (Ok(Some(Data(payload))), src[8 + len..])
        else (Err(UnknownPacketType), src)
  }

  /** A growable byte buffer that is consumed from the front. */
  class BytesMut {
    var data: seq<byte>

    constructor ()
      ensures data == []
    {
      data := [];
    }

    method Advance(n: nat)
      requires n <= |data|
      modifies this
      ensures data == old(data[n..])
    {
      data := data[n..];
    }

    method PutSlice(s: seq<byte>)
      modifies this
      ensures data == old(data) + s
    {
      data := data + s;
    }
  }

  method Decode(src: BytesMut) returns (r: Decoded)
    modifies src
    ensures (r, src.data) == DecodeBytes(old(src.data))
  {
    if |src.data| < 4 {
      return Ok(None);
    }
    var len := FromBe32(src.data[..4]);
    if |src.data| < 8 + len {
      return Ok(None);
    }
    var packetType := FromBe32(src.data[4..8]);
    if packetType == PKT_CONTROL {
      var payload := src.data[8..8 + len];
      src.Advance(8 + len);
      var expr := ParseControl(payload);
      r := if expr.Some? then Ok(Some(Control(expr.value))) else Err(InvalidControl);
    } else if packetType == PKT_DATA {
      var payload := src.data[8..8 + len];
      src.Advance(8 + len);
      r := Ok(Some(Data(payload)));
    } else {
      r := Err(UnknownPacketType);
    }
  }

  lemma PutTogether(before: seq<byte>, a: seq<byte>, b: seq<byte>, c: seq<byte>)
    ensures before + a + b + c == before + (a + b + c)
  {
  }

  method EncodePacket(item: Packet, dst: BytesMut)
    modifies dst
    ensures dst.data == old(dst.data) + Frame(item)
  {
    var data := Payload(item);
    var dataLen, packetType := Be32(|data| % U32_LIMIT), Be32(PacketType(item));
    dst.PutSlice(dataLen);
    dst.PutSlice(packetType);
    dst.PutSlice(data);
    PutTogether(old(dst.data), dataLen, packetType, data);
  }

  /** Packets the other side can receive: a length that fits the field, and control text that reads back. */
  predicate Sendable(p: Packet) {
    |Payload(p)| < U32_LIMIT && (p.Control? ==> SexprRoundTrip.ReadsBack(Strip(p.expr)))
  }

  /** What arrives: control expressions lose their nulls. */
  function Received(p: Packet): Packet {
    match p
    case Control(expr) => Control(Strip(expr))
    case Data(_) => p
  }

  function ReceivedAll(ps: seq<Packet>): (r: seq<Packet>)
    ensures |r| == |ps| && forall i | 0 <= i < |ps| :: r[i] == Received(ps[i])
  {
    seq(|ps|, i requires 0 <= i < |ps| => Received(ps[i]))
  }

  /** Decoding until nothing more comes out: the packets, the bytes left and the error that stopped it, if any. */
  datatype Drained = Drained(packets: seq<Packet>, rest: seq<byte>, error: Option<CodecError>)

  function Drain(src: seq<byte>): Drained
    decreases |src|
  {
    match DecodeBytes(src)
    case (Ok(None), rest) => Drained([], rest, None)
    case (Ok(Some(p)), rest) =>
      var more := Drain(rest);
      Drained([p] + more.packets, more.rest, more.error)
    case (Err(e), rest) => Drained([], rest, Some(e))
  }

  /** Chunks arrive one by one; each is appended to what is left, then the buffer is drained. */
  function FeedAll(buffer: seq<byte>, chunks: seq<seq<byte>>): Drained
    decreases |chunks|
  {
    if chunks == [] then Drained([], buffer, None)
    else
      var now := Drain(buffer + chunks[0]);
      if now.error.Some? then now
      else
        var later := FeedAll(now.rest, chunks[1..]);
        Drained(now.packets + later.packets, later.rest, later.error)
  }

  function Flatten(chunks: seq<seq<byte>>): seq<byte> {
    if chunks == [] then [] else chunks[0] + Flatten(chunks[1..])
  }

  function Frames(ps: seq<Packet>): (r: seq<seq<byte>>)
    ensures |r| == |ps| && forall i | 0 <= i < |ps| :: r[i] == Frame(ps[i])
  {
    seq(|ps|, i requires 0 <= i < |ps| => Frame(ps[i]))
  }

  function Stream(ps: seq<Packet>): seq<byte> {
    Flatten(Frames(ps))
  }

  lemma SlicesStay(a: seq<byte>, b: seq<byte>, from: nat, to: nat)
    requires from <= to <= |a|
    ensures (a + b)[from..to] == a[from..to] && (a + b)[to..] == a[to..] + b
  {
  }

  /** More bytes never change a decision already taken. */
  lemma DecodeExtends(a: seq<byte>, b: seq<byte>)
    ensures DecodeBytes(a).0 != Ok(None) ==> DecodeBytes(a + b) == (DecodeBytes(a).0, DecodeBytes(a).1 + b)
  {
    if DecodeBytes(a).0 != Ok(None) {
      var len := FromBe32(a[..4]);
      SlicesStay(a, b, 0, 4);
      SlicesStay(a, b, 4, 8);
      SlicesStay(a, b, 8, 8 + len);
    }
  }

  /** Draining, seen one packet at a time. */
  lemma DrainStep(src: seq<byte>, p: Packet, rest: seq<byte>)
    requires DecodeBytes(src) == (Ok(Some(p)), rest)
    ensures |rest| < |src|
    ensures Drain(src) == Drained([p] + Drain(rest).packets, Drain(rest).rest, Drain(rest).error)
  {
  }

  /** Draining `a` and then what is left together with `b`. */
  function Resume(first: Drained, b: seq<byte>): Drained {
    if first.error.Some? then Drained(first.packets, first.rest + b, first.error)
    else
      var more := Drain(first.rest + b);
      Drained(first.packets + more.packets, more.rest, more.error)
  }

  lemma {:induction false} DrainExtends(a: seq<byte>, b: seq<byte>)
    ensures Drain(a + b) == Resume(Drain(a), b)
    decreases |a|
  {
    DecodeExtends(a, b);
    match DecodeBytes(a)
    case (Ok(None), _) =>
      assert Drain(a) == Drained([], a, None);
      assert [] + Drain(a + b).packets == Drain(a + b).packets;
    case (Ok(Some(p)), rest) =>
      DrainStep(a, p, rest);
      DrainStep(a + b, p, rest + b);
      DrainExtends(rest, b);
      ResumeAfter(p, Drain(rest), b);
    case (Err(e), rest) =>
      assert Drain(a) == Drained([], rest, Some(e));
  }

  lemma ResumeAfter(p: Packet, d: Drained, b: seq<byte>)
    ensures var later := Resume(d, b);
            Resume(Drained([p] + d.packets, d.rest, d.error), b)
                == Drained([p] + later.packets, later.rest, later.error)
  {
    if d.error.None? {
      var more := Drain(d.rest + b);
      assert [p] + (d.packets + more.packets) == [p] + d.packets + more.packets;
    }
  }

  /** How a stream is cut into chunks makes no difference, whatever its bytes are. */
  lemma {:induction false} ChunkingDoesNotMatter(buffer: seq<byte>, chunks: seq<seq<byte>>)
    requires DecodeBytes(buffer) == (Ok(None), buffer)
    ensures var fed, whole := FeedAll(buffer, chunks), Drain(buffer + Flatten(chunks));
            fed.packets == whole.packets && fed.error == whole.error && (whole.error.None? ==> fed.rest == whole.rest)
    decreases |chunks|
  {
    if chunks == [] {
      assert buffer + Flatten(chunks) == buffer;
    } else {
      var head := buffer + chunks[0];
      assert buffer + Flatten(chunks) == head + Flatten(chunks[1..]);
      DrainExtends(head, Flatten(chunks[1..]));
      DrainedIsStuck(head);
      if Drain(head).error.None? {
        ChunkingDoesNotMatter(Drain(head).rest, chunks[1..]);
      }
    }
  }

  lemma {:induction false} DrainedIsStuck(src: seq<byte>)
    ensures Drain(src).error.None? ==> DecodeBytes(Drain(src).rest) == (Ok(None), Drain(src).rest)
    decreases |src|
  {
    match DecodeBytes(src)
    case (Ok(Some(_)), rest) => DrainedIsStuck(rest);
    case _ =>
  }

  /** The parts of a frame at the front of a buffer, as the decoder cuts them. */
  lemma FrameParts(kind: nat, payload: seq<byte>, rest: seq<byte>, src: seq<byte>)
    requires |payload| < U32_LIMIT && kind < U32_LIMIT
    requires src == Be32(|payload|) + Be32(kind) + payload + rest
    ensures |src| >= 8 + |payload|
    ensures FromBe32(src[..4]) == |payload| && FromBe32(src[4..8]) == kind
    ensures src[8..8 + |payload|] == payload && src[8 + |payload|..] == rest
  {
    Be32RoundTrip(|payload|);
    Be32RoundTrip(kind);
    assert src[..4] == Be32(|payload|);
    assert src[4..8] == Be32(kind);
  }

  lemma ControlReadsBackIff(expr: Sexpr)
    ensures ParseControl(Payload(Control(expr))) == Some(Strip(expr)) <==> SexprRoundTrip.ReadsBack(Strip(expr))
  {
    RoundTrip(ToString(expr), [0]);
    assert DecodeLossy([0]) == "\0" by { assert [0][1..] == []; }
    SexprExactness.ReadsBackIff(expr, "\0");
  }

  /** A whole frame at the front is decoded to its packet, and only its own bytes are consumed. */
  lemma DecodesFrame(p: Packet, rest: seq<byte>)
    requires Sendable(p)
    ensures DecodeBytes(Frame(p) + rest) == (Ok(Some(Received(p))), rest)
  {
    FramedFits(PacketType(p), Payload(p));
    if p.Control? {
      ControlReadsBackIff(p.expr);
      DecodesControl(Payload(p), rest);
    } else {
      DecodesData(Payload(p), rest);
    }
  }

  /** A length that fits is written as it is. */
  lemma FramedFits(kind: nat, payload: seq<byte>)
    requires kind < U32_LIMIT && |payload| < U32_LIMIT
    ensures Framed(kind, payload) == Be32(|payload|) + Be32(kind) + payload
  {
    var n := |payload|;
    assert n % U32_LIMIT == n;
  }

  lemma DecodesControl(payload: seq<byte>, rest: seq<byte>)
    requires |payload| < U32_LIMIT
    ensures DecodeBytes(Be32(|payload|) + Be32(PKT_CONTROL) + payload + rest)
            == (if ParseControl(payload).Some? then Ok(Some(Control(ParseControl(payload).value)))
                else Err(InvalidControl), rest)
  {
    FrameParts(PKT_CONTROL, payload, rest, Be32(|payload|) + Be32(PKT_CONTROL) + payload + rest);
  }

  lemma DecodesData(payload: seq<byte>, rest: seq<byte>)
    requires |payload| < U32_LIMIT
    ensures DecodeBytes(Be32(|payload|) + Be32(PKT_DATA) + payload + rest) == (Ok(Some(Data(payload))), rest)
  {
    FrameParts(PKT_DATA, payload, rest, Be32(|payload|) + Be32(PKT_DATA) + payload + rest);
  }

  /** A control packet whose length fits survives exactly when its expression can be read back. */
  lemma ControlSurvivesIff(expr: Sexpr, rest: seq<byte>)
    requires |Payload(Control(expr))| < U32_LIMIT
    ensures var (decoded, left) := DecodeBytes(Frame(Control(expr)) + rest);
            && left == rest
            && (decoded == Ok(Some(Control(Strip(expr)))) <==> SexprRoundTrip.ReadsBack(Strip(expr)))
  {
    FramedFits(PKT_CONTROL, Payload(Control(expr)));
    DecodesControl(Payload(Control(expr)), rest);
    ControlReadsBackIff(expr);
  }

  lemma PartialFrameParts(kind: nat, payload: seq<byte>, part: seq<byte>)
    requires |payload| < U32_LIMIT && kind < U32_LIMIT
    requires |part| >= 4 && part < Be32(|payload|) + Be32(kind) + payload
    ensures FromBe32(part[..4]) == |payload| && |part| < 8 + |payload|
  {
    Be32RoundTrip(|payload|);
    assert part[..4] == Be32(|payload|);
  }

  /** A frame that has not arrived completely stays in the buffer untouched. */
  lemma PartialFrameWaits(p: Packet, part: seq<byte>)
    requires Sendable(p)
    requires part < Frame(p)
    ensures DecodeBytes(part) == (Ok(None), part)
  {
    FramedFits(PacketType(p), Payload(p));
    PartialBytesWait(PacketType(p), Payload(p), part);
  }

  lemma PartialBytesWait(kind: nat, payload: seq<byte>, part: seq<byte>)
    requires |payload| < U32_LIMIT && kind < U32_LIMIT
    requires part < Be32(|payload|) + Be32(kind) + payload
    ensures DecodeBytes(part) == (Ok(None), part)
  {
    if |part| >= 4 {
      PartialFrameParts(kind, payload, part);
    }
  }

  /** The number of parts that lie wholly within the first `n` bytes. */
  function Complete(parts: seq<seq<byte>>, n: nat): (k: nat)
    ensures k <= |parts|
  {
    if parts == [] || n < |parts[0]| then 0 else Complete(parts[1..], n - |parts[0]|) + 1
  }

  /** The bytes after the last complete part. */
  function Incomplete(parts: seq<seq<byte>>, n: nat): seq<byte>
    requires n <= |Flatten(parts)|
  {
    if parts == [] then []
    else if n < |parts[0]| then parts[0][..n]
    else Incomplete(parts[1..], n - |parts[0]|)
  }

  lemma FlattenTake(parts: seq<seq<byte>>, k: nat)
    requires k < |parts|
    ensures Flatten(parts[..k + 1]) == parts[0] + Flatten(parts[1..][..k])
  {
    assert parts[..k + 1][1..] == parts[1..][..k];
  }

  /** The first `n` bytes are the complete parts and, of the next one, a piece that is too short. */
  lemma {:induction false} CompleteAndIncomplete(parts: seq<seq<byte>>, n: nat)
    requires n <= |Flatten(parts)|
    ensures var k := Complete(parts, n);
            && Flatten(parts)[..n] == Flatten(parts[..k]) + Incomplete(parts, n)
            && (if k < |parts| then Incomplete(parts, n) < parts[k] else Incomplete(parts, n) == [])
  {
    if parts == [] {
    } else if n < |parts[0]| {
      assert Flatten(parts[..0]) == [];
    } else {
      CompleteAndIncomplete(parts[1..], n - |parts[0]|);
      FlattenTake(parts, Complete(parts[1..], n - |parts[0]|));
    }
  }

  lemma CutAfter(a: seq<byte>, b: seq<byte>, n: nat)
    requires |a| <= n <= |a| + |b|
    ensures (a + b)[..n] == a + b[..n - |a|]
  {
  }

  /** What has arrived with the first `n` bytes: the packets of the complete frames, and the bytes after them. */
  function Arrived(frames: seq<seq<byte>>, packets: seq<Packet>, n: nat): Drained
    requires |frames| == |packets| && n <= |Flatten(frames)|
  {
    Drained(packets[..Complete(frames, n)], Incomplete(frames, n), None)
  }

  /** The bytes decode to the packet, whatever follows them, and to nothing as long as some are missing. */
  ghost predicate IsFrameOf(frame: seq<byte>, p: Packet) {
    && (forall tail: seq<byte> :: DecodeBytes(frame + tail) == (Ok(Some(p)), tail))
    && (forall part: seq<byte> | part < frame :: DecodeBytes(part) == (Ok(None), part))
  }

  lemma FrameIsFrame(p: Packet)
    requires Sendable(p)
    ensures IsFrameOf(Frame(p), Received(p))
  {
    forall tail: seq<byte>
      ensures DecodeBytes(Frame(p) + tail) == (Ok(Some(Received(p))), tail)
    {
      DecodesFrame(p, tail);
    }
    forall part: seq<byte> | part < Frame(p)
      ensures DecodeBytes(part) == (Ok(None), part)
    {
      PartialFrameWaits(p, part);
    }
  }

  lemma DrainsFrame(frame: seq<byte>, p: Packet, tail: seq<byte>)
    requires IsFrameOf(frame, p)
    ensures var later := Drain(tail); Drain(frame + tail) == Drained([p] + later.packets, later.rest, later.error)
  {
    DrainStep(frame + tail, p, tail);
  }

  lemma DrainsNothing(frame: seq<byte>, p: Packet, part: seq<byte>)
    requires IsFrameOf(frame, p) && part < frame
    ensures Drain(part) == Drained([], part, None)
  {
  }

  lemma TakeOneMore(packets: seq<Packet>, k: nat)
    requires k < |packets|
    ensures packets[..k + 1] == [packets[0]] + packets[1..][..k]
  {
  }

  lemma OneFrameMore(frames: seq<seq<byte>>, packets: seq<Packet>, n: nat)
    requires |frames| == |packets| && frames != [] && |frames[0]| <= n <= |Flatten(frames)|
    ensures var tail, later := Flatten(frames[1..])[..n - |frames[0]|],
        Arrived(frames[1..], packets[1..], n - |frames[0]|);
            && Flatten(frames)[..n] == frames[0] + tail
            && Arrived(frames, packets, n) == Drained([packets[0]] + later.packets, later.rest, None)
  {
    CutAfter(frames[0], Flatten(frames[1..]), n);
    TakeOneMore(packets, Complete(frames[1..], n - |frames[0]|));
  }

  lemma {:induction false} DrainsPrefix(frames: seq<seq<byte>>, packets: seq<Packet>, n: nat)
    requires |frames| == |packets| && forall i | 0 <= i < |frames| :: IsFrameOf(frames[i], packets[i])
    requires n <= |Flatten(frames)|
    ensures Drain(Flatten(frames)[..n]) == Arrived(frames, packets, n)
    decreases |frames|
  {
    if frames == [] {
    } else if n < |frames[0]| {
      DrainsNothing(frames[0], packets[0], frames[0][..n]);
      assert Flatten(frames)[..n] == frames[0][..n];
    } else {
      OneFrameMore(frames, packets, n);
      DrainsFrame(frames[0], packets[0], Flatten(frames[1..])[..n - |frames[0]|]);
      DrainsPrefix(frames[1..], packets[1..], n - |frames[0]|);
    }
  }

  /**
   * Any packets, any prefix of their encoding, any cutting into chunks: exactly the packets whose frames have
   * arrived come out, in order, and exactly the bytes after them are left.
   */
  lemma StreamRoundTrip(ps: seq<Packet>, chunks: seq<seq<byte>>)
    requires forall i | 0 <= i < |ps| :: Sendable(ps[i])
    requires Flatten(chunks) <= Stream(ps)
    ensures FeedAll([], chunks) == Arrived(Frames(ps), ReceivedAll(ps), |Flatten(chunks)|)
    ensures Flatten(chunks) == Stream(ps) ==> FeedAll([], chunks) == Drained(ReceivedAll(ps), [], None)
  {
    var frames, packets := Frames(ps), ReceivedAll(ps);
    forall i | 0 <= i < |ps|
      ensures IsFrameOf(frames[i], packets[i])
    {
      FrameIsFrame(ps[i]);
    }
    ChunksOfPrefix(frames, packets, chunks);
    if Flatten(chunks) == Stream(ps) {
      AllArrived(frames, packets);
    }
  }

  lemma ChunksOfPrefix(frames: seq<seq<byte>>, packets: seq<Packet>, chunks: seq<seq<byte>>)
    requires |frames| == |packets| && forall i | 0 <= i < |frames| :: IsFrameOf(frames[i], packets[i])
    requires Flatten(chunks) <= Flatten(frames)
    ensures FeedAll([], chunks) == Arrived(frames, packets, |Flatten(chunks)|)
  {
    assert Flatten(frames)[..|Flatten(chunks)|] == Flatten(chunks);
    DrainsPrefix(frames, packets, |Flatten(chunks)|);
    FeedIsDrain(chunks);
  }

  lemma FeedIsDrain(chunks: seq<seq<byte>>)
    ensures Drain(Flatten(chunks)).error.None? ==> FeedAll([], chunks) == Drain(Flatten(chunks))
  {
    assert [] + Flatten(chunks) == Flatten(chunks);
    ChunkingDoesNotMatter([], chunks);
  }

  lemma {:induction false} AllArrived(frames: seq<seq<byte>>, packets: seq<Packet>)
    requires |frames| == |packets|
    ensures Arrived(frames, packets, |Flatten(frames)|) == Drained(packets, [], None)
  {
    if frames != [] {
      AllArrived(frames[1..], packets[1..]);
      TakeOneMore(packets, |packets| - 1);
    }
  }

  /** A data packet survives one trip exactly when its length fits the 32-bit field. */
  lemma DataSurvivesIffLengthFits(data: seq<byte>)
    ensures DecodeBytes(Frame(Data(data))).0 == Ok(Some(Data(data))) <==> |data| < U32_LIMIT
  {
    var src := Frame(Data(data));
    assert src + [] == src;
    if |data| < U32_LIMIT {
      DecodesFrame(Data(data), []);
    } else {
      var len := |data| % U32_LIMIT;
      assert src == Be32(len) + Be32(PKT_DATA) + data[..len] + data[len..];
      FrameParts(PKT_DATA, data[..len], data[len..], src);
    }
  }
}
