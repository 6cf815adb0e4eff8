/** The wire format of evoid-transport: an 18-byte header, then a length-prefixed payload
    (intent, state sync) or an eight-byte timestamp (ping, pong). */
module Packets {
  import opened Options
  import opened Bytes

  const MAGIC: seq<byte> := [0x45, 0x56, 0x4F, 0x49]

  const PROTOCOL_VERSION: byte := 1

  const HEADER_SIZE := 18

  const PKT_INTENT := 0x01

  const PKT_STATE_SYNC := 0x02

  const PKT_PING := 0x05

  const PKT_PONG := 0x06

  datatype Header = Header(ptype: int, sequence: int, ack: int, ackBits: int) {
    /** The values that fit the wire: a one-byte type and three unsigned 32-bit numbers. */
    predicate OnWire() {
      && 0 <= ptype < 256
      && 0 <= sequence < U32
      && 0 <= ack < U32
      && 0 <= ackBits < U32
    }

    /** What the masks of build_header leave of the three numbers. */
    function Masked(): Header {
      Header(ptype, sequence % U32, ack % U32, ackBits % U32)
    }
  }

  /** None is the struct.error raised for a packet type that is not a byte. */
  function BuildHeader(h: Header): Option<seq<byte>> {
    if 0 <= h.ptype < 256 then
      Some(MAGIC + [PROTOCOL_VERSION, h.ptype]
           + Encode(h.sequence % U32, 4) + Encode(h.ack % U32, 4) + Encode(h.ackBits % U32, 4))
    else None
  }

  function ParseHeader(data: seq<byte>): Option<Header> {
    if |data| < HEADER_SIZE then None
    else if data[..4] != MAGIC || data[4] != PROTOCOL_VERSION then None
    else Some(Header(data[5], Decode(data[6..10]), Decode(data[10..14]), Decode(data[14..18])))
  }

  lemma HeaderRoundTrip(h: Header, rest: seq<byte>)
    ensures BuildHeader(h).Some? <==> 0 <= h.ptype < 256
    ensures BuildHeader(h).Some? ==>
              && |BuildHeader(h).value| == HEADER_SIZE
              && ParseHeader(BuildHeader(h).value + rest) == Some(h.Masked())
              && h.Masked().OnWire()
  {
    if 0 <= h.ptype < 256 {
      Widths();
      var e0, e1, e2 := Encode(h.sequence % U32, 4), Encode(h.ack % U32, 4), Encode(h.ackBits % U32, 4);
      DecodeEncode(h.sequence % U32, 4);
      DecodeEncode(h.ack % U32, 4);
      DecodeEncode(h.ackBits % U32, 4);
      var data := BuildHeader(h).value + rest;
      assert data[..4] == MAGIC;
      assert data[6..10] == e0;
      assert data[10..14] == e1;
      assert data[14..18] == e2;
    }
  }

  /** Where each field lies: the magic EVOI, version 1, the type, then the numbers, big-endian. */
  lemma HeaderLayout(h: Header, i: nat)
    requires 0 <= h.ptype < 256 && i < 4
    ensures BuildHeader(h).Some? && |BuildHeader(h).value| == 18
    ensures var bytes := BuildHeader(h).value;
            && bytes[..6] == [0x45, 0x56, 0x4F, 0x49, 1, h.ptype]
            && bytes[6 + i] == h.sequence % U32 / Pow256(3 - i) % 256
            && bytes[10 + i] == h.ack % U32 / Pow256(3 - i) % 256
            && bytes[14 + i] == h.ackBits % U32 / Pow256(3 - i) % 256
  {
    hide Encode;
    EncodeAt(h.sequence % U32, 4, i);
    EncodeAt(h.ack % U32, 4, i);
    EncodeAt(h.ackBits % U32, 4, i);
  }

  /** Data that parses starts with exactly the bytes that rebuilding its fields gives. */
  lemma HeaderCanonical(data: seq<byte>)
    requires ParseHeader(data).Some?
    ensures ParseHeader(data).value.OnWire()
    ensures BuildHeader(ParseHeader(data).value) == Some(data[..HEADER_SIZE])
  {
    hide Encode, Decode;
    Widths();
    EncodeDecode(data[6..10]);
    EncodeDecode(data[10..14]);
    EncodeDecode(data[14..18]);
    assert data[..18] == data[..4] + [data[4], data[5]] + data[6..10] + data[10..14] + data[14..18];
  }

  /** On wire-sized fields building is injective, so the 18-byte codec is a bijection. */
  lemma HeaderBijection(g: Header, h: Header)
    requires g.OnWire() && h.OnWire()
    ensures BuildHeader(g) == BuildHeader(h) <==> g == h
    ensures BuildHeader(g).Some? && ParseHeader(BuildHeader(g).value) == Some(g)
  {
    hide Encode, Decode, ParseHeader;
    HeaderRoundTrip(g, []);
    HeaderRoundTrip(h, []);
    assert BuildHeader(g).value + [] == BuildHeader(g).value;
    assert BuildHeader(h).value + [] == BuildHeader(h).value;
  }

  // ---------- length-prefixed packets ----------

  /** The serialiser pair _pack and _unpack; None is an exception raised by _unpack. */
  datatype Codec<!P> = Codec(pack: P -> seq<byte>, unpack: seq<byte> -> Option<P>)

  datatype Parsed<P> = NoPacket | UnpackRaised | Packet(header: Header, body: P)

  datatype IntentBody<M> = IntentBody(name: string, metadata: M, priority: int, timestamp: int)

  datatype StateBody<S> = StateBody(gameId: string, state: S, tick: int)

  /** None when packing the header or the 32-bit length raises. */
  function Frame(h: Header, payload: seq<byte>): Option<seq<byte>> {
    if BuildHeader(h).Some? && |payload| < U32 then
      Some(BuildHeader(h).value + Encode(|payload|, 4) + payload)
    else None
  }

  function Unframe(ptype: int, data: seq<byte>): Option<(Header, seq<byte>)> {
    var header := ParseHeader(data);
    if header.None? || header.value.ptype != ptype then None
    else if |data| < HEADER_SIZE + 4 then None
    else
      var n := Decode(data[HEADER_SIZE..HEADER_SIZE + 4]);
      if |data| < HEADER_SIZE + 4 + n then None
      else Some((header.value, data[HEADER_SIZE + 4..HEADER_SIZE + 4 + n]))
  }

  function ParseBody<P>(c: Codec<P>, frame: Option<(Header, seq<byte>)>): Parsed<P> {
    if frame.None? then NoPacket
    else match c.unpack(frame.value.1)
         case None => UnpackRaised
         case Some(body) => Packet(frame.value.0, body)
  }

  function BuildIntent<M>(c: Codec<IntentBody<M>>, body: IntentBody<M>, sequence: int, ack: int, bits: int)
    : Option<seq<byte>>
  {
    Frame(Header(PKT_INTENT, sequence, ack, bits), c.pack(body))
  }

  function ParseIntent<M>(c: Codec<IntentBody<M>>, data: seq<byte>): Parsed<IntentBody<M>> {
    ParseBody(c, Unframe(PKT_INTENT, data))
  }

  function BuildStateSync<S>(c: Codec<StateBody<S>>, body: StateBody<S>, sequence: int, ack: int, bits: int)
    : Option<seq<byte>>
  {
    Frame(Header(PKT_STATE_SYNC, sequence, ack, bits), c.pack(body))
  }

  function ParseStateSync<S>(c: Codec<StateBody<S>>, data: seq<byte>): Parsed<StateBody<S>> {
    ParseBody(c, Unframe(PKT_STATE_SYNC, data))
  }

  lemma FrameRoundTrip(h: Header, payload: seq<byte>, rest: seq<byte>)
    requires 0 <= h.ptype < 256 && |payload| < U32
    ensures Frame(h, payload).Some?
    ensures Unframe(h.ptype, Frame(h, payload).value + rest) == Some((h.Masked(), payload))
  {
    var head, len := BuildHeader(h).value, Encode(|payload|, 4);
    var data := Frame(h, payload).value + rest;
    HeaderRoundTrip(h, len + payload + rest);
    assert data == head + (len + payload + rest);
    Widths();
    DecodeEncode(|payload|, 4);
    assert data[18..22] == len;
    assert data[22..22 + |payload|] == payload;
  }

  /** The four bytes behind the header are the length, big-endian, and the rest is the payload. */
  lemma FrameLayout(h: Header, payload: seq<byte>, i: nat)
    requires 0 <= h.ptype < 256 && |payload| < U32 && i < 4
    ensures BuildHeader(h).Some? && Frame(h, payload).Some? && |Frame(h, payload).value| == 22 + |payload|
    ensures var bytes := Frame(h, payload).value;
            && bytes[..18] == BuildHeader(h).value
            && bytes[18 + i] == |payload| / Pow256(3 - i) % 256
            && bytes[22..] == payload
  {
    hide Encode;
    EncodeAt(|payload|, 4, i);
  }

  /** The wire types of the four packets that are built. */
  lemma PacketTypes<M, S>(
    ci: Codec<IntentBody<M>>, cs: Codec<StateBody<S>>, b: IntentBody<M>, d: StateBody<S>, s: int, a: int, bits: int)
    ensures BuildIntent(ci, b, s, a, bits) == Frame(Header(1, s, a, bits), ci.pack(b))
    ensures BuildStateSync(cs, d, s, a, bits) == Frame(Header(2, s, a, bits), cs.pack(d))
    ensures PKT_PING == 5 && PKT_PONG == 6
  {
  }

  lemma FrameTruncated(h: Header, payload: seq<byte>, k: nat)
    requires 0 <= h.ptype < 256 && |payload| < U32
    requires k < |Frame(h, payload).value|
    ensures Unframe(h.ptype, Frame(h, payload).value[..k]) == None
  {
    var data := Frame(h, payload).value;
    HeaderRoundTrip(h, Encode(|payload|, 4) + payload);
    if k >= 22 {
      Widths();
      DecodeEncode(|payload|, 4);
      assert data[..k][18..22] == Encode(|payload|, 4);
    }
  }

  /** A framed packet that is accepted starts with the bytes its parts are built into. */
  lemma FrameCanonical(ptype: int, data: seq<byte>)
    requires Unframe(ptype, data).Some?
    ensures var (h, payload) := Unframe(ptype, data).value;
            && h.ptype == ptype && h.OnWire()
            && Frame(h, payload).Some? && Frame(h, payload).value <= data
  {
    HeaderCanonical(data);
    Widths();
    EncodeDecode(data[18..22]);
    var n := Decode(data[18..22]);
    assert data[..18] + data[18..22] + data[22..22 + n] == data[..22 + n];
  }

  /** A built intent packet, whatever follows it, parses to its body and its masked header; cut short
      anywhere it parses to nothing; and the other parser never takes it. */
  lemma IntentRoundTrip<M, S>(
    c: Codec<IntentBody<M>>, cs: Codec<StateBody<S>>, b: IntentBody<M>, s: int, a: int, bits: int, rest: seq<byte>)
    requires c.unpack(c.pack(b)) == Some(b)
    ensures BuildIntent(c, b, s, a, bits).Some? <==> |c.pack(b)| < U32
    ensures BuildIntent(c, b, s, a, bits).Some? ==>
              var data := BuildIntent(c, b, s, a, bits).value;
              && ParseIntent(c, data + rest) == Packet(Header(PKT_INTENT, s % U32, a % U32, bits % U32), b)
              && (forall k | 0 <= k < |data| :: ParseIntent(c, data[..k]) == NoPacket)
              && ParseStateSync(cs, data + rest) == NoPacket
  {
    var h := Header(PKT_INTENT, s, a, bits);
    if |c.pack(b)| < U32 {
      FrameRoundTrip(h, c.pack(b), rest);
      forall k | 0 <= k < |Frame(h, c.pack(b)).value|
        ensures ParseIntent(c, BuildIntent(c, b, s, a, bits).value[..k]) == NoPacket
      {
        FrameTruncated(h, c.pack(b), k);
      }
    }
  }

  lemma OtherTypesRefused(h: Header, payload: seq<byte>, rest: seq<byte>)
    requires 0 <= h.ptype < 256 && |payload| < U32
    ensures forall ptype | ptype != h.ptype :: Unframe(ptype, Frame(h, payload).value + rest) == None
  {
    HeaderRoundTrip(h, Encode(|payload|, 4) + payload + rest);
    assert Frame(h, payload).value + rest == BuildHeader(h).value + (Encode(|payload|, 4) + payload + rest);
  }

  /** Whatever the serialiser does: a framed payload of type 1 (2) is given to it as an intent (a state
      sync), with its header; what it raises is raised; and other types are no such packets. */
  lemma PayloadIsUnpacked<M, S>(
    ci: Codec<IntentBody<M>>, cs: Codec<StateBody<S>>, h: Header, payload: seq<byte>, rest: seq<byte>)
    requires 0 <= h.ptype < 256 && |payload| < U32
    ensures Frame(h, payload).Some?
    ensures ParseIntent(ci, Frame(h, payload).value + rest)
         == if h.ptype != 1 then NoPacket
            else if ci.unpack(payload).None? then UnpackRaised
            else Packet(Header(1, h.sequence % U32, h.ack % U32, h.ackBits % U32), ci.unpack(payload).value)
    ensures ParseStateSync(cs, Frame(h, payload).value + rest)
         == if h.ptype != 2 then NoPacket
            else if cs.unpack(payload).None? then UnpackRaised
            else Packet(Header(2, h.sequence % U32, h.ack % U32, h.ackBits % U32), cs.unpack(payload).value)
  {
    hide Frame, BuildHeader, ParseHeader;
    FrameRoundTrip(h, payload, rest);
    OtherTypesRefused(h, payload, rest);
  }

  lemma StateSyncRoundTrip<M, S>(
    c: Codec<StateBody<S>>, ci: Codec<IntentBody<M>>, b: StateBody<S>, s: int, a: int, bits: int, rest: seq<byte>)
    requires c.unpack(c.pack(b)) == Some(b)
    ensures BuildStateSync(c, b, s, a, bits).Some? <==> |c.pack(b)| < U32
    ensures BuildStateSync(c, b, s, a, bits).Some? ==>
              var data := BuildStateSync(c, b, s, a, bits).value;
              && ParseStateSync(c, data + rest) == Packet(Header(PKT_STATE_SYNC, s % U32, a % U32, bits % U32), b)
              && (forall k | 0 <= k < |data| :: ParseStateSync(c, data[..k]) == NoPacket)
              && ParseIntent(ci, data + rest) == NoPacket
  {
    var h := Header(PKT_STATE_SYNC, s, a, bits);
    if |c.pack(b)| < U32 {
      FrameRoundTrip(h, c.pack(b), rest);
      forall k | 0 <= k < |Frame(h, c.pack(b)).value|
        ensures ParseStateSync(c, BuildStateSync(c, b, s, a, bits).value[..k]) == NoPacket
      {
        FrameTruncated(h, c.pack(b), k);
      }
    }
  }

  // ---------- ping and pong ----------

  /** None when the 64-bit timestamp does not fit. */
  function BuildTimed(h: Header, time: int): Option<seq<byte>> {
    if BuildHeader(h).Some? && 0 <= time < U64 then Some(BuildHeader(h).value + Encode(time, 8)) else None
  }

  /** The timestamp the receiver reads after the header, when eight bytes are there. */
  function TimeOf(data: seq<byte>): Option<nat> {
    if |data| < HEADER_SIZE + 8 then None else Some(Decode(data[HEADER_SIZE..HEADER_SIZE + 8]))
  }

  lemma TimedRoundTrip(h: Header, time: nat, rest: seq<byte>)
    requires 0 <= h.ptype < 256 && time < U64
    ensures BuildTimed(h, time).Some?
    ensures ParseHeader(BuildTimed(h, time).value + rest) == Some(h.Masked())
    ensures TimeOf(BuildTimed(h, time).value + rest) == Some(time)
  {
    var head := BuildHeader(h).value;
    var data := BuildTimed(h, time).value + rest;
    HeaderRoundTrip(h, Encode(time, 8) + rest);
    assert data == head + (Encode(time, 8) + rest);
    Widths();
    DecodeEncode(time, 8);
    assert data[18..26] == Encode(time, 8);
  }

  /** The eight bytes behind the header are the time, big-endian. */
  lemma TimedLayout(h: Header, time: nat, i: nat)
    requires 0 <= h.ptype < 256 && time < U64 && i < 8
    ensures BuildHeader(h).Some? && BuildTimed(h, time).Some? && |BuildTimed(h, time).value| == 26
    ensures var bytes := BuildTimed(h, time).value;
            bytes[..18] == BuildHeader(h).value && bytes[18 + i] == time / Pow256(7 - i) % 256
  {
    hide Encode;
    EncodeAt(time, 8, i);
  }

  lemma TimeInRange(data: seq<byte>)
    ensures TimeOf(data).Some? ==> TimeOf(data).value < U64
  {
    if |data| >= HEADER_SIZE + 8 {
      Widths();
      EncodeDecode(data[HEADER_SIZE..HEADER_SIZE + 8]);
    }
  }
}
