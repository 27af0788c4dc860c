/** packet.h, packet.cpp and the packet half of packet_serializer.cpp. */
module PacketCodec {
  import opened Bytes
  import opened Padding

  const PKT_VERSION: byte := 1
  const PKT_TTL: byte := 7
  const TYPE_ANNOUNCE: byte := 0x01
  const TYPE_LEAVE: byte := 0x03
  const TYPE_MESSAGE: byte := 0x04
  const TYPE_CHANNEL_ANNOUNCE: byte := 0x08
  const TYPE_NOISE_INIT: byte := 0x10
  const TYPE_NOISE_RESP: byte := 0x11
  const TYPE_NOISE_ENCRYPTED: byte := 0x12
  const TYPE_NOISE_IDENTITY: byte := 0x13
  const TYPE_VERSION_HELLO: byte := 0x20
  const TYPE_VERSION_ACK: byte := 0x21

  /** The flag byte by its bits: 0x01, 0x02, 0x04 and the five that have no meaning. */
  datatype Flags = Flags(recipient: bool, signature: bool, compressed: bool, other: Unused)
  type Unused = x: int | 0 <= x < 32

  const NO_FLAGS := Flags(false, false, false, 0)

  function Bit(b: bool, weight: nat): (r: nat) {
    if b then weight else 0
  }

  function FlagByte(f: Flags): (r: byte) {
    Bit(f.recipient, 1) + Bit(f.signature, 2) + Bit(f.compressed, 4) + 8 * f.other
  }

  function FlagsOf(b: byte): (f: Flags)
    ensures FlagByte(f) == b
  {
    Flags(b % 2 == 1, b / 2 % 2 == 1, b / 4 % 2 == 1, b / 8)
  }

  /** The flag byte and the flags determine each other. */
  lemma FlagsRoundTrip(f: Flags)
    ensures FlagsOf(FlagByte(f)) == f
  {
    assert FlagByte(f) / 8 == f.other;
    assert FlagByte(f) / 4 == Bit(f.compressed, 1) + 2 * f.other;
    assert FlagByte(f) / 2 == Bit(f.signature, 1) + 2 * Bit(f.compressed, 1) + 4 * f.other;
  }

  datatype Packet = Packet(
    version: byte, typ: byte, ttl: byte, timestamp: uint64, flags: Flags, payloadLength: uint16,
    senderID: bytes, recipientID: bytes, payload: bytes, signature: bytes)
  {
    predicate IsValid() {
      version == PKT_VERSION && payloadLength == |payload| && timestamp != 0
    }

    /** setPayload: both fields change together, the length modulo 2^16. */
    function WithPayload(p: bytes): Packet {
      this.(payload := p, payloadLength := |p| % 0x1_0000)
    }
  }

  /** A default-constructed packet, which the decoder also returns for data that is too short. */
  const DEFAULT_PACKET := Packet(PKT_VERSION, 0, PKT_TTL, 0, NO_FLAGS, 0, [], [], [], [])

  function NewPacket(typ: byte, payload: bytes, timestamp: uint64): (p: Packet)
    ensures |payload| < 0x1_0000 && timestamp != 0 ==> p.IsValid()
  {
    DEFAULT_PACKET.(typ := typ, timestamp := timestamp).WithPayload(payload)
  }

  // ---------------------------------------------------------------- compression

  /** The LZ4 calls, as deterministic functions; `compress` gives its argument back when LZ4 fails. */
  datatype Lz4 = Lz4(compress: bytes -> bytes, decompress: (bytes, nat) -> bytes)

  /** Decompression undoes every compression that made the data smaller. */
  ghost predicate Inverts(z: Lz4) {
    forall d: bytes :: |z.compress(d)| < |d| ==> z.decompress(z.compress(d), |d|) == d
  }

  predicate ShouldCompress(data: bytes) {
    |data| > 100
  }

  function CompressData(z: Lz4, data: bytes): bytes {
    if ShouldCompress(data) then z.compress(data) else data
  }

  predicate Shrinks(z: Lz4, payload: bytes) {
    ShouldCompress(payload) && |z.compress(payload)| < |payload|
  }

  // ---------------------------------------------------------------- the wire image

  /** The payload as written: with its original size in front when it was compressed. */
  function WireBody(z: Lz4, payload: bytes): bytes {
    if Shrinks(z, payload) then BigEndian(|payload| % 0x1_0000, 2) + z.compress(payload) else payload
  }

  function WireFlags(z: Lz4, p: Packet): Flags {
    if Shrinks(z, p.payload) then p.flags.(compressed := true) else p.flags
  }

  function Header(z: Lz4, p: Packet): (r: bytes)
    ensures |r| == 14
  {
    [p.version, p.typ, p.ttl] + BigEndian(p.timestamp, 8) + [FlagByte(WireFlags(z, p))]
    + BigEndian(|WireBody(z, p.payload)| % 0x1_0000, 2)
  }

  function RecipientPart(p: Packet): (r: bytes)
    ensures |r| == if p.flags.recipient then 8 else 0
  {
    if p.flags.recipient then Resize(p.recipientID, 8) else []
  }

  function SignaturePart(p: Packet): (r: bytes)
    ensures |r| == if p.flags.signature then 64 else 0
  {
    if p.flags.signature then Resize(p.signature, 64) else []
  }

  /** The packet on the wire before padding. */
  function Encoding(z: Lz4, p: Packet): (r: bytes)
    ensures |r| == 22 + |RecipientPart(p)| + |WireBody(z, p.payload)| + |SignaturePart(p)|
  {
    Header(z, p) + Resize(p.senderID, 8) + RecipientPart(p) + WireBody(z, p.payload) + SignaturePart(p)
  }

  function Encoded(z: Lz4, p: Packet, filler: Filler): bytes {
    PaddedToBlock(Encoding(z, p), filler)
  }

  // ---------------------------------------------------------------- decoding

  function DecodedHeader(u: bytes): Packet
    requires |u| >= 14
  {
    DEFAULT_PACKET.(version := u[0], typ := u[1], ttl := u[2], timestamp := ReadU64(u[3..11]),
                    flags := FlagsOf(u[11]), payloadLength := ReadU16(u[12..14]))
  }

  /** The size the decoder compares with: it counts 21 bytes where the header and sender take 22. */
  function ExpectedSize(h: Packet): nat {
    21 + (if h.flags.recipient then 8 else 0) + (if h.flags.signature then 64 else 0) + h.payloadLength
  }

  function TakeSignature(h: Packet, rest: bytes): Packet {
    if h.flags.signature && |rest| >= 64 then h.(signature := rest[..64]) else h
  }

  function TakePayload(z: Lz4, h: Packet, rest: bytes): Read<Packet> {
    var n := h.payloadLength;
    if h.flags.compressed then
      if n < 2 then Got(h)
      else if |rest| < n then OutOfBounds
      else
        var original := ReadU16(rest[..2]);
        Got(TakeSignature(h.WithPayload(z.decompress(rest[2..n], original)), rest[n..]))
    else if n <= |rest| then Got(TakeSignature(h.WithPayload(rest[..n]), rest[n..]))
    else Got(TakeSignature(h, rest))
  }

  function TakeRecipient(z: Lz4, h: Packet, rest: bytes): Read<Packet> {
    if !h.flags.recipient then TakePayload(z, h, rest)
    else if |rest| < 8 then OutOfBounds
    else TakePayload(z, h.(recipientID := rest[..8]), rest[8..])
  }

  function TakeAddresses(z: Lz4, h: Packet, rest: bytes): Read<Packet> {
    if |rest| < 8 then OutOfBounds else TakeRecipient(z, h.(senderID := rest[..8]), rest[8..])
  }

  function DecodeUnpadded(z: Lz4, u: bytes): Read<Packet> {
    if |u| < 21 then Got(DEFAULT_PACKET)
    else
      var h := DecodedHeader(u);
      if |u| < ExpectedSize(h) then Got(h) else TakeAddresses(z, h, u[14..])
  }

  function Decoded(z: Lz4, data: bytes): Read<Packet> {
    DecodeUnpadded(z, Unpadded(data))
  }

  /** One transmission: what the receiver makes of the sender's packet. */
  function Transmitted(z: Lz4, p: Packet, filler: Filler): Read<Packet> {
    Decoded(z, Encoded(z, p, filler))
  }

  // ---------------------------------------------------------------- round trip

  /** What a packet looks like after one faithful transmission. */
  function Canonical(z: Lz4, p: Packet): (q: Packet)
    ensures q.ttl == p.ttl && q.payload == p.payload && q.typ == p.typ && q.timestamp == p.timestamp
  {
    p.(flags := WireFlags(z, p),
       payloadLength := |p.payload| % 0x1_0000,
       senderID := Resize(p.senderID, 8),
       recipientID := if p.flags.recipient then Resize(p.recipientID, 8) else [],
       signature := if p.flags.signature then Resize(p.signature, 64) else [])
  }

  /** The payload field fits its 16-bit length, and the compressed flag is only set when it is true. */
  predicate Representable(z: Lz4, p: Packet) {
    && |p.payload| < 0x1_0000
    && |WireBody(z, p.payload)| < 0x1_0000
    && (p.flags.compressed ==> Shrinks(z, p.payload))
  }

  /** A packet whose wire image is read back exactly: something its sender can check. */
  predicate Sturdy(z: Lz4, p: Packet) {
    Representable(z, p) && Survives(Encoding(z, p))
  }

  /** What the decoder has after reading the header of a wire image. */
  function SentHeader(z: Lz4, p: Packet): (h: Packet)
    ensures SameHeader(p, h) && h.flags == WireFlags(z, p) && h.payloadLength == |WireBody(z, p.payload)| % 0x1_0000
    ensures h.senderID == [] && h.recipientID == [] && h.payload == [] && h.signature == []
  {
    DEFAULT_PACKET.(version := p.version, typ := p.typ, ttl := p.ttl, timestamp := p.timestamp,
                    flags := WireFlags(z, p), payloadLength := |WireBody(z, p.payload)| % 0x1_0000)
  }

  lemma HeaderDecodes(z: Lz4, p: Packet, u: bytes)
    requires |u| >= 14 && u[..14] == Header(z, p)
    ensures DecodedHeader(u) == SentHeader(z, p)
  {
    var flags, size := FlagByte(WireFlags(z, p)), |WireBody(z, p.payload)| % 0x1_0000;
    HeaderLayout(u, p.version, p.typ, p.ttl, BigEndian(p.timestamp, 8), flags, BigEndian(size, 2));
    FlagsRoundTrip(WireFlags(z, p));
    Uint64RoundTrip(p.timestamp);
    Uint16RoundTrip(size);
  }

  lemma HeaderLayout(u: bytes, version: byte, typ: byte, ttl: byte, timestamp: bytes, flags: byte, size: bytes)
    requires |timestamp| == 8 && |size| == 2 && |u| >= 14
    requires u[..14] == [version, typ, ttl] + timestamp + [flags] + size
    ensures u[0] == version && u[1] == typ && u[2] == ttl
    ensures u[3..11] == timestamp && u[11] == flags && u[12..14] == size
  {
    var h := u[..14];
    assert h[..11] == [version, typ, ttl] + timestamp;
    assert h[..3] == [version, typ, ttl] && h[3..11] == timestamp && h[11] == flags && h[12..] == size;
  }

  /** Every prefix of a wire image that holds the header starts with the packet's own header. */
  lemma HeaderOfEncoding(z: Lz4, p: Packet, u: bytes)
    requires u <= Encoding(z, p) && |u| >= 21
    ensures DecodedHeader(u) == SentHeader(z, p)
  {
    AfterHeader(z, p);
    PrefixOfPrefix(u, Encoding(z, p), 14);
    HeaderDecodes(z, p, u);
  }

  lemma PrefixOfPrefix(u: bytes, e: bytes, k: nat)
    requires u <= e && k <= |u|
    ensures u[..k] == e[..k] && u[k..] <= e[k..]
  {
  }

  lemma Regroup(a: bytes, b: bytes, c: bytes, d: bytes, e: bytes)
    ensures a + b + c + d + e == a + (b + (c + (d + e)))
  {
  }

  lemma AfterHeader(z: Lz4, p: Packet)
    ensures Encoding(z, p)[..14] == Header(z, p)
    ensures Encoding(z, p)[14..]
            == Resize(p.senderID, 8) + (RecipientPart(p) + (WireBody(z, p.payload) + SignaturePart(p)))
  {
    Regroup(Header(z, p), Resize(p.senderID, 8), RecipientPart(p), WireBody(z, p.payload), SignaturePart(p));
  }

  lemma SenderDecodes(z: Lz4, h: Packet, sender: bytes, rest: bytes)
    requires |sender| == 8
    ensures TakeAddresses(z, h, sender + rest) == TakeRecipient(z, h.(senderID := sender), rest)
  {
    assert (sender + rest)[..8] == sender && (sender + rest)[8..] == rest;
  }

  lemma RecipientDecodes(z: Lz4, h: Packet, p: Packet, rest: bytes)
    requires h.flags.recipient == p.flags.recipient && h.recipientID == []
    ensures TakeRecipient(z, h, RecipientPart(p) + rest) == TakePayload(z, h.(recipientID := RecipientPart(p)), rest)
  {
    var s := RecipientPart(p) + rest;
    if p.flags.recipient {
      assert s[..8] == RecipientPart(p) && s[8..] == rest;
    } else {
      assert s == rest;
    }
  }

  lemma PayloadDecodes(z: Lz4, p: Packet, h: Packet, rest: bytes)
    requires Inverts(z) && Representable(z, p)
    requires h.flags == WireFlags(z, p) && h.payloadLength == |WireBody(z, p.payload)|
    ensures TakePayload(z, h, WireBody(z, p.payload) + rest) == Got(TakeSignature(h.WithPayload(p.payload), rest))
  {
    var body := WireBody(z, p.payload);
    var s := body + rest;
    assert s[..|body|] == body && s[|body|..] == rest;
    if Shrinks(z, p.payload) {
      Uint16RoundTrip(|p.payload|);
      assert s[..2] == BigEndian(|p.payload|, 2);
      assert s[2..|body|] == z.compress(p.payload);
    }
  }

  lemma SignatureDecodes(p: Packet, h: Packet)
    requires h.flags.signature == p.flags.signature && h.signature == []
    ensures TakeSignature(h, SignaturePart(p)) == h.(signature := SignaturePart(p))
  {
    assert SignaturePart(p)[..|SignaturePart(p)|] == SignaturePart(p);
  }

  lemma BodyDecodes(z: Lz4, p: Packet)
    requires Inverts(z) && Representable(z, p)
    ensures TakeAddresses(z, SentHeader(z, p),
                          Resize(p.senderID, 8) + (RecipientPart(p) + (WireBody(z, p.payload) + SignaturePart(p))))
            == Got(Canonical(z, p))
  {
    var h := SentHeader(z, p);
    var h1 := h.(senderID := Resize(p.senderID, 8));
    var h2 := h1.(recipientID := RecipientPart(p));
    var h3 := h2.WithPayload(p.payload);
    var r2 := WireBody(z, p.payload) + SignaturePart(p);
    SenderDecodes(z, h, Resize(p.senderID, 8), RecipientPart(p) + r2);
    RecipientDecodes(z, h1, p, r2);
    PayloadDecodes(z, p, h2, SignaturePart(p));
    SignatureDecodes(p, h3);
    assert h3.(signature := SignaturePart(p)) == Canonical(z, p);
  }

  lemma PastSizeCheck(z: Lz4, p: Packet)
    requires |WireBody(z, p.payload)| < 0x1_0000
    ensures DecodeUnpadded(z, Encoding(z, p)) == TakeAddresses(z, SentHeader(z, p), Encoding(z, p)[14..])
  {
    HeaderOfEncoding(z, p, Encoding(z, p));
    SizeSuffices(z, p);
    SizeCheckPasses(z, Encoding(z, p), SentHeader(z, p));
  }

  lemma SizeSuffices(z: Lz4, p: Packet)
    requires |WireBody(z, p.payload)| < 0x1_0000
    ensures |Encoding(z, p)| > ExpectedSize(SentHeader(z, p))
  {
    HeaderCountsAll(SentHeader(z, p), p, |WireBody(z, p.payload)|);
  }

  lemma HeaderCountsAll(h: Packet, p: Packet, size: nat)
    requires h.payloadLength == size
    requires h.flags.recipient == p.flags.recipient && h.flags.signature == p.flags.signature
    ensures ExpectedSize(h) + 1 == 22 + |RecipientPart(p)| + size + |SignaturePart(p)|
  {
  }

  lemma SizeCheckPasses(z: Lz4, u: bytes, h: Packet)
    requires |u| >= 21 && DecodedHeader(u) == h && |u| >= ExpectedSize(h)
    ensures DecodeUnpadded(z, u) == TakeAddresses(z, h, u[14..])
  {
  }

  /** An intact wire image decodes to the canonical packet. */
  lemma EncodingDecodes(z: Lz4, p: Packet)
    requires Inverts(z) && Representable(z, p)
    ensures DecodeUnpadded(z, Encoding(z, p)) == Got(Canonical(z, p))
  {
    PastSizeCheck(z, p);
    AfterHeader(z, p);
    BodyDecodes(z, p);
  }

  /** Past the size check the header is kept, and the sender is what follows it. */
  lemma TakenParts(z: Lz4, h: Packet, rest: bytes)
    ensures TakeAddresses(z, h, rest).Got? ==>
              && |rest| >= 8
              && var q := TakeAddresses(z, h, rest).value;
              && SameHeader(h, q) && q.senderID == rest[..8]
  {
  }

  /** With one byte too few after the header, the payload or the signature is not taken. */
  lemma ShortRest(z: Lz4, h: Packet, rest: bytes)
    requires h.payload == [] && h.signature == []
    requires h.flags.compressed ==> h.payloadLength >= 2
    requires |rest| < 8 + Bit(h.flags.recipient, 8) + h.payloadLength + Bit(h.flags.signature, 64)
    requires |rest| >= 7 + Bit(h.flags.recipient, 8) + h.payloadLength + Bit(h.flags.signature, 64)
    ensures TakeAddresses(z, h, rest).Got? ==>
              && (h.flags.signature ==> TakeAddresses(z, h, rest).value.signature == [])
              && (!h.flags.signature ==> TakeAddresses(z, h, rest).value.payload == [])
  {
  }

  lemma CutImageIsLost(z: Lz4, p: Packet, u: bytes, full: nat)
    requires Representable(z, p) && |u| < full
    requires full == 22 + |RecipientPart(p)| + |WireBody(z, p.payload)| + |SignaturePart(p)| > 240
    requires |u| >= 21 ==> DecodedHeader(u) == SentHeader(z, p)
    ensures DecodeUnpadded(z, u) != Got(Canonical(z, p))
  {
    var h := SentHeader(z, p);
    if |u| >= 21 && |u| >= ExpectedSize(h) {
      ShortRest(z, h, u[14..]);
    }
  }

  /** When unpadding eats into the image, the packet is not recovered. */
  lemma CutEncodingIsLost(z: Lz4, p: Packet, u: bytes)
    requires Representable(z, p)
    requires u < Encoding(z, p) && |Encoding(z, p)| > 240
    ensures DecodeUnpadded(z, u) != Got(Canonical(z, p))
  {
    if |u| >= 21 {
      HeaderOfEncoding(z, p, u);
    }
    CutImageIsLost(z, p, u, |Encoding(z, p)|);
  }

  /** A representable packet is received exactly if and only if its wire image survives padding. */
  lemma TransmissionExact(z: Lz4, p: Packet, filler: Filler)
    requires Inverts(z) && Representable(z, p)
    ensures Transmitted(z, p, filler) == Got(Canonical(z, p)) <==> Survives(Encoding(z, p))
  {
    var e := Encoding(z, p);
    PaddingRoundTrip(e, filler);
    if Survives(e) {
      EncodingDecodes(z, p);
    } else {
      CutEncodingIsLost(z, p, Unpadded(Encoded(z, p, filler)));
    }
  }

  /** Lowering the TTL and having been transmitted once do not change how sturdy a packet is. */
  lemma CanonicalStaysSturdy(z: Lz4, p: Packet, ttl: byte)
    requires Sturdy(z, p)
    ensures Sturdy(z, Canonical(z, p).(ttl := ttl))
    ensures Canonical(z, Canonical(z, p).(ttl := ttl)) == Canonical(z, p).(ttl := ttl)
  {
    var q := Canonical(z, p).(ttl := ttl);
    var e, e' := Encoding(z, p), Encoding(z, q);
    AfterHeader(z, p);
    AfterHeader(z, q);
    assert RecipientPart(q) == RecipientPart(p) && SignaturePart(q) == SignaturePart(p);
    assert e[14..] == e'[14..];
    assert e[|e| - 1] == e[14..][|e| - 15] == e'[|e| - 1];
  }

  /** One relay step: transmit, then lower the TTL. */
  function Hop(z: Lz4, p: Packet, filler: Filler): (r: Read<Packet>) {
    match Transmitted(z, p, filler)
    case OutOfBounds => OutOfBounds
    case Got(q) => Got(if q.ttl > 0 then q.(ttl := q.ttl - 1) else q)
  }

  /** Repeating a partial step once per element of `inputs`. */
  ghost function Iterate<S, E>(step: (S, E) -> Read<S>, s: S, inputs: seq<E>): (r: Read<S>) {
    if inputs == [] then Got(s)
    else match step(s, inputs[0])
         case OutOfBounds => OutOfBounds
         case Got(t) => Iterate(step, t, inputs[1..])
  }

  lemma {:induction false} IterateFollows<S, E>(step: (S, E) -> Read<S>, states: seq<S>, inputs: seq<E>)
    requires |states| == |inputs| + 1
    requires forall i :: 0 <= i < |inputs| ==> step(states[i], inputs[i]) == Got(states[i + 1])
    ensures Iterate(step, states[0], inputs) == Got(states[|inputs|])
  {
    if inputs != [] {
      assert step(states[0], inputs[0]) == Got(states[1]);
      IterateFollows(step, states[1..], inputs[1..]);
    }
  }

  ghost function HopStep(z: Lz4): (Packet, Filler) -> Read<Packet> {
    (q: Packet, filler: Filler) => Hop(z, q, filler)
  }

  /** Relaying once per element of `fillers` (each hop draws its own filler). */
  ghost function AfterHops(z: Lz4, p: Packet, fillers: seq<Filler>): (r: Read<Packet>) {
    Iterate(HopStep(z), p, fillers)
  }

  /** Where a sturdy packet is after `i` hops. */
  ghost function HopState(z: Lz4, p: Packet, i: nat): (q: Packet)
    requires i <= p.ttl
  {
    if i == 0 then p else Canonical(z, p).(ttl := p.ttl - i)
  }

  lemma HopStateIsSturdy(z: Lz4, p: Packet, i: nat)
    requires Sturdy(z, p) && i <= p.ttl
    ensures Sturdy(z, HopState(z, p, i))
    ensures HopState(z, p, i).ttl == p.ttl - i
    ensures i < p.ttl ==> Canonical(z, HopState(z, p, i)).(ttl := HopState(z, p, i).ttl - 1) == HopState(z, p, i + 1)
  {
    if i > 0 {
      var q := Canonical(z, p).(ttl := p.ttl - i);
      CanonicalStaysSturdy(z, p, p.ttl - i);
      assert HopState(z, p, i) == q == Canonical(z, q);
    }
  }

  lemma SturdyHop(z: Lz4, p: Packet, filler: Filler, q: Packet)
    requires Inverts(z) && Sturdy(z, p) && p.ttl > 0 && q == Canonical(z, p).(ttl := p.ttl - 1)
    ensures Hop(z, p, filler) == Got(q)
  {
    TransmissionExact(z, p, filler);
  }

  lemma HopAdvances(z: Lz4, p: Packet, i: nat, filler: Filler)
    requires Inverts(z) && Sturdy(z, p) && i < p.ttl
    ensures Hop(z, HopState(z, p, i), filler) == Got(HopState(z, p, i + 1))
  {
    HopStateIsSturdy(z, p, i);
    SturdyHop(z, HopState(z, p, i), filler, HopState(z, p, i + 1));
  }

  lemma HopStepAdvances(z: Lz4, p: Packet, i: nat, filler: Filler)
    requires Inverts(z) && Sturdy(z, p) && i < p.ttl
    ensures HopStep(z)(HopState(z, p, i), filler) == Got(HopState(z, p, i + 1))
  {
    HopAdvances(z, p, i, filler);
  }

  ghost function HopStates(z: Lz4, p: Packet, n: nat): (states: seq<Packet>)
    requires n <= p.ttl
    ensures |states| == n + 1 && forall i :: 0 <= i <= n ==> states[i] == HopState(z, p, i)
  {
    seq(n + 1, i requires 0 <= i <= n => HopState(z, p, i))
  }

  /** Over any number of hops a sturdy packet changes only in its TTL, once canonical. */
  lemma MultiHopStability(z: Lz4, p: Packet, fillers: seq<Filler>)
    requires Inverts(z) && Sturdy(z, p)
    requires |fillers| <= p.ttl
    ensures AfterHops(z, p, fillers) == Got(HopState(z, p, |fillers|))
  {
    var states := HopStates(z, p, |fillers|);
    forall i | 0 <= i < |fillers| ensures HopStep(z)(states[i], fillers[i]) == Got(states[i + 1]) {
      HopStepAdvances(z, p, i, fillers[i]);
    }
    IterateFollows(HopStep(z), states, fillers);
  }

  /** The packets the protocol builds: full-size fields, present exactly when their flag says so. */
  predicate WellFormed(p: Packet) {
    && |p.senderID| == 8
    && |p.recipientID| == (if p.flags.recipient then 8 else 0)
    && |p.signature| == (if p.flags.signature then 64 else 0)
    && p.payloadLength == |p.payload|
    && !p.flags.compressed
  }

  lemma CanonicalOfWellFormed(z: Lz4, p: Packet)
    requires WellFormed(p) && |p.payload| <= 65534
    ensures Representable(z, p)
    ensures Canonical(z, p) == p.(flags := p.flags.(compressed := Shrinks(z, p.payload)))
  {
  }

  /** For well-formed packets nothing but TTL and compressed flag ever differs from the original. */
  lemma RelayedPacketIsOriginal(z: Lz4, p: Packet, fillers: seq<Filler>)
    requires Inverts(z) && WellFormed(p) && |p.payload| <= 65534 && Survives(Encoding(z, p))
    requires |fillers| <= p.ttl
    ensures var compressed := |fillers| >= 1 && Shrinks(z, p.payload);
            AfterHops(z, p, fillers)
            == Got(p.(ttl := p.ttl - |fillers|, flags := p.flags.(compressed := compressed)))
  {
    CanonicalOfWellFormed(z, p);
    MultiHopStability(z, p, fillers);
  }

  // ---------------------------------------------------------------- every packet, sturdy or not

  /** A packet without content: what data that is too short decodes to. */
  predicate Blank(p: Packet) {
    p.typ == 0 && p.timestamp == 0 && p.flags == NO_FLAGS && p.payload == []
  }

  predicate SameHeader(p: Packet, q: Packet) {
    q.version == p.version && q.typ == p.typ && q.ttl == p.ttl && q.timestamp == p.timestamp
  }

  lemma DecodedShape(z: Lz4, p: Packet, u: bytes)
    requires u <= Encoding(z, p)
    ensures |u| < 21 ==> DecodeUnpadded(z, u) == Got(DEFAULT_PACKET)
    ensures |u| >= 21 && DecodeUnpadded(z, u).Got? ==>
              && SameHeader(p, DecodeUnpadded(z, u).value)
              && (|| DecodeUnpadded(z, u).value.senderID == Resize(p.senderID, 8)
                  || DecodeUnpadded(z, u).value.senderID == [])
  {
    if |u| >= 21 {
      HeaderOfEncoding(z, p, u);
      PrefixOfPrefix(u, Encoding(z, p), 14);
      TakenParts(z, SentHeader(z, p), u[14..]);
      if |u| >= 22 {
        AfterHeader(z, p);
        SenderOfRest(u[14..], Encoding(z, p)[14..], Resize(p.senderID, 8),
                     RecipientPart(p) + (WireBody(z, p.payload) + SignaturePart(p)));
      }
    }
  }

  lemma SenderOfRest(rest: bytes, full: bytes, sender: bytes, tail: bytes)
    requires rest <= full == sender + tail && |rest| >= 8 == |sender|
    ensures rest[..8] == sender
  {
  }

  /**
    Whatever the padding does, a received packet carries the header that was sent, or is the default packet;
    its sender is the one sent, or missing.
   */
  lemma TransmissionShape(z: Lz4, p: Packet, filler: Filler)
    ensures Transmitted(z, p, filler).Got? ==>
              var q := Transmitted(z, p, filler).value;
              && (q == DEFAULT_PACKET || SameHeader(p, q))
              && (q.senderID == Resize(p.senderID, 8) || q.senderID == [])
  {
    var u := Received(z, p, filler);
    DecodedShape(z, p, u);
  }

  /** The bytes the decoder works on: a prefix of the image, all of it exactly when the image survives. */
  lemma Received(z: Lz4, p: Packet, filler: Filler) returns (u: bytes)
    ensures u == Unpadded(Encoded(z, p, filler))
    ensures Transmitted(z, p, filler) == DecodeUnpadded(z, u)
    ensures u <= Encoding(z, p)
    ensures |u| < 21 <==> Collapses(Encoding(z, p))
  {
    u := Unpadded(Encoded(z, p, filler));
    ReceivedPrefix(Encoding(z, p), filler);
  }

  lemma ReceivedPrefix(e: bytes, filler: Filler)
    ensures Unpadded(PaddedToBlock(e, filler)) <= e
    ensures |e| >= 21 ==> (|Unpadded(PaddedToBlock(e, filler))| < 21 <==> Collapses(e))
  {
    PaddingRoundTrip(e, filler);
  }

  /** Blank packets are always received as sent, so they stay blank and their TTL is kept. */
  lemma BlankTransmission(z: Lz4, p: Packet, filler: Filler)
    requires Blank(p)
    ensures Transmitted(z, p, filler).Got?
    ensures Blank(Transmitted(z, p, filler).value) && Transmitted(z, p, filler).value.ttl == p.ttl
  {
    var e := Encoding(z, p);
    assert |e| == 22;
    PaddingRoundTrip(e, filler);
    BlankDecodes(z, p);
  }

  lemma BlankTaken(z: Lz4, h: Packet, rest: bytes)
    requires Blank(h) && h.payloadLength == 0 && |rest| >= 8
    ensures TakeAddresses(z, h, rest).Got?
    ensures Blank(TakeAddresses(z, h, rest).value) && TakeAddresses(z, h, rest).value.ttl == h.ttl
  {
  }

  lemma BlankDecodes(z: Lz4, p: Packet)
    requires Blank(p)
    ensures DecodeUnpadded(z, Encoding(z, p)).Got?
    ensures Blank(DecodeUnpadded(z, Encoding(z, p)).value) && DecodeUnpadded(z, Encoding(z, p)).value.ttl == p.ttl
  {
    PastSizeCheck(z, p);
    BlankTaken(z, SentHeader(z, p), Encoding(z, p)[14..]);
  }

  /** The wire images whose unpadding leaves less than a header. */
  predicate Collapses(e: bytes) {
    !Survives(e) && |e| - e[|e| - 1] < 21
  }

  /** The TTL is lost exactly when unpadding leaves less than a header: it restarts at 7. */
  lemma TtlIsKeptUnlessCollapsed(z: Lz4, p: Packet, filler: Filler)
    ensures Collapses(Encoding(z, p)) <==> |Unpadded(Encoded(z, p, filler))| < 21
    ensures Collapses(Encoding(z, p)) ==> Transmitted(z, p, filler) == Got(DEFAULT_PACKET)
    ensures !Collapses(Encoding(z, p)) && Transmitted(z, p, filler).Got? ==>
              Transmitted(z, p, filler).value.ttl == p.ttl
  {
    var u := Received(z, p, filler);
    DecodedShape(z, p, u);
  }

  lemma PlainEncodingEnds(z: Lz4, p: Packet)
    requires p.flags == NO_FLAGS && !Shrinks(z, p.payload) && p.payload != []
    ensures |Encoding(z, p)| == 22 + |p.payload|
    ensures Encoding(z, p)[|Encoding(z, p)| - 1] == p.payload[|p.payload| - 1]
  {
  }

  lemma CollapseExample(e: bytes)
    requires |e| == 241 && e[240] == 230
    ensures Collapses(e)
  {
  }

  /** It does happen: an unflagged packet of 219 incompressible bytes, the last of them 230, arrives with TTL 7. */
  lemma TtlCanRise(z: Lz4, p: Packet, filler: Filler)
    requires p.flags == NO_FLAGS && |p.payload| == 219 && p.payload[218] == 230 && !Shrinks(z, p.payload)
    requires p.ttl < PKT_TTL
    ensures Transmitted(z, p, filler).Got? && Transmitted(z, p, filler).value.ttl > p.ttl
  {
    PlainEncodingEnds(z, p);
    CollapseExample(Encoding(z, p));
    TtlIsKeptUnlessCollapsed(z, p, filler);
  }

  /**
    Decoding is total except for one family: the size check counts one byte too few, and the decoder reads
    past the end exactly when that byte is the one missing and no signature hides it.
   */
  lemma DecoderBounds(z: Lz4, data: bytes)
    ensures var u := Unpadded(data);
            Decoded(z, data).OutOfBounds? <==>
            && |u| >= 21
            && var h := DecodedHeader(u);
            && |u| == ExpectedSize(h) && !h.flags.signature
            && (h.payloadLength == 0 || (h.flags.compressed && h.payloadLength >= 2))
  {
    var u := Unpadded(data);
    if |u| >= 21 {
      var h := DecodedHeader(u);
      var rest := u[14..];
      if |u| >= ExpectedSize(h) && |rest| >= 8 && h.flags.recipient && |rest| >= 16 {
        assert |rest[16..]| == |u| - 30;
      }
    }
  }

  /** The fixed offsets that readers of the raw bytes rely on, padded or not. */
  lemma WireLayout(z: Lz4, p: Packet, filler: Filler)
    ensures var d := Encoded(z, p, filler);
            && |d| >= 22
            && d[0] == p.version && d[1] == p.typ && d[2] == p.ttl && d[3..11] == BigEndian(p.timestamp, 8)
            && d[11] == FlagByte(WireFlags(z, p))
            && d[12..14] == BigEndian(|WireBody(z, p.payload)| % 0x1_0000, 2)
            && d[14..22] == Resize(p.senderID, 8)
  {
    var d := Encoded(z, p, filler);
    var e := Encoding(z, p);
    AfterHeader(z, p);
    PrefixOfPrefix(e, d, 22);
    OffsetsOf(d, e, Header(z, p), Resize(p.senderID, 8));
    HeaderLayout(d, p.version, p.typ, p.ttl, BigEndian(p.timestamp, 8), FlagByte(WireFlags(z, p)),
                 BigEndian(|WireBody(z, p.payload)| % 0x1_0000, 2));
  }

  lemma OffsetsOf(d: bytes, e: bytes, header: bytes, sender: bytes)
    requires |d| >= 22 && |e| >= 22 && d[..22] == e[..22]
    requires |header| == 14 && |sender| == 8 && e[..14] == header && sender <= e[14..]
    ensures d[..14] == header && d[14..22] == sender
  {
    assert d[..14] == d[..22][..14] && e[..14] == e[..22][..14];
    assert d[14..22] == d[..22][14..] && e[14..22] == e[..22][14..];
    assert e[14..][..8] == e[14..22];
  }

  /** The payload travels compressed, with its size in front, when it has over 100 bytes and LZ4 makes it shorter. */
  predicate Packs(z: Lz4, payload: bytes) {
    |payload| >= 101 && |z.compress(payload)| < |payload|
  }

  function PayloadOnWire(z: Lz4, payload: bytes): bytes {
    if Packs(z, payload) then [|payload| / 256 % 256, |payload| % 256] + z.compress(payload) else payload
  }

  lemma WireBodyIs(z: Lz4, payload: bytes)
    ensures WireBody(z, payload) == PayloadOnWire(z, payload)
  {
    TwoByteSize(|payload|);
  }

  lemma TwoByteSize(n: nat)
    ensures BigEndian(n % 0x1_0000, 2) == [n / 256 % 256, n % 256]
  {
    SizeBytes(n);
    TwoDigits(n % 0x1_0000);
  }

  lemma SizeBytes(n: nat)
    ensures n % 0x1_0000 / 256 == n / 256 % 256 && n % 0x1_0000 % 256 == n % 256
  {
    var q := n / 0x1_0000;
    var r := n % 0x1_0000;
    assert n == 256 * (256 * q + r / 256) + r % 256;
    assert n / 256 == 256 * q + r / 256;
  }

  lemma TwoDigits(m: uint16)
    ensures BigEndian(m, 2) == [m / 256, m % 256]
  {
    assert BigEndian(m, 2) == BigEndian(m / 256, 1) + [m % 256];
    assert BigEndian(m / 256, 1) == BigEndian(m / 256 / 256, 0) + [m / 256];
  }

  /** What follows the header, by offset, and the three flag bits that say so. */
  lemma WireParts(z: Lz4, p: Packet)
    ensures var e := Encoding(z, p);
            var body := PayloadOnWire(z, p.payload);
            var start := 22 + if p.flags.recipient then 8 else 0;
            var end := start + |body|;
            && |e| == end + (if p.flags.signature then 64 else 0)
            && (e[11] % 2 == 1 <==> p.flags.recipient) && (e[11] / 2 % 2 == 1 <==> p.flags.signature)
            && (e[11] / 4 % 2 == 1 <==> p.flags.compressed || Packs(z, p.payload))
            && (p.flags.recipient ==> e[22..30] == Resize(p.recipientID, 8))
            && e[start..end] == body
            && (p.flags.signature ==> e[end..] == Resize(p.signature, 64))
  {
    var e := Encoding(z, p);
    WireBodyIs(z, p.payload);
    FlagsRoundTrip(WireFlags(z, p));
    AfterHeader(z, p);
    HeaderOfEncoding(z, p, e);
    PartsAt(e, Header(z, p) + Resize(p.senderID, 8), RecipientPart(p), WireBody(z, p.payload), SignaturePart(p));
  }

  lemma PartsAt(e: bytes, a: bytes, b: bytes, c: bytes, d: bytes)
    requires e == a + b + c + d
    ensures e[|a|..|a| + |b|] == b && e[|a| + |b|..|a| + |b| + |c|] == c && e[|a| + |b| + |c|..] == d
  {
  }

  /** The decoder takes each part from its offset; a compressed payload must have its size in front. */
  ghost predicate TakenFrom(z: Lz4, u: bytes, q: Packet, signed: bool)
    requires |u| >= 22
  {
    var h := DecodedHeader(u);
    var start := 22 + if h.flags.recipient then 8 else 0;
    var end := start + h.payloadLength;
    var unpacks := h.flags.compressed && h.payloadLength >= 2;
    && end <= |u| && SameHeader(h, q) && q.flags == h.flags && q.senderID == u[14..22]
    && (if h.flags.recipient then start <= |u| && q.recipientID == u[22..30] else q.recipientID == [])
    && q.payload == (if unpacks then z.decompress(u[start + 2..end], ReadU16(u[start..start + 2]))
                     else if h.flags.compressed then [] else u[start..end])
    && q.payloadLength == (if unpacks then |q.payload| % 0x1_0000 else h.payloadLength)
    && (if signed && (unpacks || !h.flags.compressed) then end + 64 <= |u| && q.signature == u[end..end + 64]
        else q.signature == [])
  }

  lemma PartsTaken(z: Lz4, h: Packet, u: bytes, start: nat)
    requires 22 <= start <= |u| && h.payload == [] && h.signature == []
    requires start + h.payloadLength + (if h.flags.signature then 64 else 0) <= |u|
    ensures var end := start + h.payloadLength;
            var unpacks := h.flags.compressed && h.payloadLength >= 2;
            var r := TakePayload(z, h, u[start..]);
            && r.Got?
            && r.value.payload == (if unpacks then z.decompress(u[start + 2..end], ReadU16(u[start..start + 2]))
                                   else if h.flags.compressed then [] else u[start..end])
            && r.value.payloadLength == (if unpacks then |r.value.payload| % 0x1_0000 else h.payloadLength)
            && r.value.signature
               == (if h.flags.signature && (unpacks || !h.flags.compressed) then u[end..end + 64] else [])
            && r.value == h.(payload := r.value.payload, payloadLength := r.value.payloadLength,
                             signature := r.value.signature)
  {
    var rest := u[start..];
    var n := h.payloadLength;
    assert rest[..n] == u[start..start + n] && rest[n..] == u[start + n..];
    if n >= 2 {
      assert rest[2..n] == u[start + 2..start + n] && rest[..2] == u[start..start + 2];
    }
    if h.flags.signature {
      assert u[start + n..][..64] == u[start + n..start + n + 64];
    }
  }

  /** Data with all the bytes its header announces, 22 for header and sender included, are taken apart in full. */
  lemma CompleteDataIsTaken(z: Lz4, u: bytes)
    requires |u| >= 22 && |u| > ExpectedSize(DecodedHeader(u))
    ensures DecodeUnpadded(z, u).Got?
    ensures TakenFrom(z, u, DecodeUnpadded(z, u).value, DecodedHeader(u).flags.signature)
  {
    var h := DecodedHeader(u);
    var rest := u[14..];
    assert rest[..8] == u[14..22] && rest[8..] == u[22..];
    if h.flags.recipient {
      assert u[22..][..8] == u[22..30] && u[22..][8..] == u[30..];
      PartsTaken(z, h.(senderID := u[14..22], recipientID := u[22..30]), u, 30);
    } else {
      PartsTaken(z, h.(senderID := u[14..22]), u, 22);
    }
  }

  /** With less than announced only the header is taken, and with less than 21 bytes nothing. */
  lemma IncompleteDataIsHeader(z: Lz4, u: bytes)
    ensures |u| < 21 ==> DecodeUnpadded(z, u) == Got(Packet(1, 0, 7, 0, NO_FLAGS, 0, [], [], [], []))
    ensures 21 <= |u| < ExpectedSize(DecodedHeader(u)) ==> DecodeUnpadded(z, u) == Got(DecodedHeader(u))
  {
  }

  // ---------------------------------------------------------------- the serializer's methods

  method CompressIfSmaller(z: Lz4, payload: bytes) returns (isCompressed: bool, body: bytes)
    ensures isCompressed == Shrinks(z, payload)
    ensures body == if isCompressed then z.compress(payload) else payload
  {
    isCompressed, body := false, payload;
    if ShouldCompress(payload) {
      var compressedPayload := CompressData(z, payload);
      if |compressedPayload| < |payload| {
        isCompressed, body := true, compressedPayload;
      }
    }
  }

  method WriteHeader(packet: Packet, flags: Flags, payloadDataSize: uint16) returns (data: bytes)
    ensures data == [packet.version, packet.typ, packet.ttl] + BigEndian(packet.timestamp, 8) + [FlagByte(flags)]
                    + BigEndian(payloadDataSize, 2)
  {
    data := [packet.version, packet.typ, packet.ttl];
    data := WriteUint64(data, packet.timestamp);
    data := data + [FlagByte(flags)];
    data := WriteUint16(data, payloadDataSize);
  }

  method WriteAddresses(packet: Packet) returns (data: bytes)
    ensures data == Resize(packet.senderID, 8) + RecipientPart(packet)
  {
    data := Resize(packet.senderID, 8);
    if packet.flags.recipient {
      data := data + Resize(packet.recipientID, 8);
    }
  }

  method WritePayload(z: Lz4, packet: Packet, isCompressed: bool, payload: bytes) returns (data: bytes)
    requires isCompressed == Shrinks(z, packet.payload)
    requires payload == if isCompressed then z.compress(packet.payload) else packet.payload
    ensures data == WireBody(z, packet.payload) + SignaturePart(packet)
  {
    data := [];
    if isCompressed {
      data := WriteUint16(data, |packet.payload| % 0x1_0000);
    }
    data := data + payload;
    assert data == WireBody(z, packet.payload);
    if packet.flags.signature {
      data := data + Resize(packet.signature, 64);
    }
  }

  lemma RegroupThree(a: bytes, b: bytes, c: bytes, d: bytes, e: bytes)
    ensures a + (b + c) + (d + e) == a + b + c + d + e
  {
  }

  lemma EncodingInThree(z: Lz4, p: Packet)
    ensures Header(z, p) + (Resize(p.senderID, 8) + RecipientPart(p)) + (WireBody(z, p.payload) + SignaturePart(p))
            == Encoding(z, p)
  {
    RegroupThree(Header(z, p), Resize(p.senderID, 8), RecipientPart(p), WireBody(z, p.payload), SignaturePart(p));
  }

  method SerializePacket(z: Lz4, packet: Packet, filler: Filler) returns (data: bytes)
    ensures data == Encoded(z, packet, filler)
  {
    var isCompressed, payload := CompressIfSmaller(z, packet.payload);
    var flags := packet.flags;
    if isCompressed {
      flags := flags.(compressed := true);
    }
    var payloadDataSize := |payload| + if isCompressed then 2 else 0;
    var header := WriteHeader(packet, flags, payloadDataSize % 0x1_0000);
    var addresses := WriteAddresses(packet);
    var body := WritePayload(z, packet, isCompressed, payload);
    assert |WireBody(z, packet.payload)| == payloadDataSize;
    assert header == Header(z, packet);
    data := header + addresses + body;
    EncodingInThree(z, packet);
    data := Pad(data, OptimalBlockSize(|data|), filler);
  }

  /** The tail of the decoder, from the payload on; `offset` is where the payload starts. */
  method ReadPayloadAndSignature(z: Lz4, u: bytes, offset0: nat, header: Packet) returns (r: Read<Packet>)
    requires offset0 <= |u|
    ensures r == TakePayload(z, header, u[offset0..])
  {
    var packet, offset := header, offset0;
    ghost var rest := u[offset0..];
    var n := packet.payloadLength;
    if packet.flags.compressed {
      if n < 2 {
        return Got(packet);
      }
      if offset + n > |u| {
        return OutOfBounds;
      }
      var originalSize, next := ReadUint16(u, offset);
      assert rest[..2] == u[offset..offset + 2];
      assert rest[2..n] == u[next..offset + n];
      packet := packet.WithPayload(z.decompress(u[next..offset + n], originalSize));
      offset := offset + n;
      assert rest[n..] == u[offset..];
    } else if offset + n <= |u| {
      assert rest[..n] == u[offset..offset + n] && rest[n..] == u[offset + n..];
      packet := packet.WithPayload(u[offset..offset + n]);
      offset := offset + n;
    }
    if packet.flags.signature && offset + 64 <= |u| {
      SliceOfTail(u, offset, offset + 64);
      packet := packet.(signature := u[offset..offset + 64]);
    }
    r := Got(packet);
  }

  method DeserializePacket(z: Lz4, data: bytes) returns (r: Read<Packet>)
    ensures r == Decoded(z, data)
  {
    var u := Unpadded(data);
    if |u| < 21 {
      return Got(DEFAULT_PACKET);
    }
    var packet := DEFAULT_PACKET;
    packet := packet.(version := u[0], typ := u[1], ttl := u[2]);
    var timestamp, offset := ReadUint64(u, 3);
    packet := packet.(timestamp := timestamp, flags := FlagsOf(u[offset]));
    var payloadLength;
    payloadLength, offset := ReadUint16(u, offset + 1);
    packet := packet.(payloadLength := payloadLength);
    var expectedSize: nat := 21;
    if packet.flags.recipient {
      expectedSize := expectedSize + 8;
    }
    if packet.flags.signature {
      expectedSize := expectedSize + 64;
    }
    expectedSize := expectedSize + packet.payloadLength;
    assert packet == DecodedHeader(u) && expectedSize == ExpectedSize(packet);
    if |u| < expectedSize {
      return Got(packet);
    }
    ghost var rest := u[14..];
    if offset + 8 > |u| {
      return OutOfBounds;
    }
    assert rest[..8] == u[14..22];
    assert rest[8..] == u[22..];
    packet := packet.(senderID := u[offset..offset + 8]);
    offset := offset + 8;
    if packet.flags.recipient {
      if offset + 8 > |u| {
        return OutOfBounds;
      }
      assert u[22..][..8] == u[22..30];
      assert u[22..][8..] == u[30..];
      packet := packet.(recipientID := u[offset..offset + 8]);
      offset := offset + 8;
    }
    r := ReadPayloadAndSignature(z, u, offset, packet);
  }
}
