/** BitchatMessage and the message half of packet_serializer.cpp. */
module MessageCodec {
  import opened Bytes
  import opened Text

  datatype Message = Message(
    id: bytes, sender: bytes, content: bytes, timestamp: uint64, isRelay: bool, originalSender: bytes,
    isPrivate: bool, recipientNickname: bytes, senderPeerID: bytes, mentions: seq<bytes>, channel: bytes,
    encryptedContent: bytes, isEncrypted: bool)

  const EMPTY_MESSAGE := Message([], [], [], 0, false, [], false, [], [], [], [], [], false)

  // ---------------------------------------------------------------- bits of a byte

  ghost function Pow2(n: nat): (r: nat) {
    if n == 0 then 1 else 2 * Pow2(n - 1)
  }

  /** The number whose bits, lowest first, are given. */
  function OfBits(bits: seq<bool>): (r: nat)
    ensures r < Pow2(|bits|)
  {
    if bits == [] then 0 else (if bits[0] then 1 else 0) + 2 * OfBits(bits[1..])
  }

  function ToBits(v: nat, n: nat): (r: seq<bool>)
    ensures |r| == n
  {
    if n == 0 then [] else [v % 2 == 1] + ToBits(v / 2, n - 1)
  }

  lemma {:induction false} BitsRoundTrip(bits: seq<bool>)
    ensures ToBits(OfBits(bits), |bits|) == bits
  {
    if bits != [] {
      BitsRoundTrip(bits[1..]);
      assert OfBits(bits) / 2 == OfBits(bits[1..]);
    }
  }

  // ---------------------------------------------------------------- printing

  /** The flag bits, lowest first. */
  function FlagBits(m: Message): (r: seq<bool>)
    ensures |r| == 8
  {
    [m.isRelay, m.isPrivate, m.originalSender != [], m.recipientNickname != [],
     m.senderPeerID != [], m.mentions != [], m.channel != [], m.isEncrypted]
  }

  function FlagByte(m: Message): (r: byte)
    ensures ToBits(r, 8) == FlagBits(m)
  {
    BitsRoundTrip(FlagBits(m));
    assert Pow2(8) == 256;
    OfBits(FlagBits(m))
  }

  function Weighted(b: bool, weight: nat): nat {
    if b then weight else 0
  }

  /** The flag byte is the sum of the weights the protocol gives each flag. */
  lemma FlagByteIsSum(m: Message)
    ensures FlagByte(m) == Weighted(m.isRelay, 0x01) + Weighted(m.isPrivate, 0x02)
                           + Weighted(m.originalSender != [], 0x04) + Weighted(m.recipientNickname != [], 0x08)
                           + Weighted(m.senderPeerID != [], 0x10) + Weighted(m.mentions != [], 0x20)
                           + Weighted(m.channel != [], 0x40) + Weighted(m.isEncrypted, 0x80)
  {
    OfEightBits(m.isRelay, m.isPrivate, m.originalSender != [], m.recipientNickname != [], m.senderPeerID != [],
                m.mentions != [], m.channel != [], m.isEncrypted);
  }

  lemma OfCons(b: bool, rest: seq<bool>)
    ensures OfBits([b] + rest) == Weighted(b, 1) + 2 * OfBits(rest)
  {
    assert ([b] + rest)[1..] == rest;
  }

  lemma OfFourBits(a: bool, b: bool, c: bool, d: bool, rest: seq<bool>)
    ensures OfBits([a, b, c, d] + rest)
            == Weighted(a, 1) + Weighted(b, 2) + Weighted(c, 4) + Weighted(d, 8) + 16 * OfBits(rest)
  {
    OfCons(d, rest);
    OfCons(c, [d] + rest);
    OfCons(b, [c] + ([d] + rest));
    OfCons(a, [b] + ([c] + ([d] + rest)));
    assert [a, b, c, d] + rest == [a] + ([b] + ([c] + ([d] + rest)));
  }

  lemma OfEightBits(a: bool, b: bool, c: bool, d: bool, e: bool, f: bool, g: bool, h: bool)
    ensures OfBits([a, b, c, d, e, f, g, h])
            == Weighted(a, 1) + Weighted(b, 2) + Weighted(c, 4) + Weighted(d, 8)
               + Weighted(e, 16) + Weighted(f, 32) + Weighted(g, 64) + Weighted(h, 128)
  {
    OfFourBits(a, b, c, d, [e, f, g, h]);
    OfFourBits(e, f, g, h, []);
    assert [a, b, c, d, e, f, g, h] == [a, b, c, d] + [e, f, g, h];
    assert [e, f, g, h] + [] == [e, f, g, h];
  }

  /** A string with a one-byte length, cut at 255 bytes. */
  function Short(s: bytes): (r: bytes) {
    [Min(255, |s|)] + Clip(s, 255)
  }

  /** Only non-empty optional fields are written. */
  function OptionalField(s: bytes): (r: bytes) {
    if s == [] then [] else Short(s)
  }

  function Long(s: bytes): (r: bytes) {
    BigEndian(Min(65535, |s|), 2) + Clip(s, 65535)
  }

  function Flat(ms: seq<bytes>): (r: bytes) {
    if ms == [] then [] else Short(ms[0]) + Flat(ms[1..])
  }

  /** The count is cut at 255, the mentions themselves are not. */
  function MentionField(ms: seq<bytes>): (r: bytes) {
    if ms == [] then [] else [Min(255, |ms|)] + Flat(ms)
  }

  function NamePart(m: Message): (r: bytes) {
    OptionalField(m.originalSender) + OptionalField(m.recipientNickname) + OptionalField(HexOf(m.senderPeerID))
  }

  function ListPart(m: Message): (r: bytes) {
    MentionField(m.mentions) + OptionalField(m.channel)
  }

  function OptionalPart(m: Message): (r: bytes) {
    NamePart(m) + ListPart(m)
  }

  function EffectiveId(m: Message, uuid: bytes): (r: bytes) {
    if m.id == [] then uuid else m.id
  }

  /** The payload of a message; `uuid` is the identifier drawn when the message has none. */
  function MessageBytes(m: Message, uuid: bytes): (r: bytes) {
    [FlagByte(m)] + BigEndian(m.timestamp, 8) + Short(EffectiveId(m, uuid)) + Short(m.sender) + Long(m.content)
    + OptionalPart(m)
  }

  // ---------------------------------------------------------------- parsing

  /** An optional field and what follows it; a length that does not fit is skipped alone. */
  function Field(has: bool, s: bytes): (r: (bytes, bytes)) {
    if !has || s == [] then ([], s)
    else if s[0] <= |s| - 1 then (s[1..1 + s[0]], s[1 + s[0]..])
    else ([], s[1..])
  }

  function TakeMentions(count: nat, s: bytes): (r: (seq<bytes>, bytes))
    decreases count
  {
    if count == 0 || s == [] then ([], s)
    else if s[0] <= |s| - 1 then
      var (ms, rest) := TakeMentions(count - 1, s[1 + s[0]..]);
      ([s[1..1 + s[0]]] + ms, rest)
    else TakeMentions(count - 1, s[1..])
  }

  function ParseMentions(has: bool, s: bytes): (r: (seq<bytes>, bytes)) {
    if !has || s == [] then ([], s) else TakeMentions(s[0], s[1..])
  }

  function ParseLists(m: Message, flags: seq<bool>, s: bytes): (r: Message)
    requires |flags| == 8
  {
    var (mentions, s1) := ParseMentions(flags[5], s);
    var (channel, _) := Field(flags[6], s1);
    m.(mentions := mentions, channel := channel)
  }

  function ParsePeerID(m: Message, flags: seq<bool>, s: bytes): (r: Message)
    requires |flags| == 8
  {
    var (peerID, rest) := Field(flags[4], s);
    ParseLists(m.(senderPeerID := LenientHex(peerID)), flags, rest)
  }

  function ParseRecipient(m: Message, flags: seq<bool>, s: bytes): (r: Message)
    requires |flags| == 8
  {
    var (recipientNickname, rest) := Field(flags[3], s);
    ParsePeerID(m.(recipientNickname := recipientNickname), flags, rest)
  }

  function ParseOptional(m: Message, flags: seq<bool>, s: bytes): (r: Message)
    requires |flags| == 8
  {
    var (originalSender, rest) := Field(flags[2], s);
    ParseRecipient(m.(originalSender := originalSender), flags, rest)
  }

  function StoreContent(m: Message, text: bytes): (r: Message) {
    if m.isEncrypted then m.(encryptedContent := text, content := []) else m.(content := text)
  }

  function ParseContent(m: Message, flags: seq<bool>, s: bytes): (r: Read<Message>)
    requires |flags| == 8
  {
    if |s| < 2 then OutOfBounds
    else
      var n := ReadU16(s[..2]);
      if n > |s| - 2 then Got(m)
      else
        Got(ParseOptional(StoreContent(m, s[2..2 + n]), flags, s[2 + n..]))
  }

  function ParseSender(m: Message, flags: seq<bool>, s: bytes): (r: Read<Message>)
    requires |flags| == 8
  {
    if s == [] then OutOfBounds
    else if s[0] > |s| - 1 then Got(m)
    else ParseContent(m.(sender := s[1..1 + s[0]]), flags, s[1 + s[0]..])
  }

  function ParseId(m: Message, flags: seq<bool>, s: bytes): (r: Read<Message>)
    requires |flags| == 8
  {
    if s == [] then OutOfBounds
    else if s[0] > |s| - 1 then Got(m)
    else ParseSender(m.(id := s[1..1 + s[0]]), flags, s[1 + s[0]..])
  }

  function ParseMessage(s: bytes): (r: Read<Message>) {
    if |s| < 13 then Got(EMPTY_MESSAGE)
    else
      var flags := ToBits(s[0], 8);
      ParseId(EMPTY_MESSAGE.(isRelay := flags[0], isPrivate := flags[1], isEncrypted := flags[7],
                             timestamp := ReadU64(s[1..9])), flags, s[9..])
  }

  // ---------------------------------------------------------------- round trip

  function ClipAll(ms: seq<bytes>): (r: seq<bytes>)
    ensures |r| == |ms| && forall i :: 0 <= i < |ms| ==> r[i] == Clip(ms[i], 255)
  {
    seq(|ms|, i requires 0 <= i < |ms| => Clip(ms[i], 255))
  }

  /** What the wire keeps of a message. With more than 255 mentions the 256th takes the channel's place. */
  function Clipped(m: Message, uuid: bytes): (r: Message) {
    m.(id := Clip(EffectiveId(m, uuid), 255),
       sender := Clip(m.sender, 255),
       content := if m.isEncrypted then [] else Clip(m.content, 65535),
       encryptedContent := if m.isEncrypted then Clip(m.content, 65535) else [],
       originalSender := Clip(m.originalSender, 255),
       recipientNickname := Clip(m.recipientNickname, 255),
       senderPeerID := Clip(m.senderPeerID, 127),
       mentions := ClipAll(Clip(m.mentions, 255)),
       channel := if |m.mentions| > 255 && m.channel != [] then Clip(m.mentions[255], 255) else Clip(m.channel, 255))
  }

  lemma FieldReads(x: bytes, tail: bytes)
    ensures Field(x != [], OptionalField(x) + tail) == (Clip(x, 255), tail)
  {
    if x == [] {
      assert [] + tail == tail;
    } else {
      ShortReads(x, tail);
    }
  }

  lemma ShortReads(x: bytes, tail: bytes)
    ensures var s := Short(x) + tail;
            s != [] && s[0] <= |s| - 1 && s[1..1 + s[0]] == Clip(x, 255) && s[1 + s[0]..] == tail
  {
  }

  lemma {:induction false} MentionsRead(ms: seq<bytes>, k: nat, tail: bytes)
    requires k <= |ms|
    ensures TakeMentions(k, Flat(ms) + tail) == (ClipAll(ms[..k]), Flat(ms[k..]) + tail)
  {
    if k > 0 {
      var rest := Flat(ms[1..]) + tail;
      assert Flat(ms) + tail == Short(ms[0]) + rest;
      ShortReads(ms[0], rest);
      MentionsRead(ms[1..], k - 1, tail);
      assert ms[1..][k - 1..] == ms[k..];
      assert ClipAll(ms[..k]) == [Clip(ms[0], 255)] + ClipAll(ms[1..][..k - 1]);
    } else {
      assert ms[0..] == ms;
    }
  }

  lemma MentionFieldReads(ms: seq<bytes>, tail: bytes)
    ensures ParseMentions(ms != [], MentionField(ms) + tail)
            == (ClipAll(Clip(ms, 255)), Flat(ms[Min(255, |ms|)..]) + tail)
  {
    if ms == [] {
      assert [] + tail == tail;
    } else {
      var count := Min(255, |ms|);
      Associate([count], Flat(ms), tail);
      HeadAndTail(count, Flat(ms) + tail);
      MentionsRead(ms, count, tail);
    }
  }

  lemma ChannelReads(ms: seq<bytes>, channel: bytes, tail: bytes)
    ensures Field(channel != [], Flat(ms[Min(255, |ms|)..]) + (OptionalField(channel) + tail)).0
            == if |ms| > 255 && channel != [] then Clip(ms[255], 255) else Clip(channel, 255)
  {
    var left := ms[Min(255, |ms|)..];
    var rest := OptionalField(channel) + tail;
    if |ms| > 255 {
      assert Flat(left) + rest == Short(ms[255]) + (Flat(left[1..]) + rest);
      ShortReads(ms[255], Flat(left[1..]) + rest);
    } else {
      assert Flat(left) + rest == rest;
      FieldReads(channel, tail);
    }
  }

  lemma Regroup(a: bytes, b: bytes, c: bytes, d: bytes, e: bytes, t: bytes)
    ensures a + b + c + d + e + t == a + (b + (c + (d + (e + t))))
  {
  }

  lemma ListsRoundTrip(m: Message, base: Message, tail: bytes)
    ensures ParseLists(base, FlagBits(m), ListPart(m) + tail)
            == base.(mentions := Clipped(m, []).mentions, channel := Clipped(m, []).channel)
  {
    var rest := OptionalField(m.channel) + tail;
    Associate(MentionField(m.mentions), OptionalField(m.channel), tail);
    MentionFieldReads(m.mentions, rest);
    ChannelReads(m.mentions, m.channel, tail);
  }

  /** The optional fields of `base` replaced by what the wire keeps of those of `m`. */
  function WithOptional(base: Message, m: Message): (r: Message) {
    base.(originalSender := Clip(m.originalSender, 255), recipientNickname := Clip(m.recipientNickname, 255),
          senderPeerID := Clip(m.senderPeerID, 127),
          mentions := Clipped(m, []).mentions, channel := Clipped(m, []).channel)
  }

  lemma OptionalPartSplits(m: Message, tail: bytes)
    ensures OptionalPart(m) + tail
            == OptionalField(m.originalSender)
               + (OptionalField(m.recipientNickname) + (OptionalField(HexOf(m.senderPeerID)) + (ListPart(m) + tail)))
  {
    RegroupFive(OptionalField(m.originalSender), OptionalField(m.recipientNickname),
                OptionalField(HexOf(m.senderPeerID)), ListPart(m), tail);
  }

  lemma RegroupFive(a: bytes, b: bytes, c: bytes, d: bytes, t: bytes)
    ensures a + b + c + d + t == a + (b + (c + (d + t)))
  {
  }

  lemma PeerIDReads(m: Message, base: Message, rest: bytes)
    ensures ParsePeerID(base, FlagBits(m), OptionalField(HexOf(m.senderPeerID)) + rest)
            == ParseLists(base.(senderPeerID := Clip(m.senderPeerID, 127)), FlagBits(m), rest)
  {
    var hex := HexOf(m.senderPeerID);
    assert hex != [] <==> m.senderPeerID != [];
    FieldReads(hex, rest);
    ClippedHexRoundTrip(m.senderPeerID, 255);
  }

  lemma RecipientReads(m: Message, base: Message, rest: bytes)
    ensures ParseRecipient(base, FlagBits(m), OptionalField(m.recipientNickname) + rest)
            == ParsePeerID(base.(recipientNickname := Clip(m.recipientNickname, 255)), FlagBits(m), rest)
  {
    FieldReads(m.recipientNickname, rest);
  }

  lemma OriginalSenderReads(m: Message, base: Message, rest: bytes)
    ensures ParseOptional(base, FlagBits(m), OptionalField(m.originalSender) + rest)
            == ParseRecipient(base.(originalSender := Clip(m.originalSender, 255)), FlagBits(m), rest)
  {
    FieldReads(m.originalSender, rest);
  }

  lemma OptionalRoundTrip(m: Message, base: Message, tail: bytes)
    ensures ParseOptional(base, FlagBits(m), OptionalPart(m) + tail) == WithOptional(base, m)
  {
    var r4 := ListPart(m) + tail;
    var r3 := OptionalField(HexOf(m.senderPeerID)) + r4;
    var r2 := OptionalField(m.recipientNickname) + r3;
    OptionalPartSplits(m, tail);
    OriginalSenderReads(m, base, r2);
    var b1 := base.(originalSender := Clip(m.originalSender, 255));
    RecipientReads(m, b1, r3);
    var b2 := b1.(recipientNickname := Clip(m.recipientNickname, 255));
    PeerIDReads(m, b2, r4);
    ListsRoundTrip(m, b2.(senderPeerID := Clip(m.senderPeerID, 127)), tail);
  }

  lemma ContentRoundTrip(m: Message, base: Message, tail: bytes)
    ensures ParseContent(base, FlagBits(m), Long(m.content) + (OptionalPart(m) + tail))
            == Got(WithOptional(StoreContent(base, Clip(m.content, 65535)), m))
  {
    var rest := OptionalPart(m) + tail;
    var s := Long(m.content) + rest;
    var n := Min(65535, |m.content|);
    assert s[..2] == BigEndian(n, 2);
    Uint16RoundTrip(n);
    assert s[2..2 + n] == Clip(m.content, 65535);
    assert s[2 + n..] == rest;
    OptionalRoundTrip(m, StoreContent(base, Clip(m.content, 65535)), tail);
  }

  lemma IdReads(base: Message, flags: seq<bool>, id: bytes, rest: bytes)
    requires |flags| == 8
    ensures ParseId(base, flags, Short(id) + rest) == ParseSender(base.(id := Clip(id, 255)), flags, rest)
  {
    ShortReads(id, rest);
  }

  lemma SenderReads(base: Message, flags: seq<bool>, sender: bytes, rest: bytes)
    requires |flags| == 8
    ensures ParseSender(base, flags, Short(sender) + rest)
            == ParseContent(base.(sender := Clip(sender, 255)), flags, rest)
  {
    ShortReads(sender, rest);
  }

  lemma FrontReads(m: Message, rest: bytes)
    requires |rest| >= 4
    ensures ParseMessage([FlagByte(m)] + BigEndian(m.timestamp, 8) + rest)
            == ParseId(EMPTY_MESSAGE.(isRelay := m.isRelay, isPrivate := m.isPrivate, isEncrypted := m.isEncrypted,
                                      timestamp := m.timestamp), FlagBits(m), rest)
  {
    var s := [FlagByte(m)] + BigEndian(m.timestamp, 8) + rest;
    assert s[1..9] == BigEndian(m.timestamp, 8) && s[9..] == rest;
    Uint64RoundTrip(m.timestamp);
  }

  /** For every message and every following bytes, parsing the payload gives exactly what the wire keeps. */
  lemma MessageRoundTrip(m: Message, uuid: bytes, tail: bytes)
    ensures ParseMessage(MessageBytes(m, uuid) + tail) == Got(Clipped(m, uuid))
  {
    var id := EffectiveId(m, uuid);
    var r3 := Long(m.content) + (OptionalPart(m) + tail);
    var r2 := Short(m.sender) + r3;
    var r1 := Short(id) + r2;
    Regroup([FlagByte(m)] + BigEndian(m.timestamp, 8), Short(id), Short(m.sender), Long(m.content), OptionalPart(m),
            tail);
    FrontReads(m, r1);
    var base := EMPTY_MESSAGE.(isRelay := m.isRelay, isPrivate := m.isPrivate, isEncrypted := m.isEncrypted,
                               timestamp := m.timestamp);
    IdReads(base, FlagBits(m), id, r2);
    SenderReads(base.(id := Clip(id, 255)), FlagBits(m), m.sender, r3);
    ContentRoundTrip(m, base.(id := Clip(id, 255), sender := Clip(m.sender, 255)), tail);
  }

  /** The messages the wire format can carry. */
  predicate Carried(m: Message) {
    && m.id != [] && |m.id| <= 255 && |m.sender| <= 255 && |m.content| <= 65535
    && |m.originalSender| <= 255 && |m.recipientNickname| <= 255 && |m.senderPeerID| <= 127
    && |m.mentions| <= 255 && (forall i :: 0 <= i < |m.mentions| ==> |m.mentions[i]| <= 255)
    && |m.channel| <= 255 && m.encryptedContent == [] && (m.isEncrypted ==> m.content == [])
  }

  lemma CarriedIsKept(m: Message, uuid: bytes)
    requires Carried(m)
    ensures Clipped(m, uuid) == m
  {
    assert Clip(m.mentions, 255) == m.mentions;
    assert forall i :: 0 <= i < |m.mentions| ==> Clip(m.mentions[i], 255) == m.mentions[i];
    assert ClipAll(m.mentions) == m.mentions;
  }

  lemma KeptIsCarried(m: Message, uuid: bytes)
    requires uuid != [] && Clipped(m, uuid) == m
    ensures Carried(m)
  {
    var c := Clipped(m, uuid);
    assert |c.mentions| == Min(255, |m.mentions|);
    forall i | 0 <= i < |m.mentions| ensures |m.mentions[i]| <= 255 {
      assert m.mentions[i] == c.mentions[i] == Clip(m.mentions[i], 255);
    }
  }

  /** A message comes back unchanged if and only if the format can carry it. */
  lemma MessageLossless(m: Message, uuid: bytes)
    requires uuid != []
    ensures ParseMessage(MessageBytes(m, uuid)) == Got(m) <==> Carried(m)
  {
    MessageRoundTrip(m, uuid, []);
    assert MessageBytes(m, uuid) + [] == MessageBytes(m, uuid);
    if Carried(m) {
      CarriedIsKept(m, uuid);
    }
    if Clipped(m, uuid) == m {
      KeptIsCarried(m, uuid);
    }
  }

  lemma {:induction false} FlatBound(ms: seq<bytes>)
    ensures |Flat(ms)| >= |ms|
    ensures forall i :: 0 <= i < |ms| ==> |Flat(ms)| > Min(255, |ms[i]|)
  {
    if ms != [] {
      FlatBound(ms[1..]);
      assert forall i :: 1 <= i < |ms| ==> ms[i] == ms[1..][i - 1];
    }
  }

  /** A plain message whose payload is at most 100 bytes long is always carried. */
  lemma SmallPayloadIsCarried(m: Message, uuid: bytes)
    requires m.id != [] && !m.isEncrypted && m.encryptedContent == []
    requires |MessageBytes(m, uuid)| <= 100
    ensures Carried(m)
  {
    FlatBound(m.mentions);
  }

  // ---------------------------------------------------------------- payloads that end early

  lemma CutShort(x: bytes, rest: bytes, k: nat)
    requires |x| <= 255 && k <= 1 + |x| + |rest|
    ensures var t := (([|x|] + x) + rest)[..k];
            && (t == [] <==> k == 0)
            && (0 < k < 1 + |x| ==> t[0] > |t| - 1)
            && (k >= 1 + |x| ==> t[0] == |x| && t[1..1 + |x|] == x && t[1 + |x|..] == rest[..k - 1 - |x|])
  {
  }

  /** The fields read before the identifier. */
  function HeadOf(m: Message): Message {
    EMPTY_MESSAGE.(isRelay := m.isRelay, isPrivate := m.isPrivate, isEncrypted := m.isEncrypted,
                   timestamp := m.timestamp)
  }

  lemma HeadReads(m: Message, rest: bytes)
    requires |rest| >= 4
    ensures ParseMessage([FlagByte(m)] + BigEndian(m.timestamp, 8) + rest) == ParseId(HeadOf(m), FlagBits(m), rest)
  {
    var s := [FlagByte(m)] + BigEndian(m.timestamp, 8) + rest;
    assert s[1..9] == BigEndian(m.timestamp, 8) && s[9..] == rest;
    Uint64RoundTrip(m.timestamp);
  }

  lemma CutContent(base: Message, flags: seq<bool>, content: bytes, rest: bytes, k: nat)
    requires |flags| == 8 && |content| <= 65535 && k <= 2 + |content| + |rest|
    ensures var r := ParseContent(base, flags, (BigEndian(|content|, 2) + content + rest)[..k]);
            && (r.OutOfBounds? <==> k < 2)
            && (2 <= k < 2 + |content| ==> r == Got(base))
  {
    var t := (BigEndian(|content|, 2) + content + rest)[..k];
    if k >= 2 {
      assert t[..2] == BigEndian(|content|, 2);
      Uint16RoundTrip(|content|);
    }
  }

  lemma CutSender(base: Message, flags: seq<bool>, sender: bytes, tail: bytes, k: nat)
    requires |flags| == 8 && |sender| <= 255 && k <= 1 + |sender| + |tail|
    ensures ParseSender(base, flags, (([|sender|] + sender) + tail)[..k])
            == if k == 0 then OutOfBounds
               else if k < 1 + |sender| then Got(base)
               else ParseContent(base.(sender := sender), flags, tail[..k - 1 - |sender|])
  {
    CutShort(sender, tail, k);
  }

  lemma CutId(base: Message, flags: seq<bool>, id: bytes, tail: bytes, k: nat)
    requires |flags| == 8 && |id| <= 255 && 0 < k <= 1 + |id| + |tail|
    ensures ParseId(base, flags, (([|id|] + id) + tail)[..k])
            == if k < 1 + |id| then Got(base) else ParseSender(base.(id := id), flags, tail[..k - 1 - |id|])
  {
    CutShort(id, tail, k);
  }

  /** Identifier and sender, cut after `k` bytes. */
  lemma CutNames(base: Message, flags: seq<bool>, id: bytes, sender: bytes, tail: bytes, k: nat)
    requires |flags| == 8 && |id| <= 255 && |sender| <= 255 && 0 < k <= 2 + |id| + |sender| + |tail|
    ensures ParseId(base, flags, (([|id|] + id) + (([|sender|] + sender) + tail))[..k])
            == if k < 1 + |id| then Got(base)
               else if k == 1 + |id| then OutOfBounds
               else if k < 2 + |id| + |sender| then Got(base.(id := id))
               else ParseContent(base.(id := id, sender := sender), flags, tail[..k - 2 - |id| - |sender|])
  {
    CutId(base, flags, id, ([|sender|] + sender) + tail, k);
    if k >= 1 + |id| {
      CutSender(base.(id := id), flags, sender, tail, k - 1 - |id|);
    }
  }

  lemma ShortIs(x: bytes)
    requires |x| <= 255
    ensures Short(x) == [|x|] + x
  {
  }

  lemma GroupedFromRight(a: bytes, b: bytes, c: bytes, d: bytes, e: bytes)
    ensures a + b + c + d + e == a + (b + (c + (d + e)))
  {
  }

  lemma MessageGrouped(m: Message)
    requires Carried(m)
    ensures MessageBytes(m, [])
            == [FlagByte(m)] + BigEndian(m.timestamp, 8)
               + (([|m.id|] + m.id) + (([|m.sender|] + m.sender)
                                       + (BigEndian(|m.content|, 2) + m.content + OptionalPart(m))))
  {
    ShortIs(m.id);
    ShortIs(m.sender);
    assert Long(m.content) == BigEndian(|m.content|, 2) + m.content;
    GroupedFromRight([FlagByte(m)] + BigEndian(m.timestamp, 8), Short(m.id), Short(m.sender), Long(m.content),
                     OptionalPart(m));
  }

  lemma CutAfterHead(m: Message, rest: bytes, k: nat)
    requires 13 <= k <= 9 + |rest|
    ensures ParseMessage(([FlagByte(m)] + BigEndian(m.timestamp, 8) + rest)[..k])
            == ParseId(HeadOf(m), FlagBits(m), rest[..k - 9])
  {
    CutBehind([FlagByte(m)] + BigEndian(m.timestamp, 8), rest, k);
    HeadReads(m, rest[..k - 9]);
  }

  lemma CutBehind(front: bytes, rest: bytes, k: nat)
    requires |front| <= k <= |front| + |rest|
    ensures (front + rest)[..k] == front + rest[..k - |front|]
  {
  }

  lemma CutHead(m: Message, id: bytes, sender: bytes, content: bytes, k: nat)
    requires |id| <= 255 && |sender| <= 255 && 13 <= k <= 11 + |id| + |sender| + |content|
    ensures var rest := ([|id|] + id) + (([|sender|] + sender) + content);
            ParseMessage(([FlagByte(m)] + BigEndian(m.timestamp, 8) + rest)[..k])
            == if k < 10 + |id| then Got(HeadOf(m))
               else if k == 10 + |id| then OutOfBounds
               else if k < 11 + |id| + |sender| then Got(HeadOf(m).(id := id))
               else ParseContent(HeadOf(m).(id := id, sender := sender), FlagBits(m),
                                 content[..k - 11 - |id| - |sender|])
  {
    CutAfterHead(m, ([|id|] + id) + (([|sender|] + sender) + content), k);
    CutNames(HeadOf(m), FlagBits(m), id, sender, content, k - 9);
  }

  /**
    A payload cut short before its content ends: below 13 bytes it is the empty message; where a length is missing it is
    read past the end; otherwise the fields before the first incomplete one are kept.
   */
  lemma CutMessage(m: Message, k: nat)
    requires Carried(m) && k <= |MessageBytes(m, [])|
    ensures var r := ParseMessage(MessageBytes(m, [])[..k]);
            var sender := 10 + |m.id|;
            var content := sender + 1 + |m.sender|;
            && (k < 13 ==> r == Got(EMPTY_MESSAGE))
            && (k >= 13 ==> (r.OutOfBounds? <==> k == sender || content <= k < content + 2))
            && (13 <= k < sender ==> r == Got(HeadOf(m)))
            && (13 <= k && sender < k < content ==> r == Got(HeadOf(m).(id := m.id)))
            && (13 <= k && content + 2 <= k < content + 2 + |m.content| ==>
                  r == Got(HeadOf(m).(id := m.id, sender := m.sender)))
  {
    if k >= 13 {
      var content := BigEndian(|m.content|, 2) + m.content + OptionalPart(m);
      MessageGrouped(m);
      CutHead(m, m.id, m.sender, content, k);
      if k >= 11 + |m.id| + |m.sender| {
        CutContent(HeadOf(m).(id := m.id, sender := m.sender), FlagBits(m), m.content, OptionalPart(m),
                   k - 11 - |m.id| - |m.sender|);
      }
    }
  }

  // ---------------------------------------------------------------- layout

  /** A length byte and the bytes, from position `i` on. */
  predicate ShortAt(s: bytes, i: nat, x: bytes) {
    |x| <= 255 && Stands(s, i, [|x|] + x)
  }

  /** The same for a field that is left out when empty. */
  predicate FieldAt(s: bytes, i: nat, x: bytes) {
    x == [] || ShortAt(s, i, x)
  }

  function FieldSize(x: bytes): nat {
    if x == [] then 0 else 1 + |x|
  }

  lemma FieldStands(s: bytes, i: nat, x: bytes)
    requires |x| <= 255 && Stands(s, i, OptionalField(x))
    ensures FieldAt(s, i, x) && |OptionalField(x)| == FieldSize(x)
  {
  }

  lemma OptionalPartIs(m: Message)
    ensures OptionalPart(m)
            == OptionalField(m.originalSender) + OptionalField(m.recipientNickname)
               + OptionalField(HexOf(m.senderPeerID)) + MentionField(m.mentions) + OptionalField(m.channel)
  {
    var a, b, c := OptionalField(m.originalSender), OptionalField(m.recipientNickname),
        OptionalField(HexOf(m.senderPeerID));
    Associate(a + b + c, MentionField(m.mentions), OptionalField(m.channel));
  }

  /** Where the fields before the optional ones stand. */
  lemma MessageFront(m: Message)
    requires Carried(m)
    ensures var s := MessageBytes(m, []);
            var sender := 10 + |m.id|;
            var content := sender + 1 + |m.sender|;
            && s[0] == FlagByte(m) && Stands(s, 1, BigEndian(m.timestamp, 8))
            && ShortAt(s, 9, m.id) && ShortAt(s, sender, m.sender)
            && Stands(s, content, BigEndian(|m.content|, 2)) && Stands(s, content + 2, m.content)
            && Stands(s, content + 2 + |m.content|, OptionalPart(m))
            && |s| == content + 2 + |m.content| + |OptionalPart(m)|
  {
    FrontParts(FlagByte(m), BigEndian(m.timestamp, 8), m.id, m.sender, BigEndian(|m.content|, 2), m.content,
               OptionalPart(m));
    ShortIs(m.id);
    ShortIs(m.sender);
    assert Long(m.content) == BigEndian(|m.content|, 2) + m.content;
  }

  lemma FrontParts(flags: byte, time: bytes, id: bytes, sender: bytes, size: bytes, content: bytes, rest: bytes)
    requires |time| == 8 && |id| <= 255 && |sender| <= 255 && |size| == 2
    ensures var s := [flags] + time + ([|id|] + id) + ([|sender|] + sender) + (size + content) + rest;
            var at := 11 + |id| + |sender|;
            && s[0] == flags && Stands(s, 1, time) && ShortAt(s, 9, id) && ShortAt(s, 10 + |id|, sender)
            && Stands(s, at, size) && Stands(s, at + 2, content) && Stands(s, at + 2 + |content|, rest)
            && |s| == at + 2 + |content| + |rest|
  {
    var head := [flags] + time;
    var s := head + ([|id|] + id) + ([|sender|] + sender) + (size + content) + rest;
    FiveStand(head, [|id|] + id, [|sender|] + sender, size + content, rest);
    StandsWithin(s, 0, head, 1, time);
    StandsWithin(s, 11 + |id| + |sender|, size + content, 0, size);
    StandsWithin(s, 11 + |id| + |sender|, size + content, 2, content);
  }

  /** And the optional ones, in this order, each only when it is not empty. */
  lemma MessageFields(m: Message)
    requires Carried(m)
    ensures var s := OptionalPart(m);
            var peerID := HexOf(m.senderPeerID);
            var recipient := FieldSize(m.originalSender);
            var peer := recipient + FieldSize(m.recipientNickname);
            var mentions := peer + FieldSize(peerID);
            && FieldAt(s, 0, m.originalSender) && FieldAt(s, recipient, m.recipientNickname) && FieldAt(s, peer, peerID)
            && (m.mentions != [] ==> Stands(s, mentions, [|m.mentions|] + Flat(m.mentions)))
            && FieldAt(s, mentions + |MentionField(m.mentions)|, m.channel)
            && |s| == mentions + |MentionField(m.mentions)| + FieldSize(m.channel)
  {
    OptionalPartIs(m);
    FieldsStand(m.originalSender, m.recipientNickname, HexOf(m.senderPeerID), MentionField(m.mentions), m.channel);
  }

  lemma FieldsStand(a: bytes, b: bytes, c: bytes, list: bytes, d: bytes)
    requires |a| <= 255 && |b| <= 255 && |c| <= 255 && |d| <= 255
    ensures var s := OptionalField(a) + OptionalField(b) + OptionalField(c) + list + OptionalField(d);
            var at := FieldSize(a) + FieldSize(b) + FieldSize(c);
            && FieldAt(s, 0, a) && FieldAt(s, FieldSize(a), b) && FieldAt(s, FieldSize(a) + FieldSize(b), c)
            && Stands(s, at, list) && FieldAt(s, at + |list|, d) && |s| == at + |list| + FieldSize(d)
  {
    FiveStand(OptionalField(a), OptionalField(b), OptionalField(c), list, OptionalField(d));
    var s := OptionalField(a) + OptionalField(b) + OptionalField(c) + list + OptionalField(d);
    FieldsAt(s, a, b, c, list, d);
  }

  lemma FieldsAt(s: bytes, a: bytes, b: bytes, c: bytes, list: bytes, d: bytes)
    requires |a| <= 255 && |b| <= 255 && |c| <= 255 && |d| <= 255
    requires var A, B, C := |OptionalField(a)|, |OptionalField(b)|, |OptionalField(c)|;
             && Stands(s, 0, OptionalField(a)) && Stands(s, A, OptionalField(b)) && Stands(s, A + B, OptionalField(c))
             && Stands(s, A + B + C, list) && Stands(s, A + B + C + |list|, OptionalField(d))
             && |s| == A + B + C + |list| + |OptionalField(d)|
    ensures var at := FieldSize(a) + FieldSize(b) + FieldSize(c);
            && FieldAt(s, 0, a) && FieldAt(s, FieldSize(a), b) && FieldAt(s, FieldSize(a) + FieldSize(b), c)
            && Stands(s, at, list) && FieldAt(s, at + |list|, d) && |s| == at + |list| + FieldSize(d)
  {
    FieldStands(s, 0, a);
    FieldStands(s, FieldSize(a), b);
    FieldStands(s, FieldSize(a) + FieldSize(b), c);
    FieldStands(s, FieldSize(a) + FieldSize(b) + FieldSize(c) + |list|, d);
  }

  // ---------------------------------------------------------------- the serializer's methods

  method WriteShort(data: bytes, s: bytes) returns (out: bytes)
    ensures out == data + Short(s)
  {
    out := data + [Min(255, |s|)];
    out := out + s[..Min(255, |s|)];
  }

  method WriteOptional(data: bytes, s: bytes) returns (out: bytes)
    ensures out == data + OptionalField(s)
  {
    out := data;
    if s != [] {
      out := WriteShort(out, s);
    }
  }

  lemma FlatStep(ms: seq<bytes>, i: nat, out: bytes)
    requires i < |ms|
    ensures out + Flat(ms[i..]) == (out + Short(ms[i])) + Flat(ms[i + 1..])
  {
    assert ms[i..][1..] == ms[i + 1..];
  }

  method WriteStrings(data: bytes, ms: seq<bytes>) returns (out: bytes)
    ensures out == data + Flat(ms)
  {
    out := data;
    assert ms[0..] == ms;
    for i := 0 to |ms|
      invariant data + Flat(ms) == out + Flat(ms[i..])
    {
      FlatStep(ms, i, out);
      out := WriteShort(out, ms[i]);
    }
  }

  method WriteMentions(data: bytes, mentions: seq<bytes>) returns (out: bytes)
    ensures out == data + MentionField(mentions)
  {
    out := data;
    if mentions != [] {
      out := out + [Min(255, |mentions|)];
      out := WriteStrings(out, mentions);
      Associate(data, [Min(255, |mentions|)], Flat(mentions));
    }
  }

  method WriteLong(data: bytes, s: bytes) returns (out: bytes)
    ensures out == data + Long(s)
  {
    var length := Min(65535, |s|);
    out := WriteUint16(data, length);
    out := out + s[..length];
  }

  method MakeMessagePayload(message: Message, uuid: bytes) returns (data: bytes)
    ensures data == MessageBytes(message, uuid)
  {
    data := [FlagByte(message)];
    data := WriteUint64(data, message.timestamp);
    data := WriteShort(data, if message.id == [] then uuid else message.id);
    data := WriteShort(data, message.sender);
    data := WriteLong(data, message.content);
    var names := MakeNamePart(message);
    var lists := MakeListPart(message);
    data := data + (names + lists);
  }

  method MakeNamePart(message: Message) returns (data: bytes)
    ensures data == NamePart(message)
  {
    data := WriteOptional([], message.originalSender);
    assert data == OptionalField(message.originalSender);
    data := WriteOptional(data, message.recipientNickname);
    var peerIDHex := ToHex(message.senderPeerID);
    data := WriteOptional(data, peerIDHex);
  }

  method MakeListPart(message: Message) returns (data: bytes)
    ensures data == ListPart(message)
  {
    data := WriteMentions([], message.mentions);
    assert data == MentionField(message.mentions);
    data := WriteOptional(data, message.channel);
  }

  method ReadField(payload: bytes, offset: nat, has: bool) returns (value: bytes, next: nat)
    requires offset <= |payload|
    ensures next <= |payload| && (value, payload[next..]) == Field(has, payload[offset..])
  {
    value, next := [], offset;
    if has && offset < |payload| {
      var len := payload[next];
      next := next + 1;
      assert payload[offset..][1..] == payload[next..];
      if next + len <= |payload| {
        assert payload[offset..][1..1 + len] == payload[next..next + len];
        assert payload[offset..][1 + len..] == payload[next + len..];
        value := payload[next..next + len];
        next := next + len;
      }
    }
  }

  method ReadMentions(payload: bytes, offset: nat, has: bool) returns (mentions: seq<bytes>, next: nat)
    requires offset <= |payload|
    ensures next <= |payload| && (mentions, payload[next..]) == ParseMentions(has, payload[offset..])
  {
    mentions, next := [], offset;
    if has && offset < |payload| {
      var mentionCount := payload[next];
      next := next + 1;
      assert payload[offset..][1..] == payload[next..];
      ghost var whole := TakeMentions(mentionCount, payload[next..]);
      assert [] + whole.0 == whole.0;
      var i := 0;
      while i < mentionCount && next < |payload|
        invariant 0 <= i <= mentionCount && next <= |payload|
        invariant whole.0 == mentions + TakeMentions(mentionCount - i, payload[next..]).0
        invariant whole.1 == TakeMentions(mentionCount - i, payload[next..]).1
      {
        ghost var s := payload[next..];
        ghost var taken := mentions;
        var len := payload[next];
        next := next + 1;
        assert s[1..] == payload[next..];
        if next + len <= |payload| {
          assert s[1..1 + len] == payload[next..next + len];
          assert s[1 + len..] == payload[next + len..];
          mentions := mentions + [payload[next..next + len]];
          next := next + len;
          ghost var rest := TakeMentions(mentionCount - i - 1, payload[next..]).0;
          assert taken + ([s[1..1 + len]] + rest) == mentions + rest;
        }
        i := i + 1;
      }
      assert mentions + [] == mentions;
    }
  }

  method ReadOptional(base: Message, flags: seq<bool>, payload: bytes, offset: nat) returns (message: Message)
    requires |flags| == 8 && offset <= |payload|
    ensures message == ParseOptional(base, flags, payload[offset..])
  {
    message := base;
    var field, next := ReadField(payload, offset, flags[2]);
    message := message.(originalSender := field);
    field, next := ReadField(payload, next, flags[3]);
    message := message.(recipientNickname := field);
    field, next := ReadField(payload, next, flags[4]);
    var peerID := ReadHexPairs(field);
    message := message.(senderPeerID := peerID);
    message := ReadLists(message, flags, payload, next);
  }

  method ReadLists(base: Message, flags: seq<bool>, payload: bytes, offset: nat) returns (message: Message)
    requires |flags| == 8 && offset <= |payload|
    ensures message == ParseLists(base, flags, payload[offset..])
  {
    var mentions, next := ReadMentions(payload, offset, flags[5]);
    var channel, _ := ReadField(payload, next, flags[6]);
    message := base.(mentions := mentions, channel := channel);
  }

  method ReadHexPairs(hex: bytes) returns (peerID: bytes)
    ensures peerID == LenientHex(hex)
  {
    peerID := [];
    var i := 0;
    assert hex[0..] == hex;
    while i + 1 < |hex|
      invariant 0 <= i <= |hex|
      invariant LenientHex(hex) == peerID + LenientHex(hex[i..])
    {
      assert hex[i..][2..] == hex[i + 2..];
      var b := Stoi16(hex[i], hex[i + 1]);
      if b.Some? {
        peerID := peerID + [b.value];
      }
      i := i + 2;
    }
  }

  method ReadContent(base: Message, flags: seq<bool>, payload: bytes, offset: nat) returns (r: Read<Message>)
    requires |flags| == 8 && offset <= |payload|
    ensures r == ParseContent(base, flags, payload[offset..])
  {
    ghost var s := payload[offset..];
    if offset + 2 > |payload| {
      return OutOfBounds;
    }
    var contentLen, next := ReadUint16(payload, offset);
    assert s[..2] == payload[offset..next];
    if next + contentLen > |payload| {
      return Got(base);
    }
    var text := payload[next..next + contentLen];
    assert s[2..2 + contentLen] == text;
    assert s[2 + contentLen..] == payload[next + contentLen..];
    var message := base;
    if message.isEncrypted {
      message := message.(encryptedContent := text, content := []);
    } else {
      message := message.(content := text);
    }
    message := ReadOptional(message, flags, payload, next + contentLen);
    r := Got(message);
  }

  method ReadSender(base: Message, flags: seq<bool>, payload: bytes, offset: nat) returns (r: Read<Message>)
    requires |flags| == 8 && offset <= |payload|
    ensures r == ParseSender(base, flags, payload[offset..])
  {
    ghost var s := payload[offset..];
    if offset >= |payload| {
      return OutOfBounds;
    }
    var senderLen := payload[offset];
    var next := offset + 1;
    if next + senderLen > |payload| {
      return Got(base);
    }
    assert s[1..1 + senderLen] == payload[next..next + senderLen];
    assert s[1 + senderLen..] == payload[next + senderLen..];
    r := ReadContent(base.(sender := payload[next..next + senderLen]), flags, payload, next + senderLen);
  }

  method ParseMessagePayload(payload: bytes) returns (r: Read<Message>)
    ensures r == ParseMessage(payload)
  {
    if |payload| < 13 {
      return Got(EMPTY_MESSAGE);
    }
    var flags := ToBits(payload[0], 8);
    var message := EMPTY_MESSAGE.(isRelay := flags[0], isPrivate := flags[1], isEncrypted := flags[7]);
    var timestamp, offset := ReadUint64(payload, 1);
    message := message.(timestamp := timestamp);
    r := ReadId(message, flags, payload, offset);
  }

  method ReadId(base: Message, flags: seq<bool>, payload: bytes, offset: nat) returns (r: Read<Message>)
    requires |flags| == 8 && offset <= |payload|
    ensures r == ParseId(base, flags, payload[offset..])
  {
    ghost var s := payload[offset..];
    if offset >= |payload| {
      return OutOfBounds;
    }
    var idLen := payload[offset];
    var next := offset + 1;
    if next + idLen > |payload| {
      return Got(base);
    }
    assert s[1..1 + idLen] == payload[next..next + idLen];
    assert s[1 + idLen..] == payload[next + idLen..];
    r := ReadSender(base.(id := payload[next..next + idLen]), flags, payload, next + idLen);
  }
}
