/** Version hello, version ack and channel announce payloads, and the negotiation they carry. */
module VersionCodec {
  import opened Bytes
  import opened Text
  import opened MessageCodec

  datatype Hello = Hello(versions: bytes, preferred: byte, clientVersion: bytes, platform: bytes,
                         capabilities: seq<bytes>)
  datatype Ack = Ack(agreed: byte, serverVersion: bytes, platform: bytes, rejected: bool, reason: bytes)
  datatype ChannelAnnounce = ChannelAnnounce(channel: bytes, joining: bool)

  // ---------------------------------------------------------------- printing

  function CapabilityPart(caps: seq<bytes>): (r: bytes) {
    if caps == [] then [] else [|caps| % 256] + Flat(caps)
  }

  function HelloFlags(h: Hello): (r: byte) {
    if h.capabilities != [] then 1 else 0
  }

  function HelloBytes(h: Hello): (r: bytes) {
    [HelloFlags(h), |h.versions| % 256] + h.versions + [h.preferred]
    + Short(h.clientVersion) + Short(h.platform)
    + CapabilityPart(h.capabilities)
  }

  /** Bit 0: rejected; bit 1: a reason follows. */
  function AckFlags(a: Ack): (r: byte) {
    (if a.rejected then 1 else 0) + if a.reason != [] then 2 else 0
  }

  function AckBytes(a: Ack): (r: bytes) {
    [AckFlags(a), a.agreed]
    + Short(a.serverVersion) + Short(a.platform) + OptionalField(a.reason)
  }

  function ChannelBytes(c: ChannelAnnounce): (r: bytes) {
    [if c.joining then 1 else 0, |c.channel| % 256] + c.channel
  }

  // ---------------------------------------------------------------- parsing

  // Each parser fills the caller's variables in order and stops at the first field that does not fit, leaving the
  // rest as `init` had them.

  /** A length-prefixed string and what follows it; None when either part is missing. */
  function TakeShort(s: bytes): (r: Option<(bytes, bytes)>) {
    if s == [] || s[0] > |s| - 1 then None else Some((s[1..1 + s[0]], s[1 + s[0]..]))
  }

  function TakeCapabilities(count: nat, s: bytes): (r: seq<bytes>)
    decreases count
  {
    if count == 0 then []
    else match TakeShort(s)
         case None => []
         case Some((cap, rest)) => [cap] + TakeCapabilities(count - 1, rest)
  }

  function ParsePlatform(h: Hello, hasCapabilities: bool, s: bytes): (r: Hello) {
    match TakeShort(s)
    case None => h
    case Some((platform, rest)) =>
      var capabilities := if !hasCapabilities || rest == [] then [] else TakeCapabilities(rest[0], rest[1..]);
      h.(platform := platform, capabilities := capabilities)
  }

  function ParseClientVersion(h: Hello, hasCapabilities: bool, s: bytes): (r: Hello) {
    match TakeShort(s)
    case None => h
    case Some((clientVersion, rest)) => ParsePlatform(h.(clientVersion := clientVersion), hasCapabilities, rest)
  }

  function ParseHello(s: bytes, init: Hello): (r: Hello) {
    if |s| < 4 then init
    else
      var n := s[1];
      if |s| - 2 < n then init.(versions := s[2..])
      else if |s| - 2 == n then init.(versions := s[2..2 + n])
      else ParseClientVersion(init.(versions := s[2..2 + n], preferred := s[2 + n]), s[0] % 2 == 1, s[3 + n..])
  }

  function ParseReason(a: Ack, hasReason: bool, s: bytes): (r: Ack) {
    if !hasReason then a
    else match TakeShort(s)
         case None => a
         case Some((reason, _)) => a.(reason := reason)
  }

  function ParseAckPlatform(a: Ack, hasReason: bool, s: bytes): (r: Ack) {
    match TakeShort(s)
    case None => a
    case Some((platform, rest)) => ParseReason(a.(platform := platform, reason := []), hasReason, rest)
  }

  function ParseServerVersion(a: Ack, hasReason: bool, s: bytes): (r: Ack) {
    match TakeShort(s)
    case None => a
    case Some((serverVersion, rest)) => ParseAckPlatform(a.(serverVersion := serverVersion), hasReason, rest)
  }

  function ParseAck(s: bytes, init: Ack): (r: Ack) {
    if |s| < 3 then init
    else ParseServerVersion(init.(rejected := s[0] % 2 == 1, agreed := s[1]), s[0] / 2 % 2 == 1, s[2..])
  }

  function ParseChannel(s: bytes, init: ChannelAnnounce): (r: ChannelAnnounce) {
    if |s| < 2 then init
    else
      var c := init.(joining := s[0] != 0);
      if s[1] <= |s| - 2 then c.(channel := s[2..2 + s[1]]) else c
  }

  // ---------------------------------------------------------------- round trips

  lemma TakeShortReads(x: bytes, tail: bytes)
    ensures TakeShort(Short(x) + tail) == Some((Clip(x, 255), tail))
  {
    ShortReads(x, tail);
  }

  lemma {:induction false} CapabilitiesRead(caps: seq<bytes>, tail: bytes)
    ensures TakeCapabilities(|caps|, Flat(caps) + tail) == ClipAll(caps)
  {
    if caps != [] {
      var rest := Flat(caps[1..]) + tail;
      assert Flat(caps) + tail == Short(caps[0]) + rest;
      TakeShortReads(caps[0], rest);
      CapabilitiesRead(caps[1..], tail);
      assert ClipAll(caps) == [Clip(caps[0], 255)] + ClipAll(caps[1..]);
    }
  }

  lemma PlatformReads(h: Hello, base: Hello, tail: bytes)
    requires |h.capabilities| <= 255
    ensures ParsePlatform(base, h.capabilities != [], Short(h.platform) + (CapabilityPart(h.capabilities) + tail))
            == base.(platform := Clip(h.platform, 255), capabilities := ClipAll(h.capabilities))
  {
    var rest := CapabilityPart(h.capabilities) + tail;
    TakeShortReads(h.platform, rest);
    if h.capabilities != [] {
      Associate([|h.capabilities| % 256], Flat(h.capabilities), tail);
      HeadAndTail(|h.capabilities| % 256, Flat(h.capabilities) + tail);
      CapabilitiesRead(h.capabilities, tail);
    }
  }

  lemma ClientVersionReads(base: Hello, has: bool, text: bytes, rest: bytes)
    ensures ParseClientVersion(base, has, Short(text) + rest)
            == ParsePlatform(base.(clientVersion := Clip(text, 255)), has, rest)
  {
    TakeShortReads(text, rest);
  }

  lemma HelloLayout(flags: byte, versions: bytes, preferred: byte, rest: bytes)
    requires |versions| <= 255
    ensures var n := |versions|;
            var s := [flags, n] + versions + ([preferred] + rest);
            && |s| == 3 + n + |rest| && s[0] == flags && s[1] == n
            && s[2..2 + n] == versions && s[2 + n] == preferred && s[3 + n..] == rest
  {
    var s := [flags, |versions|] + versions + ([preferred] + rest);
    assert s[2 + |versions|..] == [preferred] + rest;
  }

  lemma VersionsRead(flags: byte, versions: bytes, preferred: byte, init: Hello, rest: bytes)
    requires |versions| <= 255 && |rest| >= 1
    ensures ParseHello([flags, |versions|] + versions + ([preferred] + rest), init)
            == ParseClientVersion(init.(versions := versions, preferred := preferred), flags % 2 == 1, rest)
  {
    HelloLayout(flags, versions, preferred, rest);
  }

  lemma HelloSplits(h: Hello, tail: bytes)
    requires |h.versions| <= 255
    ensures var texts := Short(h.clientVersion) + (Short(h.platform) + (CapabilityPart(h.capabilities) + tail));
            HelloBytes(h) + tail == [HelloFlags(h), |h.versions|] + h.versions + ([h.preferred] + texts)
  {
    var front := [HelloFlags(h), |h.versions|] + h.versions;
    Regroup(front, [h.preferred], Short(h.clientVersion), Short(h.platform), CapabilityPart(h.capabilities), tail);
  }

  /** The hello parser inverts its printer up to clipping, whatever follows and whatever it started from. */
  lemma HelloRoundTrip(h: Hello, init: Hello, tail: bytes)
    requires |h.versions| <= 255 && |h.capabilities| <= 255
    ensures ParseHello(HelloBytes(h) + tail, init)
            == h.(clientVersion := Clip(h.clientVersion, 255), platform := Clip(h.platform, 255),
                  capabilities := ClipAll(h.capabilities))
  {
    var texts := Short(h.clientVersion) + (Short(h.platform) + (CapabilityPart(h.capabilities) + tail));
    HelloSplits(h, tail);
    VersionsRead(HelloFlags(h), h.versions, h.preferred, init, texts);
    TextsRead(h, init.(versions := h.versions, preferred := h.preferred), tail);
  }

  lemma TextsRead(h: Hello, base: Hello, tail: bytes)
    requires |h.capabilities| <= 255
    ensures ParseClientVersion(base, HelloFlags(h) % 2 == 1,
                               Short(h.clientVersion) + (Short(h.platform) + (CapabilityPart(h.capabilities) + tail)))
            == base.(clientVersion := Clip(h.clientVersion, 255), platform := Clip(h.platform, 255),
                     capabilities := ClipAll(h.capabilities))
  {
    var rest := Short(h.platform) + (CapabilityPart(h.capabilities) + tail);
    assert (HelloFlags(h) % 2 == 1) == (h.capabilities != []);
    ClientVersionReads(base, h.capabilities != [], h.clientVersion, rest);
    PlatformReads(h, base.(clientVersion := Clip(h.clientVersion, 255)), tail);
  }

  lemma ReasonReads(a: Ack, base: Ack, tail: bytes)
    requires base.reason == []
    ensures ParseReason(base, a.reason != [], OptionalField(a.reason) + tail) == base.(reason := Clip(a.reason, 255))
  {
    if a.reason != [] {
      TakeShortReads(a.reason, tail);
    }
  }

  lemma AckPlatformReads(base: Ack, has: bool, text: bytes, rest: bytes)
    ensures ParseAckPlatform(base, has, Short(text) + rest)
            == ParseReason(base.(platform := Clip(text, 255), reason := []), has, rest)
  {
    TakeShortReads(text, rest);
  }

  lemma ServerVersionReads(base: Ack, has: bool, text: bytes, rest: bytes)
    ensures ParseServerVersion(base, has, Short(text) + rest)
            == ParseAckPlatform(base.(serverVersion := Clip(text, 255)), has, rest)
  {
    TakeShortReads(text, rest);
  }

  lemma AckFrontReads(a: Ack, init: Ack, rest: bytes)
    requires |rest| >= 1
    ensures ParseAck([AckFlags(a), a.agreed] + rest, init)
            == ParseServerVersion(init.(rejected := a.rejected, agreed := a.agreed), a.reason != [], rest)
  {
    assert ([AckFlags(a), a.agreed] + rest)[2..] == rest;
  }

  /** The ack parser inverts its printer up to clipping. */
  lemma AckRoundTrip(a: Ack, init: Ack, tail: bytes)
    ensures ParseAck(AckBytes(a) + tail, init)
            == a.(serverVersion := Clip(a.serverVersion, 255), platform := Clip(a.platform, 255),
                  reason := Clip(a.reason, 255))
  {
    var r2 := OptionalField(a.reason) + tail;
    var r1 := Short(a.platform) + r2;
    Regroup([], [AckFlags(a), a.agreed], Short(a.serverVersion), Short(a.platform), OptionalField(a.reason), tail);
    assert AckBytes(a) + tail == [AckFlags(a), a.agreed] + (Short(a.serverVersion) + r1);
    AckFrontReads(a, init, Short(a.serverVersion) + r1);
    var b1 := init.(rejected := a.rejected, agreed := a.agreed);
    var b2 := b1.(serverVersion := Clip(a.serverVersion, 255));
    var has := a.reason != [];
    ServerVersionReads(b1, has, a.serverVersion, r1);
    AckPlatformReads(b2, has, a.platform, r2);
    ReasonReads(a, b2.(platform := Clip(a.platform, 255), reason := []), tail);
  }

  /** The channel announce parser inverts its printer exactly when the length fits its byte. */
  lemma ChannelRoundTrip(c: ChannelAnnounce, init: ChannelAnnounce, tail: bytes)
    ensures ParseChannel(ChannelBytes(c) + tail, init) == c <==> |c.channel| <= 255
  {
    var s := ChannelBytes(c) + tail;
    assert s[2..] == c.channel + tail;
    if |c.channel| <= 255 {
      assert s[2..2 + |c.channel|] == c.channel;
    } else {
      assert |ParseChannel(s, init).channel| == |c.channel| % 256;
    }
  }

  // ---------------------------------------------------------------- payloads that end early

  /** A hello cut short keeps the versions it still has and, after them, the fields that are complete. */
  lemma CutHello(h: Hello, init: Hello, k: nat)
    requires |h.versions| <= 255 && |h.clientVersion| <= 255 && |h.platform| <= 255 && k <= |HelloBytes(h)|
    ensures var r := ParseHello(HelloBytes(h)[..k], init);
            var n := |h.versions|;
            var platform := 4 + n + |h.clientVersion|;
            && (k < 4 ==> r == init)
            && (4 <= k <= 2 + n ==> r == init.(versions := h.versions[..k - 2]))
            && (4 <= k && 3 + n <= k < platform ==> r == init.(versions := h.versions, preferred := h.preferred))
            && (4 <= k && platform <= k < platform + 1 + |h.platform| ==>
                  r == init.(versions := h.versions, preferred := h.preferred, clientVersion := h.clientVersion))
  {
    var rest := ([|h.clientVersion|] + h.clientVersion)
    + (([|h.platform|] + h.platform) + CapabilityPart(h.capabilities));
    HelloGrouped(h);
    CutFront(HelloFlags(h), h.versions, h.preferred, rest, init, k);
    var n := |h.versions|;
    if k >= 4 && k >= 3 + n {
      var base := init.(versions := h.versions, preferred := h.preferred);
      CutShort(h.clientVersion, ([|h.platform|] + h.platform) + CapabilityPart(h.capabilities), k - 3 - n);
      if k >= 4 + n + |h.clientVersion| {
        CutShort(h.platform, CapabilityPart(h.capabilities), k - 4 - n - |h.clientVersion|);
      }
    }
  }

  lemma HelloGrouped(h: Hello)
    requires |h.versions| <= 255 && |h.clientVersion| <= 255 && |h.platform| <= 255
    ensures HelloBytes(h)
            == [HelloFlags(h), |h.versions|] + h.versions + [h.preferred]
               + (([|h.clientVersion|] + h.clientVersion)
                  + (([|h.platform|] + h.platform) + CapabilityPart(h.capabilities)))
  {
    var front := [HelloFlags(h), |h.versions|] + h.versions + [h.preferred];
    ShortIs(h.clientVersion);
    ShortIs(h.platform);
    Associate(front + Short(h.clientVersion), Short(h.platform), CapabilityPart(h.capabilities));
    Associate(front, Short(h.clientVersion), Short(h.platform) + CapabilityPart(h.capabilities));
  }

  lemma CutFront(flags: byte, versions: bytes, preferred: byte, rest: bytes, init: Hello, k: nat)
    requires |versions| <= 255 && k <= 3 + |versions| + |rest|
    ensures var s := [flags, |versions|] + versions + [preferred] + rest;
            var r := ParseHello(s[..k], init);
            && (k < 4 ==> r == init)
            && (4 <= k <= 2 + |versions| ==> r == init.(versions := versions[..k - 2]))
            && (4 <= k && 3 + |versions| <= k ==>
                  r == ParseClientVersion(init.(versions := versions, preferred := preferred), flags % 2 == 1,
                                          rest[..k - 3 - |versions|]))
  {
    var s := [flags, |versions|] + versions + [preferred] + rest;
    var t := s[..k];
    var n := |versions|;
    if 4 <= k <= 2 + n {
      assert t[2..] == versions[..k - 2];
    } else if k >= 4 {
      assert t[2..2 + n] == versions && t[3 + n..] == rest[..k - 3 - n];
    }
  }

  /** An ack cut short keeps the fields that are complete; below three bytes nothing is read, not even a rejection. */
  lemma CutAck(a: Ack, init: Ack, k: nat)
    requires |a.serverVersion| <= 255 && |a.platform| <= 255 && k <= |AckBytes(a)|
    ensures var r := ParseAck(AckBytes(a)[..k], init);
            var platform := 3 + |a.serverVersion|;
            var base := init.(rejected := a.rejected, agreed := a.agreed);
            && (k < 3 ==> r == init)
            && (3 <= k < platform ==> r == base)
            && (3 <= k && platform <= k < platform + 1 + |a.platform| ==> r == base.(serverVersion := a.serverVersion))
  {
    var tail := ([|a.platform|] + a.platform) + OptionalField(a.reason);
    var rest := ([|a.serverVersion|] + a.serverVersion) + tail;
    AckGrouped(a);
    if k >= 3 {
      var t := AckBytes(a)[..k];
      assert t[2..] == rest[..k - 2];
      CutShort(a.serverVersion, tail, k - 2);
      if k >= 3 + |a.serverVersion| {
        CutShort(a.platform, OptionalField(a.reason), k - 3 - |a.serverVersion|);
      }
    }
  }

  lemma AckGrouped(a: Ack)
    requires |a.serverVersion| <= 255 && |a.platform| <= 255
    ensures AckBytes(a)
            == [AckFlags(a), a.agreed]
               + (([|a.serverVersion|] + a.serverVersion) + (([|a.platform|] + a.platform) + OptionalField(a.reason)))
  {
    ShortIs(a.serverVersion);
    ShortIs(a.platform);
  }

  // ---------------------------------------------------------------- layout

  /** Where the fields of a hello stand, within the limits of their length bytes. */
  lemma HelloFields(h: Hello)
    requires |h.versions| <= 255 && |h.clientVersion| <= 255 && |h.platform| <= 255 && |h.capabilities| <= 255
    ensures var s := HelloBytes(h);
            var preferred := 2 + |h.versions|;
            var platform := preferred + 2 + |h.clientVersion|;
            var capabilities := platform + 1 + |h.platform|;
            && s[0] == (if h.capabilities != [] then 1 else 0) && s[1] == |h.versions| && Stands(s, 2, h.versions)
            && Stands(s, preferred, [h.preferred]) && ShortAt(s, preferred + 1, h.clientVersion)
            && ShortAt(s, platform, h.platform)
            && s[capabilities..]
               == (if h.capabilities == [] then [] else [|h.capabilities|] + Flat(h.capabilities))
  {
    ShortIs(h.clientVersion);
    ShortIs(h.platform);
    CapabilitiesAre(h.capabilities);
    HelloParts(HelloFlags(h), h.versions, h.preferred, h.clientVersion, h.platform, CapabilityPart(h.capabilities));
  }

  lemma CapabilitiesAre(caps: seq<bytes>)
    requires |caps| <= 255
    ensures CapabilityPart(caps) == if caps == [] then [] else [|caps|] + Flat(caps)
  {
    ByteCount(|caps|);
  }

  lemma ByteCount(n: nat)
    requires n <= 255
    ensures n % 256 == n
  {
  }

  lemma HelloParts(flags: byte, versions: bytes, preferred: byte, clientVersion: bytes, platform: bytes, rest: bytes)
    requires |versions| <= 255 && |clientVersion| <= 255 && |platform| <= 255
    ensures var s := [flags, |versions|] + versions + [preferred] + ([|clientVersion|] + clientVersion)
                     + ([|platform|] + platform) + rest;
            var at := 3 + |versions|;
            && s[0] == flags && s[1] == |versions| && Stands(s, 2, versions) && Stands(s, at - 1, [preferred])
            && ShortAt(s, at, clientVersion) && ShortAt(s, at + 1 + |clientVersion|, platform)
            && s[at + 2 + |clientVersion| + |platform|..] == rest
  {
    var head := [flags, |versions|] + versions;
    var s := head + [preferred] + ([|clientVersion|] + clientVersion) + ([|platform|] + platform) + rest;
    FiveStand(head, [preferred], [|clientVersion|] + clientVersion, [|platform|] + platform, rest);
    StandsWithin(s, 0, head, 2, versions);
  }

  /** Where the fields of an ack stand. */
  lemma AckLayout(a: Ack)
    requires |a.serverVersion| <= 255 && |a.platform| <= 255 && |a.reason| <= 255
    ensures var s := AckBytes(a);
            var reason := 4 + |a.serverVersion| + |a.platform|;
            && (s[0] % 2 == 1 <==> a.rejected) && (s[0] / 2 == 1 <==> a.reason != []) && s[1] == a.agreed
            && ShortAt(s, 2, a.serverVersion) && ShortAt(s, 3 + |a.serverVersion|, a.platform)
            && FieldAt(s, reason, a.reason) && |s| == reason + FieldSize(a.reason)
  {
    FiveStand([AckFlags(a), a.agreed], Short(a.serverVersion), Short(a.platform), OptionalField(a.reason), []);
    var parts := [AckFlags(a), a.agreed] + Short(a.serverVersion) + Short(a.platform) + OptionalField(a.reason);
    assert parts + [] == AckBytes(a);
  }

  /** Where the fields of a channel announce stand. */
  lemma ChannelLayout(c: ChannelAnnounce)
    requires |c.channel| <= 255
    ensures var s := ChannelBytes(c);
            && s[0] == (if c.joining then 1 else 0) && ShortAt(s, 1, c.channel) && |s| == 2 + |c.channel|
  {
  }

  // ---------------------------------------------------------------- negotiation

  /** negotiateVersion: the last client version the server knows, or 0. */
  function Negotiate(client: bytes, server: bytes): (r: byte)
    ensures r != 0 ==> r in client && r in server
  {
    if client == [] then 0
    else
      var v := client[|client| - 1];
      if v in server then v else Negotiate(client[..|client| - 1], server)
  }

  predicate Ascending(s: bytes) {
    forall i, j :: 0 <= i < j < |s| ==> s[i] < s[j]
  }

  ghost predicate Disjoint(a: bytes, b: bytes) {
    forall v :: v in a ==> v !in b
  }

  /** Nothing is agreed exactly when no version is shared (0 is not a version). */
  lemma {:induction false} NegotiationFailsIffDisjoint(client: bytes, server: bytes)
    requires 0 !in client
    ensures Negotiate(client, server) == 0 <==> Disjoint(client, server)
  {
    if client != [] {
      var k := |client| - 1;
      assert client == client[..k] + [client[k]];
      if client[k] !in server {
        NegotiationFailsIffDisjoint(client[..k], server);
      }
    }
  }

  /** For an ascending client list the agreed version is the greatest one shared. */
  lemma {:induction false} NegotiationIsMaximal(client: bytes, server: bytes)
    requires Ascending(client)
    ensures forall v :: v in client && v in server ==> v <= Negotiate(client, server)
  {
    if client != [] {
      var k := |client| - 1;
      assert client == client[..k] + [client[k]];
      if client[k] !in server {
        NegotiationIsMaximal(client[..k], server);
      }
    }
  }

  /** Ascending lists negotiate the same version whoever is the client. */
  lemma NegotiationIsSymmetric(a: bytes, b: bytes)
    requires Ascending(a) && Ascending(b)
    ensures Negotiate(a, b) == Negotiate(b, a)
  {
    NegotiationIsMaximal(a, b);
    NegotiationIsMaximal(b, a);
  }

  /** Without the order the result depends on who is the client. */
  lemma NegotiationNeedsOrder()
    ensures Negotiate([2, 1], [1, 2]) == 1 && Negotiate([1, 2], [2, 1]) == 2
  {
    assert Negotiate([2, 1], [1, 2]) == 1;
  }

  /** "1, 2, 3": the versions as the rejection reason lists them. */
  function VersionList(versions: bytes): (r: bytes) {
    if versions == [] then []
    else if |versions| == 1 then Decimal(versions[0])
    else VersionList(versions[..|versions| - 1]) + [44, 32] + Decimal(versions[|versions| - 1])
  }

  const CLIENT_VERSION := Ascii("1.0")
  const PLATFORM := Ascii("cpp")
  const SUPPORTED_VERSIONS: bytes := [1]

  /** The ack with which a node supporting `ours` answers a hello. */
  function Answer(hello: Hello, ours: bytes): (a: Ack)
    ensures a.rejected <==> a.agreed == 0
  {
    var agreed := Negotiate(hello.versions, ours);
    if agreed > 0 then Ack(agreed, CLIENT_VERSION, PLATFORM, false, [])
    else Ack(0, CLIENT_VERSION, PLATFORM, true,
             Ascii("No compatible protocol version. Client supports: ") + VersionList(hello.versions)
             + Ascii(", server supports: ") + VersionList(ours))
  }

  /** A rejection says which versions either side supports. */
  lemma RejectionIsExplained(hello: Hello)
    requires hello.versions == [2, 10]
    ensures var a := Answer(hello, [1]);
            && a.rejected
            && a.reason == Ascii("No compatible protocol version. Client supports: ") + [50, 44, 32, 49, 48]
                           + Ascii(", server supports: ") + [49]
  {
    ListOfTwo();
  }

  lemma ListOfTwo()
    ensures VersionList([2, 10]) == [50, 44, 32, 49, 48]
  {
    var v: bytes := [2, 10];
    assert v[..1] == [2];
    assert VersionList([2]) == [50];
    assert Decimal(10) == [49, 48];
  }

  /**
    Hello printed, parsed, answered, ack printed, parsed: the client learns the version the two lists give, or a
    rejection, and a rejection exactly when the lists are disjoint.
   */
  lemma NegotiationAgreement(h: Hello, ours: bytes, initHello: Hello, initAck: Ack)
    requires |h.versions| <= 255 && |h.capabilities| <= 255 && 0 !in h.versions
    ensures var heard := ParseHello(HelloBytes(h), initHello);
            var learnt := ParseAck(AckBytes(Answer(heard, ours)), initAck);
            && learnt.agreed == Negotiate(h.versions, ours)
            && (learnt.rejected <==> Disjoint(h.versions, ours))
            && (!learnt.rejected ==> learnt.agreed in h.versions && learnt.agreed in ours)
            && (Ascending(h.versions) ==> forall v :: v in h.versions && v in ours ==> v <= learnt.agreed)
  {
    HelloRoundTrip(h, initHello, []);
    assert HelloBytes(h) + [] == HelloBytes(h);
    var a := Answer(ParseHello(HelloBytes(h), initHello), ours);
    AckRoundTrip(a, initAck, []);
    assert AckBytes(a) + [] == AckBytes(a);
    NegotiationFailsIffDisjoint(h.versions, ours);
    if Ascending(h.versions) {
      NegotiationIsMaximal(h.versions, ours);
    }
  }

  // ---------------------------------------------------------------- the serializer's methods

  method WriteCapabilities(data: bytes, capabilities: seq<bytes>) returns (out: bytes)
    ensures out == data + CapabilityPart(capabilities)
  {
    out := data;
    if capabilities != [] {
      out := out + [|capabilities| % 256];
      out := WriteStrings(out, capabilities);
      Associate(data, [|capabilities| % 256], Flat(capabilities));
    }
  }

  method MakeVersionHelloPayload(h: Hello) returns (data: bytes)
    ensures data == HelloBytes(h)
  {
    data := [if h.capabilities != [] then 1 else 0, |h.versions| % 256];
    ghost var front := data;
    for i := 0 to |h.versions|
      invariant data == front + h.versions[..i]
    {
      data := data + [h.versions[i]];
    }
    assert data == front + h.versions;
    data := data + [h.preferred];
    data := WriteShort(data, h.clientVersion);
    data := WriteShort(data, h.platform);
    data := WriteCapabilities(data, h.capabilities);
  }

  /** The search from the back of the client's list. */
  method NegotiateVersion(client: bytes, server: bytes) returns (r: byte)
    ensures r == Negotiate(client, server)
  {
    var i := |client|;
    assert client[..i] == client;
    while i > 0
      invariant i <= |client| && Negotiate(client[..i], server) == Negotiate(client, server)
    {
      i := i - 1;
      assert client[..i + 1][..i] == client[..i];
      if client[i] in server {
        return client[i];
      }
    }
    r := 0;
  }

  /** The loop that lists the versions for the rejection reason. */
  method JoinVersions(versions: bytes) returns (text: bytes)
    ensures text == VersionList(versions)
  {
    text := [];
    for i := 0 to |versions|
      invariant text == VersionList(versions[..i])
    {
      assert versions[..i + 1][..i] == versions[..i];
      if i > 0 {
        text := text + [44, 32];
      }
      text := text + Decimal(versions[i]);
    }
    assert versions[..|versions|] == versions;
  }

  /** The two branches of handleVersionHello. */
  method AnswerHello(hello: Hello) returns (ack: Ack)
    ensures ack == Answer(hello, SUPPORTED_VERSIONS)
  {
    var agreed := NegotiateVersion(hello.versions, SUPPORTED_VERSIONS);
    if agreed > 0 {
      ack := Ack(agreed, CLIENT_VERSION, PLATFORM, false, []);
    } else {
      var theirs := JoinVersions(hello.versions);
      var ours := JoinVersions(SUPPORTED_VERSIONS);
      var reason := Ascii("No compatible protocol version. Client supports: ") + theirs + Ascii(", server supports: ")
                    + ours;
      ack := Ack(0, CLIENT_VERSION, PLATFORM, true, reason);
    }
  }

  method ParseChannelAnnouncePayload(payload: bytes, init: ChannelAnnounce) returns (news: ChannelAnnounce)
    ensures news == ParseChannel(payload, init)
  {
    news := init;
    if |payload| < 2 {
      return;
    }
    var offset := 2;
    news := news.(joining := payload[0] != 0);
    var channelLen := payload[1];
    if offset + channelLen <= |payload| {
      news := news.(channel := payload[offset..offset + channelLen]);
    }
  }

  method MakeVersionAckPayload(a: Ack) returns (data: bytes)
    ensures data == AckBytes(a)
  {
    var flags := 0;
    if a.rejected {
      flags := flags + 1;
    }
    if a.reason != [] {
      flags := flags + 2;
    }
    data := [flags, a.agreed];
    data := WriteShort(data, a.serverVersion);
    data := WriteShort(data, a.platform);
    data := WriteOptional(data, a.reason);
  }

  // Reading by offset.

  method ReadShort(payload: bytes, offset: nat) returns (ok: bool, value: bytes, next: nat)
    requires offset <= |payload|
    ensures next <= |payload|
    ensures TakeShort(payload[offset..]) == if ok then Some((value, payload[next..])) else None
  {
    ok, value, next := false, [], offset;
    if offset >= |payload| {
      return;
    }
    var len := payload[offset];
    if offset + 1 + len > |payload| {
      return;
    }
    next := offset + 1 + len;
    value := payload[offset + 1..next];
    ok := true;
    assert payload[offset..][1..1 + len] == value && payload[offset..][1 + len..] == payload[next..];
  }

  method ReadCapabilities(payload: bytes, offset: nat, count: byte) returns (capabilities: seq<bytes>)
    requires offset <= |payload|
    ensures capabilities == TakeCapabilities(count, payload[offset..])
  {
    capabilities := [];
    var next: nat := offset;
    ghost var all := TakeCapabilities(count, payload[offset..]);
    for i := 0 to count
      invariant next <= |payload|
      invariant all == capabilities + TakeCapabilities(count - i, payload[next..])
    {
      var ok, cap, after := ReadShort(payload, next);
      if !ok {
        return;
      }
      ghost var rest := TakeCapabilities(count - i - 1, payload[after..]);
      assert capabilities + ([cap] + rest) == (capabilities + [cap]) + rest;
      capabilities := capabilities + [cap];
      next := after;
    }
  }

  method ReadHelloTexts(payload: bytes, offset: nat, hasCapabilities: bool, init: Hello) returns (hello: Hello)
    requires offset <= |payload|
    ensures hello == ParseClientVersion(init, hasCapabilities, payload[offset..])
  {
    hello := init;
    var ok, text, next := ReadShort(payload, offset);
    if !ok {
      return;
    }
    hello := hello.(clientVersion := text);
    ok, text, next := ReadShort(payload, next);
    if !ok {
      return;
    }
    hello := hello.(platform := text, capabilities := []);
    if hasCapabilities && next < |payload| {
      assert payload[next..][1..] == payload[next + 1..];
      var capabilities := ReadCapabilities(payload, next + 1, payload[next]);
      hello := hello.(capabilities := capabilities);
    }
  }

  /** The version list, cut short when the payload ends first. */
  method ReadVersions(payload: bytes, count: byte) returns (versions: bytes, offset: nat)
    requires |payload| >= 2
    ensures offset == 2 + Min(count, |payload| - 2) && versions == payload[2..offset]
  {
    versions, offset := [], 2;
    var i := 0;
    while i < count && offset < |payload|
      invariant 0 <= i <= count && offset == 2 + i <= |payload|
      invariant versions == payload[2..offset]
    {
      versions := versions + [payload[offset]];
      offset := offset + 1;
      i := i + 1;
    }
  }

  method ParseVersionHelloPayload(payload: bytes, init: Hello) returns (hello: Hello)
    ensures hello == ParseHello(payload, init)
  {
    if |payload| < 4 {
      return init;
    }
    var versions, offset := ReadVersions(payload, payload[1]);
    hello := init.(versions := versions);
    if offset >= |payload| {
      return;
    }
    hello := hello.(preferred := payload[offset]);
    hello := ReadHelloTexts(payload, offset + 1, payload[0] % 2 == 1, hello);
  }

  method ParseVersionAckPayload(payload: bytes, init: Ack) returns (ack: Ack)
    ensures ack == ParseAck(payload, init)
  {
    ack := init;
    if |payload| < 3 {
      return;
    }
    ack := ack.(rejected := payload[0] % 2 == 1, agreed := payload[1]);
    var hasReason := payload[0] / 2 % 2 == 1;
    var ok, text, next := ReadShort(payload, 2);
    if !ok {
      return;
    }
    ack := ack.(serverVersion := text);
    ok, text, next := ReadShort(payload, next);
    if !ok {
      return;
    }
    ack := ack.(platform := text, reason := []);
    if hasReason {
      ok, text, next := ReadShort(payload, next);
      if ok {
        ack := ack.(reason := text);
      }
    }
  }
}
