/** message_service.cpp: what one node does with one received packet, and which packets it sends itself. */
module MessageService {
  import opened Bytes
  import opened Text
  import opened PacketCodec
  import opened MessageCodec
  import opened NodeData
  import opened Noise
  import VC = VersionCodec

  /** A node: its 8-byte identity, of which its peer ID is the hexadecimal text, and its mutable state. */
  datatype Node = Node(
    identity: bytes, nickname: bytes, channel: bytes, peers: seq<Peer>, processed: set<bytes>, sessions: Table,
    staticKey: StaticKey)
  {
    function PeerID(): bytes { HexOf(identity) }
  }

  /**
    What a handler takes from outside: the millisecond clock, the second clock, the link the packet came from, and the
    value of the boolean that the ack and channel handlers leave uninitialised when a payload is too short.
   */
  datatype Env = Env(clock: uint64, now: int, peripheralID: bytes, garbage: bool)

  datatype Entry = Entry(channel: bytes, message: Message)

  /** The node afterwards, the packet broadcast in reply, the history entry made, and whether an exception escaped. */
  datatype Outcome = Outcome(node: Node, reply: Option<Packet>, recorded: Option<Entry>, threw: bool)

  function Quiet(n: Node): Outcome {
    Outcome(n, None, None, false)
  }

  function Replying(n: Node, reply: Packet): Outcome {
    Outcome(n, Some(reply), None, false)
  }

  function Thrown(n: Node): Outcome {
    Outcome(n, None, None, true)
  }

  // ---------------------------------------------------------------- handlers

  function HelloReply(n: Node, p: Packet, ack: VC.Ack, clock: uint64): Packet {
    NewPacket(TYPE_VERSION_ACK, VC.AckBytes(ack), clock).(senderID := n.identity, recipientID := p.senderID, ttl := 1)
  }

  /** The ack is sent; a client that was not rejected becomes a peer if it is not one. */
  function Greeted(n: Node, p: Packet, ack: VC.Ack, clientVersion: bytes, env: Env): Outcome {
    var peerID := HexOf(p.senderID);
    var peer := Peer(peerID, [], clientVersion, [], env.now, -100, false);
    var adds := !ack.rejected && FindPeer(n.peers, peerID).None?;
    Replying(if adds then n.(peers := PutPeer(n.peers, peer)) else n, HelloReply(n, p, ack, env.clock))
  }

  function HelloOutcome(n: Node, p: Packet, env: Env): Outcome {
    if p.payload == [] then Quiet(n)
    else
      var hello := VC.ParseHello(p.payload, VC.Hello([], 0, [], [], []));
      Greeted(n, p, VC.Answer(hello, VC.SUPPORTED_VERSIONS), hello.clientVersion, env)
  }

  function AckOutcome(n: Node, p: Packet, env: Env): Outcome {
    if p.payload == [] then Quiet(n)
    else
      var ack := VC.ParseAck(p.payload, VC.Ack(0, [], [], env.garbage, []));
      Quiet(if ack.rejected then n.(peers := DropPeer(n.peers, HexOf(p.senderID))) else n)
  }

  /** Whether a message is kept, and under which channel name. */
  function Accepted(n: Node, m: Message): Option<Entry> {
    if m.channel == n.channel || (m.channel == [] && n.channel == [])
       || (m.isPrivate && m.recipientNickname == n.nickname)
    then Some(Entry(if m.channel == [] && m.isPrivate then Ascii("private") else m.channel, m))
    else None
  }

  function MessageOutcome(n: Node, sender: bytes, payload: bytes): Outcome {
    match ParseMessage(payload)
    case OutOfBounds => Thrown(n)
    case Got(m) => if HexOf(sender) == n.PeerID() then Quiet(n) else Outcome(n, None, Accepted(n, m), false)
  }

  /** A known peer's channel is replaced. */
  function WithChannel(ps: seq<Peer>, id: bytes, channel: bytes): seq<Peer> {
    match FindPeer(ps, id)
    case None => ps
    case Some(peer) => PutPeer(ps, peer.(channel := channel))
  }

  function ChannelOutcome(n: Node, p: Packet, env: Env): Outcome {
    var news := VC.ParseChannel(p.payload, VC.ChannelAnnounce([], env.garbage));
    Quiet(n.(peers := WithChannel(n.peers, HexOf(p.senderID), if news.joining then news.channel else [])))
  }

  /** A known peer is seen again, a new one is added. */
  function WithAnnounced(ps: seq<Peer>, id: bytes, nickname: bytes, env: Env): seq<Peer> {
    match FindPeer(ps, id)
    case Some(peer) =>
      var link := if env.peripheralID != [] then env.peripheralID else peer.peripheralID;
      PutPeer(ps, peer.(lastSeen := env.now, peripheralID := link))
    case None => PutPeer(ps, Peer(id, env.peripheralID, nickname, [], env.now, -100, true))
  }

  function AnnounceOutcome(n: Node, p: Packet, env: Env): Outcome {
    Quiet(n.(peers := WithAnnounced(n.peers, HexOf(p.senderID), p.payload, env)))
  }

  function LeaveOutcome(n: Node, p: Packet): Outcome {
    Quiet(n.(peers := DropPeer(n.peers, HexOf(p.senderID))))
  }

  /** A Noise packet this node sends: it carries the node's identity and the default TTL. */
  function NoisePacket(n: Node, typ: byte, payload: bytes, clock: uint64): Packet {
    NewPacket(typ, payload, clock).(senderID := n.identity)
  }

  /** An init is answered whenever there is a response, a response only by one of 96 or 48 bytes. */
  predicate AnswersHandshake(typ: byte, response: bytes) {
    if typ == TYPE_NOISE_INIT then response != [] else |response| == 96 || |response| == 48
  }

  function HandshakeOutcome(n: Node, p: Packet, env: Env): Outcome {
    var peerID := HexOf(p.senderID);
    if peerID == n.PeerID() || HasEstablished(n.sessions, peerID) then Quiet(n)
    else match Incoming(n.sessions, peerID, n.PeerID())
         case None => Thrown(n)
         case Some(t) =>
           var response := ResponseMessage(n.staticKey);
           if AnswersHandshake(p.typ, response)
           then Replying(n.(sessions := t), NoisePacket(n, TYPE_NOISE_RESP, response, env.clock))
           else Quiet(n.(sessions := t))
  }

  function EncryptedOutcome(n: Node, p: Packet): Outcome {
    var peerID := HexOf(p.senderID);
    if peerID == n.PeerID() then Quiet(n)
    else match Used(n.sessions, peerID)
         case None => Thrown(n)
         case Some(t) =>
           if p.payload == [] then Quiet(n.(sessions := t))
           else MessageOutcome(n.(sessions := t), p.senderID, p.payload)
  }

  function IdentityOutcome(n: Node, p: Packet, env: Env): Outcome {
    var peerID := HexOf(p.senderID);
    if peerID == n.PeerID() || !Less(n.PeerID(), peerID) then Quiet(n)
    else match Initiated(n.sessions, peerID)
         case None => Thrown(n)
         case Some(t) =>
           Replying(n.(sessions := t), NoisePacket(n, TYPE_NOISE_INIT, InitMessage(n.staticKey), env.clock))
  }

  function Dispatched(n: Node, p: Packet, env: Env): Outcome {
    if p.typ == TYPE_VERSION_HELLO then HelloOutcome(n, p, env)
    else if p.typ == TYPE_VERSION_ACK then AckOutcome(n, p, env)
    else if p.typ == TYPE_MESSAGE then MessageOutcome(n, p.senderID, p.payload)
    else if p.typ == TYPE_CHANNEL_ANNOUNCE then ChannelOutcome(n, p, env)
    else if p.typ == TYPE_ANNOUNCE then AnnounceOutcome(n, p, env)
    else if p.typ == TYPE_LEAVE then LeaveOutcome(n, p)
    else if p.typ == TYPE_NOISE_INIT || p.typ == TYPE_NOISE_RESP then HandshakeOutcome(n, p, env)
    else if p.typ == TYPE_NOISE_ENCRYPTED then EncryptedOutcome(n, p)
    else if p.typ == TYPE_NOISE_IDENTITY then IdentityOutcome(n, p, env)
    else Quiet(n)
  }

  /** processPacket: validate, screen duplicates, mark, dispatch. */
  function Processed(n: Node, p: Packet, env: Env): Outcome {
    var key := PacketKey(p.senderID, p.timestamp);
    if !p.IsValid() || key in n.processed then Quiet(n)
    else Dispatched(n.(processed := Marked(n.processed, key)), p, env)
  }

  // ---------------------------------------------------------------- what every handler keeps

  /** How long a chain of replies a packet can start. */
  function Rank(typ: byte): (r: nat)
    ensures r <= 2
  {
    if typ == TYPE_NOISE_IDENTITY then 2
    else if typ == TYPE_NOISE_INIT || typ == TYPE_VERSION_HELLO then 1
    else 0
  }

  predicate CarriesMessage(typ: byte) {
    typ == TYPE_MESSAGE || typ == TYPE_NOISE_ENCRYPTED
  }

  ghost predicate ReplyOk(n: Node, p: Packet, reply: Packet) {
    && Rank(reply.typ) < Rank(p.typ) && reply.ttl <= PKT_TTL && reply.typ != 0
    && !CarriesMessage(reply.typ) && reply.senderID == n.identity
    && (reply.typ == TYPE_NOISE_INIT ==> !AllEstablished(n.sessions))
  }

  /** Peers come from the old list or are the packet's sender, and stay unique. */
  ghost predicate PeersOk(before: seq<Peer>, after: seq<Peer>, sender: bytes) {
    && (Unique(before) ==> Unique(after))
    && forall id :: FindPeer(after, id).Some? ==> FindPeer(before, id).Some? || id == sender
  }

  /** The contract of a handler for a packet. */
  ghost predicate OutcomeOk(n: Node, p: Packet, o: Outcome) {
    && o.node.identity == n.identity && o.node.staticKey == n.staticKey
    && o.node.nickname == n.nickname && o.node.channel == n.channel
    && PeersOk(n.peers, o.node.peers, HexOf(p.senderID))
    && (AllEstablished(n.sessions) ==> AllEstablished(o.node.sessions))
    && (o.reply.Some? ==> ReplyOk(n, p, o.reply.value))
    && (o.threw ==> o.reply.None? && o.recorded.None?)
    && (o.recorded.Some? ==>
          && CarriesMessage(p.typ) && ParseMessage(p.payload) == Got(o.recorded.value.message)
          && HexOf(p.senderID) != n.PeerID())
  }

  lemma PutOk(ps: seq<Peer>, peer: Peer)
    ensures PeersOk(ps, PutPeer(ps, peer), peer.peerID)
  {
    if Unique(ps) {
      PutKeepsUnique(ps, peer);
    }
    forall id ensures FindPeer(PutPeer(ps, peer), id) == if id == peer.peerID then Some(peer) else FindPeer(ps, id) {
      FindAfterPut(ps, peer, id);
    }
  }

  lemma DropOk(ps: seq<Peer>, gone: bytes)
    ensures PeersOk(ps, DropPeer(ps, gone), gone)
  {
    if Unique(ps) {
      DropKeepsUnique(ps, gone);
    }
    forall id ensures FindPeer(DropPeer(ps, gone), id) == if id == gone then None else FindPeer(ps, id) {
      FindAfterDrop(ps, gone, id);
    }
  }

  lemma HelloReplyOk(n: Node, p: Packet, ack: VC.Ack, clock: uint64)
    requires p.typ == TYPE_VERSION_HELLO
    ensures ReplyOk(n, p, HelloReply(n, p, ack, clock))
  {
  }

  lemma ReplyingOk(n: Node, p: Packet, peers: seq<Peer>, reply: Packet)
    requires ReplyOk(n, p, reply) && PeersOk(n.peers, peers, HexOf(p.senderID))
    ensures OutcomeOk(n, p, Replying(n.(peers := peers), reply))
  {
  }

  lemma HelloOk(n: Node, p: Packet, env: Env)
    requires p.typ == TYPE_VERSION_HELLO
    ensures OutcomeOk(n, p, HelloOutcome(n, p, env))
  {
    var hello := VC.ParseHello(p.payload, VC.Hello([], 0, [], [], []));
    var peer := Peer(HexOf(p.senderID), [], hello.clientVersion, [], env.now, -100, false);
    var ack := VC.Answer(hello, VC.SUPPORTED_VERSIONS);
    PutOk(n.peers, peer);
    HelloReplyOk(n, p, ack, env.clock);
    ReplyingOk(n, p, n.peers, HelloReply(n, p, ack, env.clock));
    ReplyingOk(n, p, PutPeer(n.peers, peer), HelloReply(n, p, ack, env.clock));
  }

  lemma AckOk(n: Node, p: Packet, env: Env)
    requires p.typ == TYPE_VERSION_ACK
    ensures OutcomeOk(n, p, AckOutcome(n, p, env))
  {
    DropOk(n.peers, HexOf(p.senderID));
  }

  lemma MessageOk(n: Node, p: Packet)
    requires CarriesMessage(p.typ)
    ensures OutcomeOk(n, p, MessageOutcome(n, p.senderID, p.payload))
  {
  }

  lemma ChannelOk(n: Node, p: Packet, env: Env)
    ensures OutcomeOk(n, p, ChannelOutcome(n, p, env))
  {
    var news := VC.ParseChannel(p.payload, VC.ChannelAnnounce([], env.garbage));
    var found := FindPeer(n.peers, HexOf(p.senderID));
    if found.Some? {
      PutOk(n.peers, found.value.(channel := if news.joining then news.channel else []));
    }
  }

  lemma AnnounceOk(n: Node, p: Packet, env: Env)
    ensures OutcomeOk(n, p, AnnounceOutcome(n, p, env))
  {
    var found := FindPeer(n.peers, HexOf(p.senderID));
    if found.Some? {
      var link := if env.peripheralID != [] then env.peripheralID else found.value.peripheralID;
      PutOk(n.peers, found.value.(lastSeen := env.now, peripheralID := link));
    } else {
      PutOk(n.peers, Peer(HexOf(p.senderID), env.peripheralID, p.payload, [], env.now, -100, true));
    }
  }

  lemma LeaveOk(n: Node, p: Packet)
    ensures OutcomeOk(n, p, LeaveOutcome(n, p))
  {
    DropOk(n.peers, HexOf(p.senderID));
  }

  lemma HandshakeOk(n: Node, p: Packet, env: Env)
    ensures OutcomeOk(n, p, HandshakeOutcome(n, p, env))
  {
  }

  lemma IdentityOk(n: Node, p: Packet, env: Env)
    requires p.typ == TYPE_NOISE_IDENTITY
    ensures OutcomeOk(n, p, IdentityOutcome(n, p, env))
  {
  }

  lemma EncryptedOk(n: Node, p: Packet)
    requires p.typ == TYPE_NOISE_ENCRYPTED
    ensures OutcomeOk(n, p, EncryptedOutcome(n, p))
  {
    var t := Used(n.sessions, HexOf(p.senderID));
    if t.Some? {
      MessageOk(n.(sessions := t.value), p);
    }
  }

  lemma DispatchOk(n: Node, p: Packet, env: Env)
    ensures OutcomeOk(n, p, Dispatched(n, p, env))
  {
    if p.typ == TYPE_VERSION_HELLO {
      HelloOk(n, p, env);
    } else if p.typ == TYPE_VERSION_ACK {
      AckOk(n, p, env);
    } else if p.typ == TYPE_MESSAGE {
      MessageOk(n, p);
    } else if p.typ == TYPE_NOISE_ENCRYPTED {
      EncryptedOk(n, p);
    } else if p.typ == TYPE_NOISE_INIT || p.typ == TYPE_NOISE_RESP {
      HandshakeOk(n, p, env);
    } else if p.typ == TYPE_NOISE_IDENTITY {
      IdentityOk(n, p, env);
    } else {
      ChannelOk(n, p, env);
      AnnounceOk(n, p, env);
      LeaveOk(n, p);
    }
  }

  /** Every packet a node processes keeps the contract; an invalid one changes and sends nothing. */
  lemma ProcessingOk(n: Node, p: Packet, env: Env)
    ensures OutcomeOk(n, p, Processed(n, p, env))
    ensures !p.IsValid() ==> Processed(n, p, env) == Quiet(n)
  {
    var key := PacketKey(p.senderID, p.timestamp);
    if p.IsValid() && key !in n.processed {
      DispatchOk(n.(processed := Marked(n.processed, key)), p, env);
    }
  }

  // ---------------------------------------------------------------- what single packets bring about

  /** A valid packet that was not seen before reaches its handler. */
  predicate Arriving(n: Node, p: Packet) {
    p.IsValid() && PacketKey(p.senderID, p.timestamp) !in n.processed
  }

  /** An announce makes its sender a peer that is online at that moment; a leave removes it. */
  lemma AnnounceAndLeave(n: Node, p: Packet, env: Env)
    requires Arriving(n, p)
    ensures p.typ == TYPE_ANNOUNCE ==> IsOnline(Processed(n, p, env).node.peers, HexOf(p.senderID), env.now)
    ensures p.typ == TYPE_LEAVE ==> FindPeer(Processed(n, p, env).node.peers, HexOf(p.senderID)).None?
  {
    var peerID := HexOf(p.senderID);
    if p.typ == TYPE_ANNOUNCE {
      var found := FindPeer(n.peers, peerID);
      if found.Some? {
        var link := if env.peripheralID != [] then env.peripheralID else found.value.peripheralID;
        FindAfterPut(n.peers, found.value.(lastSeen := env.now, peripheralID := link), peerID);
      } else {
        FindAfterPut(n.peers, Peer(peerID, env.peripheralID, p.payload, [], env.now, -100, true), peerID);
      }
    } else if p.typ == TYPE_LEAVE {
      FindAfterDrop(n.peers, peerID, peerID);
    }
  }

  lemma HelloIsHeard(h: VC.Hello, init: VC.Hello)
    requires |h.versions| <= 255 && |h.capabilities| <= 255
    ensures VC.ParseHello(VC.HelloBytes(h), init).versions == h.versions && VC.HelloBytes(h) != []
  {
    VC.HelloRoundTrip(h, init, []);
    assert VC.HelloBytes(h) + [] == VC.HelloBytes(h);
  }

  lemma AckIsHeard(a: VC.Ack, init: VC.Ack)
    ensures VC.ParseAck(VC.AckBytes(a), init).rejected == a.rejected
    ensures VC.ParseAck(VC.AckBytes(a), init).agreed == a.agreed
  {
    VC.AckRoundTrip(a, init, []);
    assert VC.AckBytes(a) + [] == VC.AckBytes(a);
  }

  lemma AnswerOfOne(hello: VC.Hello)
    requires 0 !in hello.versions
    ensures VC.Answer(hello, VC.SUPPORTED_VERSIONS).rejected <==> 1 !in hello.versions
    ensures 1 in hello.versions ==> VC.Answer(hello, VC.SUPPORTED_VERSIONS).agreed == 1
  {
    VC.NegotiationFailsIffDisjoint(hello.versions, VC.SUPPORTED_VERSIONS);
    if 1 in hello.versions {
      assert 1 in VC.SUPPORTED_VERSIONS;
    }
  }

  /**
    A hello is always answered; the client reads a rejection exactly when it does not support version 1, and otherwise
    the agreement on 1, and then it is in the answering node's peer list.
   */
  lemma HelloExchange(n: Node, p: Packet, env: Env, h: VC.Hello, init: VC.Ack)
    requires p.typ == TYPE_VERSION_HELLO && p.payload == VC.HelloBytes(h)
    requires |h.versions| <= 255 && |h.capabilities| <= 255 && 0 !in h.versions
    ensures var o := HelloOutcome(n, p, env);
            && o.reply.Some?
            && var learnt := VC.ParseAck(o.reply.value.payload, init);
            && (learnt.rejected <==> 1 !in h.versions)
            && (!learnt.rejected ==> learnt.agreed == 1 && FindPeer(o.node.peers, HexOf(p.senderID)).Some?)
  {
    var peerID := HexOf(p.senderID);
    HelloIsHeard(h, VC.Hello([], 0, [], [], []));
    var hello := VC.ParseHello(p.payload, VC.Hello([], 0, [], [], []));
    var ack := VC.Answer(hello, VC.SUPPORTED_VERSIONS);
    AnswerOfOne(hello);
    AckIsHeard(ack, init);
    FindAfterPut(n.peers, Peer(peerID, [], hello.clientVersion, [], env.now, -100, false), peerID);
  }

  // ---------------------------------------------------------------- every run of one node

  datatype Receipt = Receipt(packet: Packet, env: Env)

  ghost function RunNode(n: Node, rs: seq<Receipt>): Node {
    if rs == [] then n
    else
      var k := |rs| - 1;
      Processed(RunNode(n, rs[..k]), rs[k].packet, rs[k].env).node
  }

  function IdentOf(p: Packet): Ident {
    Ident(p.senderID, p.timestamp)
  }

  /** The valid packets among those received, by what identifies them. */
  ghost function ValidOnes(rs: seq<Receipt>): seq<Ident> {
    if rs == [] then []
    else
      var k := |rs| - 1;
      if rs[k].packet.IsValid() then ValidOnes(rs[..k]) + [IdentOf(rs[k].packet)] else ValidOnes(rs[..k])
  }

  /** Those that reach a handler. */
  ghost function Handled(n: Node, rs: seq<Receipt>): seq<Ident> {
    if rs == [] then []
    else
      var k := |rs| - 1;
      var p := rs[k].packet;
      if p.IsValid() && Key(IdentOf(p)) !in RunNode(n, rs[..k]).processed
      then Handled(n, rs[..k]) + [IdentOf(p)]
      else Handled(n, rs[..k])
  }

  lemma DispatchKeepsProcessed(n: Node, p: Packet, env: Env)
    ensures Dispatched(n, p, env).node.processed == n.processed
  {
  }

  lemma ProcessedSetAfter(n: Node, p: Packet, env: Env)
    ensures Processed(n, p, env).node.processed
            == if p.IsValid() && Key(IdentOf(p)) !in n.processed then Marked(n.processed, Key(IdentOf(p)))
               else n.processed
  {
    var key := PacketKey(p.senderID, p.timestamp);
    DispatchKeepsProcessed(n.(processed := Marked(n.processed, key)), p, env);
  }

  lemma ScreenAppends(ps: seq<Ident>, p: Ident)
    ensures ScreenAll(Keys(ps + [p])) == Screen(ScreenAll(Keys(ps)), Key(p))
  {
    assert Keys(ps + [p]) == Keys(ps) + [Key(p)];
    assert Keys(ps + [p])[..|ps|] == Keys(ps);
  }

  lemma {:induction false} NodeFollowsScreening(n: Node, rs: seq<Receipt>)
    requires n.processed == {}
    ensures Screening(RunNode(n, rs).processed, Keys(Handled(n, rs))) == ScreenAll(Keys(ValidOnes(rs)))
  {
    if rs != [] {
      var k := |rs| - 1;
      var p := rs[k].packet;
      NodeFollowsScreening(n, rs[..k]);
      ProcessedSetAfter(RunNode(n, rs[..k]), p, rs[k].env);
      if p.IsValid() {
        ScreenAppends(ValidOnes(rs[..k]), IdentOf(p));
        assert Keys(Handled(n, rs[..k]) + [IdentOf(p)]) == Keys(Handled(n, rs[..k])) + [Key(IdentOf(p))];
      }
    }
  }

  /**
    Whatever a fresh node receives, the packets that reach a handler are those the screening of pairs accepts: no
    (sender, timestamp) is handled twice within an epoch, and the set has as many entries as packets were handled since.
   */
  lemma HandledOncePerEpoch(n: Node, rs: seq<Receipt>)
    requires n.processed == {}
    ensures Handled(n, rs) == ScreenAll(ValidOnes(rs)).accepted
    ensures DistinctWithinEpochs(Handled(n, rs))
    ensures |RunNode(n, rs).processed| == |Handled(n, rs)| % 1001
  {
    NodeFollowsScreening(n, rs);
    StringSetRefinesPairSet(ValidOnes(rs));
    DuplicatesSuppressedByEpoch(Keys(ValidOnes(rs)));
    KeysDetermine(Handled(n, rs), ScreenAll(ValidOnes(rs)).accepted);
  }

  lemma KeysDetermine(a: seq<Ident>, b: seq<Ident>)
    requires Keys(a) == Keys(b)
    ensures a == b
  {
    assert |a| == |b|;
    forall i | 0 <= i < |a| ensures a[i] == b[i] {
      assert Key(a[i]) == Keys(a)[i] == Keys(b)[i] == Key(b[i]);
      PacketKeyInjective(a[i].sender, a[i].timestamp, b[i].sender, b[i].timestamp);
    }
  }
}
