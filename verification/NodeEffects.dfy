/** What a packet of each type brings about at the node that handles it, and what two nodes bring about in exchange. */
module NodeEffects {
  import opened Bytes
  import opened Text
  import opened PacketCodec
  import opened MessageCodec
  import opened NodeData
  import opened Noise
  import opened MessageService
  import VC = VersionCodec

  /** The node once it has noted that it saw the packet. */
  function Noting(n: Node, p: Packet): Node {
    n.(processed := Marked(n.processed, PacketKey(p.senderID, p.timestamp)))
  }

  lemma ArrivingIsDispatched(n: Node, p: Packet, env: Env)
    requires Arriving(n, p)
    ensures Processed(n, p, env) == Dispatched(Noting(n, p), p, env)
  {
  }

  // ---------------------------------------------------------------- chat messages

  /** In the channel the node is in, or private and to the node's nickname. */
  predicate IsFor(n: Node, m: Message) {
    m.channel == n.channel || (m.isPrivate && m.recipientNickname == n.nickname)
  }

  /** Private messages without a channel have a history of their own. */
  function HistoryOf(m: Message): bytes {
    if m.isPrivate && m.channel == [] then Ascii("private") else m.channel
  }

  lemma MessageDispatch(n: Node, p: Packet, m: Message)
    requires ParseMessage(p.payload) == Got(m)
    ensures var o := MessageOutcome(n, p.senderID, p.payload);
            && o.node == n && o.reply.None? && !o.threw
            && (o.recorded.Some? <==> HexOf(p.senderID) != n.PeerID() && IsFor(n, m))
            && (o.recorded.Some? ==> o.recorded.value == Entry(HistoryOf(m), m))
  {
  }

  /** A message is kept exactly when another node sent it and it is for this one; nothing else happens. */
  lemma MessageIsKept(n: Node, p: Packet, env: Env, m: Message)
    requires Arriving(n, p) && p.typ == TYPE_MESSAGE && ParseMessage(p.payload) == Got(m)
    ensures var o := Processed(n, p, env);
            && o.node == Noting(n, p) && o.reply.None? && !o.threw
            && (o.recorded.Some? <==> HexOf(p.senderID) != n.PeerID() && IsFor(n, m))
            && (o.recorded.Some? ==> o.recorded.value == Entry(HistoryOf(m), m))
  {
    ArrivingIsDispatched(n, p, env);
    MessageDispatch(Noting(n, p), p, m);
  }

  /** A node that is in no channel keeps every private message without a channel, whoever it is for. */
  lemma PrivateIsKeptByAnyone(n: Node, p: Packet, env: Env, m: Message)
    requires Arriving(n, p) && p.typ == TYPE_MESSAGE && ParseMessage(p.payload) == Got(m)
    requires m.isPrivate && m.channel == [] && n.channel == [] && HexOf(p.senderID) != n.PeerID()
    ensures Processed(n, p, env).recorded == Some(Entry(Ascii("private"), m))
  {
    MessageIsKept(n, p, env, m);
  }

  /** What an encrypted packet from another node does to the session with its sender. */
  ghost predicate UsesSession(n: Node, id: bytes, o: Outcome) {
    && o.node == n.(sessions := o.node.sessions)
    && o.node.sessions
       == (if !HasEstablished(n.sessions, id) then n.sessions
           else n.sessions[id := n.sessions[id].(messageCount :=
                              (n.sessions[id].messageCount + 1) % 0x1_0000_0000_0000_0000)])
  }

  /** An encrypted message needs the sender's session, counts there, and unless empty is then kept like a plain one. */
  lemma EncryptedIsLikePlain(n: Node, p: Packet, env: Env, m: Message)
    requires Arriving(n, p) && p.typ == TYPE_NOISE_ENCRYPTED && ParseMessage(p.payload) == Got(m)
    requires HexOf(p.senderID) != n.PeerID()
    ensures var o := Processed(n, p, env);
            var id := HexOf(p.senderID);
            && o.reply.None? && UsesSession(Noting(n, p), id, o)
            && (o.threw <==> !HasEstablished(n.sessions, id))
            && (o.recorded.Some? <==> HasEstablished(n.sessions, id) && p.payload != [] && IsFor(n, m))
            && (o.recorded.Some? ==> o.recorded.value == Entry(HistoryOf(m), m))
  {
    ArrivingIsDispatched(n, p, env);
    EncryptedDispatch(Noting(n, p), p, m);
  }

  lemma EncryptedDispatch(n: Node, p: Packet, m: Message)
    requires ParseMessage(p.payload) == Got(m) && HexOf(p.senderID) != n.PeerID()
    ensures var o := EncryptedOutcome(n, p);
            var id := HexOf(p.senderID);
            && o.reply.None? && UsesSession(n, id, o)
            && (o.threw <==> !HasEstablished(n.sessions, id))
            && (o.recorded.Some? <==> HasEstablished(n.sessions, id) && p.payload != [] && IsFor(n, m))
            && (o.recorded.Some? ==> o.recorded.value == Entry(HistoryOf(m), m))
  {
    var t := Used(n.sessions, HexOf(p.senderID));
    if t.Some? {
      MessageDispatch(n.(sessions := t.value), p, m);
    }
  }

  /** A payload that cannot be read ends in an exception, even in a node's own packet, and leaves nothing behind. */
  lemma UnreadableThrows(n: Node, p: Packet, env: Env)
    requires Arriving(n, p) && p.typ == TYPE_MESSAGE && ParseMessage(p.payload).OutOfBounds?
    ensures Processed(n, p, env) == Thrown(Noting(n, p))
  {
    ArrivingIsDispatched(n, p, env);
  }

  /** A node's own Noise packets, come back to it, are only noted. */
  lemma OwnNoiseIsIgnored(n: Node, p: Packet, env: Env)
    requires Arriving(n, p) && 0x10 <= p.typ <= 0x13 && HexOf(p.senderID) == n.PeerID()
    ensures Processed(n, p, env) == Quiet(Noting(n, p))
  {
    ArrivingIsDispatched(n, p, env);
  }

  // ---------------------------------------------------------------- peers

  /** The lists have the same entry for every ID but `id`. */
  ghost predicate SameBut(before: seq<Peer>, after: seq<Peer>, id: bytes) {
    forall other :: other != id ==> FindPeer(after, other) == FindPeer(before, other)
  }

  /** The packet changed nothing but, perhaps, the entry of its sender. */
  ghost predicate OnlySender(n: Node, p: Packet, o: Outcome) {
    && o.recorded.None? && !o.threw && o.node == Noting(n, p).(peers := o.node.peers)
    && SameBut(n.peers, o.node.peers, HexOf(p.senderID))
  }

  function EntryOf(o: Outcome, p: Packet): Option<Peer> {
    FindPeer(o.node.peers, HexOf(p.senderID))
  }

  lemma PutChangesOne(ps: seq<Peer>, peer: Peer)
    ensures SameBut(ps, PutPeer(ps, peer), peer.peerID) && FindPeer(PutPeer(ps, peer), peer.peerID) == Some(peer)
  {
    forall id ensures FindPeer(PutPeer(ps, peer), id) == if id == peer.peerID then Some(peer) else FindPeer(ps, id) {
      FindAfterPut(ps, peer, id);
    }
  }

  lemma DropChangesOne(ps: seq<Peer>, gone: bytes)
    ensures SameBut(ps, DropPeer(ps, gone), gone) && FindPeer(DropPeer(ps, gone), gone) == None
  {
    forall id ensures FindPeer(DropPeer(ps, gone), id) == if id == gone then None else FindPeer(ps, id) {
      FindAfterDrop(ps, gone, id);
    }
  }

  /**
    After an announce its sender is online for 180 seconds and at no later time; a peer known before keeps its nickname,
    and its link unless the packet names one, a new one has the nickname announced.
   */
  lemma AnnounceIsHeard(n: Node, p: Packet, env: Env)
    requires Arriving(n, p) && p.typ == TYPE_ANNOUNCE
    ensures var o := Processed(n, p, env);
            var known := FindPeer(n.peers, HexOf(p.senderID));
            && OnlySender(n, p, o) && o.reply.None?
            && (forall u :: IsOnline(o.node.peers, HexOf(p.senderID), u) <==> u - env.now <= 180)
            && EntryOf(o, p)
               == Some(match known
                       case None => Peer(HexOf(p.senderID), env.peripheralID, p.payload, [], env.now, -100, true)
                       case Some(peer) =>
                         if env.peripheralID == [] then peer.(lastSeen := env.now)
                         else peer.(lastSeen := env.now, peripheralID := env.peripheralID))
  {
    ArrivingIsDispatched(n, p, env);
    AnnouncedEntry(n.peers, HexOf(p.senderID), p.payload, env);
  }

  lemma AnnouncedEntry(ps: seq<Peer>, id: bytes, nickname: bytes, env: Env)
    ensures var ps' := WithAnnounced(ps, id, nickname, env);
            var known := FindPeer(ps, id);
            && SameBut(ps, ps', id)
            && (forall u :: IsOnline(ps', id, u) <==> u - env.now <= 180)
            && FindPeer(ps', id)
               == Some(match known
                       case None => Peer(id, env.peripheralID, nickname, [], env.now, -100, true)
                       case Some(peer) =>
                         if env.peripheralID == [] then peer.(lastSeen := env.now)
                         else peer.(lastSeen := env.now, peripheralID := env.peripheralID))
  {
    var known := FindPeer(ps, id);
    if known.Some? {
      var link := if env.peripheralID != [] then env.peripheralID else known.value.peripheralID;
      PutChangesOne(ps, known.value.(lastSeen := env.now, peripheralID := link));
    } else {
      PutChangesOne(ps, Peer(id, env.peripheralID, nickname, [], env.now, -100, true));
    }
  }

  /** A leave removes its sender and no one else. */
  lemma LeaveIsHeard(n: Node, p: Packet, env: Env)
    requires Arriving(n, p) && p.typ == TYPE_LEAVE
    ensures var o := Processed(n, p, env);
            OnlySender(n, p, o) && o.reply.None? && EntryOf(o, p).None?
  {
    ArrivingIsDispatched(n, p, env);
    DropChangesOne(n.peers, HexOf(p.senderID));
  }

  lemma ChannelIsHeard(c: VC.ChannelAnnounce, init: VC.ChannelAnnounce)
    requires |c.channel| <= 255
    ensures VC.ParseChannel(VC.ChannelBytes(c), init) == c
  {
    VC.ChannelRoundTrip(c, init, []);
    assert VC.ChannelBytes(c) + [] == VC.ChannelBytes(c);
  }

  lemma ChannelEntry(ps: seq<Peer>, id: bytes, channel: bytes)
    ensures SameBut(ps, WithChannel(ps, id, channel), id)
    ensures FindPeer(WithChannel(ps, id, channel), id)
            == match FindPeer(ps, id) case None => None case Some(peer) => Some(peer.(channel := channel))
  {
    var known := FindPeer(ps, id);
    if known.Some? {
      PutChangesOne(ps, known.value.(channel := channel));
    }
  }

  /** A channel announce sets the channel of its sender when it joins and clears it when it leaves, if it is a peer. */
  lemma ChannelAnnounceIsHeard(n: Node, p: Packet, env: Env, c: VC.ChannelAnnounce)
    requires Arriving(n, p) && p.typ == TYPE_CHANNEL_ANNOUNCE && p.payload == VC.ChannelBytes(c) && |c.channel| <= 255
    ensures var o := Processed(n, p, env);
            && OnlySender(n, p, o) && o.reply.None?
            && EntryOf(o, p)
               == match FindPeer(n.peers, HexOf(p.senderID))
                  case None => None
                  case Some(peer) => Some(peer.(channel := if c.joining then c.channel else []))
  {
    ArrivingIsDispatched(n, p, env);
    ChannelIsHeard(c, VC.ChannelAnnounce([], env.garbage));
    ChannelEntry(n.peers, HexOf(p.senderID), if c.joining then c.channel else []);
  }

  /** An ack removes its sender exactly when it is a rejection. */
  lemma AckIsObeyed(n: Node, p: Packet, env: Env, a: VC.Ack)
    requires Arriving(n, p) && p.typ == TYPE_VERSION_ACK && p.payload == VC.AckBytes(a)
    ensures var o := Processed(n, p, env);
            && OnlySender(n, p, o) && o.reply.None?
            && (if a.rejected then EntryOf(o, p).None? else o.node.peers == n.peers)
  {
    ArrivingIsDispatched(n, p, env);
    AckIsHeard(a, VC.Ack(0, [], [], env.garbage, []));
    DropChangesOne(n.peers, HexOf(p.senderID));
  }

  // ---------------------------------------------------------------- version negotiation between two nodes

  /** A printed hello with at most 255 versions and capabilities, none of them the version 0 that stands for none. */
  predicate CarriesHello(p: Packet, h: VC.Hello) {
    && p.typ == TYPE_VERSION_HELLO && p.payload == VC.HelloBytes(h)
    && |h.versions| <= 255 && |h.capabilities| <= 255 && 0 !in h.versions
  }

  /** The packet is the answer of node `n` to `p`: a version ack for its sender, not to be relayed further than once. */
  ghost predicate AnswersHello(n: Node, p: Packet, env: Env, r: Packet, a: VC.Ack) {
    && r.typ == TYPE_VERSION_ACK && r.ttl == 1 && r.timestamp == env.clock && r.version == 1
    && r.senderID == n.identity && r.recipientID == p.senderID && r.payload == VC.AckBytes(a)
  }

  lemma GreetedAnswers(n: Node, p: Packet, ack: VC.Ack, clientVersion: bytes, env: Env)
    ensures var o := Greeted(n, p, ack, clientVersion, env);
            var id := HexOf(p.senderID);
            && o.reply.Some? && AnswersHello(n, p, env, o.reply.value, ack) && o.recorded.None? && !o.threw
            && o.node == n.(peers := o.node.peers) && SameBut(n.peers, o.node.peers, id)
            && FindPeer(o.node.peers, id)
               == if ack.rejected || FindPeer(n.peers, id).Some? then FindPeer(n.peers, id)
                  else Some(Peer(id, [], clientVersion, [], env.now, -100, false))
  {
    PutChangesOne(n.peers, Peer(HexOf(p.senderID), [], clientVersion, [], env.now, -100, false));
  }

  lemma HelloReads(h: VC.Hello, init: VC.Hello)
    requires |h.versions| <= 255 && |h.capabilities| <= 255
    ensures VC.HelloBytes(h) != []
    ensures VC.ParseHello(VC.HelloBytes(h), init).versions == h.versions
    ensures VC.ParseHello(VC.HelloBytes(h), init).clientVersion == Clip(h.clientVersion, 255)
  {
    VC.HelloRoundTrip(h, init, []);
    assert VC.HelloBytes(h) + [] == VC.HelloBytes(h);
  }

  /**
    A hello is answered with an ack that rejects exactly when version 1 is missing; only then the sender, if it was no
    peer, does not become one.
   */
  lemma HelloIsAnswered(n: Node, p: Packet, env: Env, h: VC.Hello) returns (a: VC.Ack)
    requires Arriving(n, p) && CarriesHello(p, h)
    ensures var o := Processed(n, p, env);
            var id := HexOf(p.senderID);
            && OnlySender(n, p, o)
            && o.reply.Some? && AnswersHello(n, p, env, o.reply.value, a)
            && (a.rejected <==> 1 !in h.versions) && (!a.rejected ==> a.agreed == 1)
            && EntryOf(o, p)
               == (if a.rejected || FindPeer(n.peers, id).Some? then FindPeer(n.peers, id)
                   else Some(Peer(id, [], Clip(h.clientVersion, 255), [], env.now, -100, false)))
  {
    ArrivingIsDispatched(n, p, env);
    HelloReads(h, VC.Hello([], 0, [], [], []));
    var hello := VC.ParseHello(p.payload, VC.Hello([], 0, [], [], []));
    a := VC.Answer(hello, VC.SUPPORTED_VERSIONS);
    AnswerOfOne(hello);
    GreetedAnswers(Noting(n, p), p, a, hello.clientVersion, env);
  }

  /** `q` is what is left of the fields of `r` that matter to a receiver. */
  predicate ArrivesAs(r: Packet, q: Packet) {
    q.typ == r.typ && q.senderID == r.senderID && q.payload == r.payload && q.timestamp == r.timestamp
  }

  /**
    The whole exchange: the client's hello at the server, the server's answer at the client. If the client supports
    version 1 the server lists it and its own list stays as it is; if not, the client loses the server, and only it.
   */
  lemma VersionExchange(server: Node, client: Node, p: Packet, env: Env, h: VC.Hello, q: Packet, env': Env)
    requires Arriving(server, p) && CarriesHello(p, h) && Arriving(client, q)
    requires Processed(server, p, env).reply.Some? ==> ArrivesAs(Processed(server, p, env).reply.value, q)
    ensures Processed(server, p, env).reply.Some? && Processed(client, q, env').reply.None?
    ensures OnlySender(client, q, Processed(client, q, env')) && HexOf(q.senderID) == server.PeerID()
    ensures 1 in h.versions ==>
              && EntryOf(Processed(server, p, env), p).Some?
              && Processed(client, q, env').node.peers == client.peers
    ensures 1 !in h.versions ==>
              && Processed(server, p, env).node.peers == server.peers
              && FindPeer(Processed(client, q, env').node.peers, server.PeerID()).None?
  {
    var a := HelloIsAnswered(server, p, env, h);
    AckIsObeyed(client, q, env', a);
    if a.rejected {
      RejectedIsNotListed(server, p, env, h);
    }
  }

  lemma RejectedIsNotListed(n: Node, p: Packet, env: Env, h: VC.Hello)
    requires Arriving(n, p) && CarriesHello(p, h) && 1 !in h.versions
    ensures Processed(n, p, env).node.peers == n.peers
  {
    ArrivingIsDispatched(n, p, env);
    HelloReads(h, VC.Hello([], 0, [], [], []));
    AnswerOfOne(VC.ParseHello(p.payload, VC.Hello([], 0, [], [], [])));
  }

  // ---------------------------------------------------------------- handshake between two nodes

  /** The packet is a Noise packet of node `n` with this type and payload. */
  ghost predicate IsNoise(n: Node, r: Packet, typ: byte, payload: bytes, env: Env) {
    && r.typ == typ && r.senderID == n.identity && r.payload == payload && r.ttl == 7 && r.version == 1
    && r.timestamp == env.clock
  }

  /** Only the session with the sender may have changed. */
  ghost predicate OnlySession(n: Node, p: Packet, o: Outcome) {
    && o.recorded.None? && o.node == Noting(n, p).(sessions := o.node.sessions)
    && o.node.sessions - {HexOf(p.senderID)} == n.sessions - {HexOf(p.senderID)}
  }

  /** The session that a handshake step leaves: established, in the role it had or, when new, the one the IDs give. */
  function AfterHandshake(n: Node, id: bytes): Session {
    Session(if id in n.sessions then n.sessions[id].role else if Less(n.PeerID(), id) then Initiator else Responder,
            true, Some(Zeros(32)), if id in n.sessions then n.sessions[id].messageCount else 0)
  }

  lemma HandshakeDispatch(n: Node, p: Packet, env: Env)
    requires HexOf(p.senderID) != n.PeerID() && p.typ == TYPE_NOISE_INIT
    ensures var o := HandshakeOutcome(n, p, env);
            var id := HexOf(p.senderID);
            && !o.threw && o.recorded.None? && o.node == n.(sessions := o.node.sessions)
            && (if HasEstablished(n.sessions, id) then o.reply.None? && o.node.sessions == n.sessions
                else
                  && o.node.sessions == n.sessions[id := AfterHandshake(n, id)]
                  && o.reply.Some? && IsNoise(n, o.reply.value, TYPE_NOISE_RESP, [4, 5, 6] + n.staticKey[3..6], env))
  {
  }

  /** A handshake packet from another node establishes the session and is answered, unless it was established. */
  lemma InitEstablishes(n: Node, p: Packet, env: Env)
    requires Arriving(n, p) && p.typ == TYPE_NOISE_INIT && HexOf(p.senderID) != n.PeerID()
    ensures var o := Processed(n, p, env);
            var id := HexOf(p.senderID);
            && !o.threw && OnlySession(n, p, o)
            && (if HasEstablished(n.sessions, id) then o.reply.None? && o.node.sessions == n.sessions
                else
                  && o.node.sessions == n.sessions[id := AfterHandshake(n, id)]
                  && o.reply.Some? && IsNoise(n, o.reply.value, TYPE_NOISE_RESP, [4, 5, 6] + n.staticKey[3..6], env))
  {
    ArrivingIsDispatched(n, p, env);
    HandshakeDispatch(Noting(n, p), p, env);
  }

  /** An identity announce makes the smaller ID initiate, which needs a session that is there and not established. */
  lemma IdentityIsAnswered(n: Node, p: Packet, env: Env)
    requires Arriving(n, p) && p.typ == TYPE_NOISE_IDENTITY
    ensures var o := Processed(n, p, env);
            var id := HexOf(p.senderID);
            var ready := id in n.sessions && !n.sessions[id].established;
            && OnlySession(n, p, o)
            && (o.threw <==> Less(n.PeerID(), id) && !ready)
            && (o.reply.Some? <==> Less(n.PeerID(), id) && ready)
            && (o.reply.Some? ==>
                  && IsNoise(n, o.reply.value, TYPE_NOISE_INIT, [1, 2, 3] + n.staticKey[..3], env)
                  && o.node.sessions == n.sessions[id := AfterHandshake(n, id)])
            && (o.reply.None? ==> o.node.sessions == n.sessions)
  {
    ArrivingIsDispatched(n, p, env);
    LessTrichotomy(n.PeerID(), HexOf(p.senderID));
  }

  /** A response establishes a session like an init, without an answer; to an established one it does nothing. */
  lemma ResponseIsHeard(n: Node, p: Packet, env: Env)
    requires Arriving(n, p) && p.typ == TYPE_NOISE_RESP && HexOf(p.senderID) != n.PeerID()
    ensures var o := Processed(n, p, env);
            var id := HexOf(p.senderID);
            && !o.threw && o.reply.None? && OnlySession(n, p, o)
            && o.node.sessions == if HasEstablished(n.sessions, id) then n.sessions
                                  else n.sessions[id := AfterHandshake(n, id)]
  {
    ArrivingIsDispatched(n, p, env);
    ResponseDispatch(Noting(n, p), p, env);
  }

  lemma ResponseDispatch(n: Node, p: Packet, env: Env)
    requires p.typ == TYPE_NOISE_RESP && HexOf(p.senderID) != n.PeerID()
    ensures var o := HandshakeOutcome(n, p, env);
            var id := HexOf(p.senderID);
            && !o.threw && o.reply.None? && o.recorded.None? && o.node == n.(sessions := o.node.sessions)
            && o.node.sessions == if HasEstablished(n.sessions, id) then n.sessions
                                  else n.sessions[id := AfterHandshake(n, id)]
  {
  }

  /**
    The whole handshake: b's identity announce at a, a's init at b, b's response back at a, which may have moved on in
    between. If a has a session for b that is not established, and b none for a, both end with an established session,
    a in its role and b as the responder, and nothing more is sent.
   */
  lemma HandshakeEstablishesBoth(a: Node, b: Node, p: Packet, env: Env, q: Packet, env': Env, a': Node, t: Packet,
                                 env'': Env)
    requires Arriving(a, p) && p.typ == TYPE_NOISE_IDENTITY && HexOf(p.senderID) == b.PeerID()
    requires Less(a.PeerID(), b.PeerID()) && b.PeerID() in a.sessions && !a.sessions[b.PeerID()].established
    requires Arriving(b, q) && a.PeerID() !in b.sessions
    requires Processed(a, p, env).reply.Some? ==> ArrivesAs(Processed(a, p, env).reply.value, q)
    requires Processed(b, q, env').reply.Some? ==> ArrivesAs(Processed(b, q, env').reply.value, t)
    requires Arriving(a', t) && a'.identity == a.identity && a'.sessions == Processed(a, p, env).node.sessions
    ensures HasEstablished(a'.sessions, b.PeerID()) && a'.sessions[b.PeerID()].role == a.sessions[b.PeerID()].role
    ensures var bSessions := Processed(b, q, env').node.sessions;
            HasEstablished(bSessions, a.PeerID()) && bSessions[a.PeerID()].role == Responder
    ensures Processed(b, q, env').reply.Some? && t.typ == TYPE_NOISE_RESP
    ensures var o := Processed(a', t, env'');
            o.node.sessions == a'.sessions && o.reply.None? && !o.threw
  {
    LessTrichotomy(a.PeerID(), b.PeerID());
    IdentityIsAnswered(a, p, env);
    InitEstablishes(b, q, env');
    ResponseIsHeard(a', t, env'');
  }

  // ---------------------------------------------------------------- everything else

  predicate IsKnownType(typ: byte) {
    typ in {0x01, 0x03, 0x04, 0x08, 0x10, 0x11, 0x12, 0x13, 0x20, 0x21}
  }

  /** Packets of other types are only noted; packets that are invalid or were seen before not even that. */
  lemma OthersDoNothing(n: Node, p: Packet, env: Env)
    ensures Arriving(n, p) && !IsKnownType(p.typ) ==> Processed(n, p, env) == Quiet(Noting(n, p))
    ensures !Arriving(n, p) ==> Processed(n, p, env) == Quiet(n)
    ensures p.IsValid() <==> p.version == 1 && p.payloadLength == |p.payload| && p.timestamp != 0
  {
  }
}
