/** What nodes send: a request's packet says what was asked for, and what is recorded anywhere was typed somewhere. */
module MeshOrigins {
  import opened Bytes
  import opened Text
  import opened Padding
  import opened PacketCodec
  import opened MessageCodec
  import opened NodeData
  import opened MessageService
  import opened NodeEffects
  import opened Mesh
  import opened MeshSafety
  import VC = VersionCodec

  // ---------------------------------------------------------------- chat messages

  /** The message says what the request asks for: the text typed, under the node's nickname, and for whom it is. */
  predicate SaysWhatWasTyped(n: Node, r: Request, m: Message) {
    match r
    case Chat(content, channel) =>
      && m.content == content && m.sender == n.nickname && !m.isPrivate && m.recipientNickname == []
      && m.channel == (if channel == [] then n.channel else channel)
    case PrivateChat(content, recipient) =>
      && m.content == content && m.sender == n.nickname && m.isPrivate && m.recipientNickname == recipient
      && m.channel == []
    case _ => false
  }

  function Sized(s: bytes): nat {
    if s == [] then 0 else 1 + |s|
  }

  /** Nickname, text and channel or recipient leave the payload within 100 bytes. */
  predicate IsShort(n: Node, r: Request) {
    match r
    case Chat(content, channel) =>
      49 + |n.nickname| + |content| + Sized(if channel == [] then n.channel else channel) <= 100
    case PrivateChat(content, recipient) => 49 + |n.nickname| + |content| + Sized(recipient) <= 100
    case _ => false
  }

  lemma SizeOfParts(m: Message, rest: bytes)
    requires |m.id| == 36 && m.originalSender == [] && m.senderPeerID == [] && m.mentions == []
    requires (m.channel == [] && m.recipientNickname == rest) || (m.channel == rest && m.recipientNickname == [])
    ensures 49 + |m.sender| + |m.content| + Sized(rest) <= 100 <==> |MessageBytes(m, [])| <= 100
  {
    assert HexOf(m.senderPeerID) == [];
  }

  /** Short requests are those whose message payload has at most 100 bytes. */
  lemma ShortIsSmall(n: Node, r: Request, s: Supply)
    requires r.Chat? || r.PrivateChat?
    ensures MessageFor(n, r, s).Some?
    ensures IsShort(n, r) <==> |MessageBytes(MessageFor(n, r, s).value, [])| <= 100
  {
    var m := MessageFor(n, r, s).value;
    SizeOfParts(m, if r.Chat? then m.channel else m.recipientNickname);
  }

  /** The payload of a short request's packet parses to what was typed, with the identifier and time drawn for it. */
  lemma ChatSaysWhatWasTyped(z: Lz4, n: Node, r: Request, s: Supply) returns (m: Message)
    requires |n.identity| == 8 && IsShort(n, r)
    ensures ParseMessage(Created(z, n, r, s).packet.payload) == Got(m) && MessageFor(n, r, s) == Some(m)
    ensures SaysWhatWasTyped(n, r, m) && m.id == s.uuid && m.timestamp == s.clock && m.mentions == []
  {
    ShortIsSmall(n, r, s);
    m := MessageFor(n, r, s).value;
    CreatedMessageOk(z, n, r, s);
    SmallIsSturdy(z, Created(z, n, r, s));
  }

  /** Whether the node has an established session to encrypt with. */
  predicate CanEncrypt(n: Node, s: Supply) {
    s.session in n.sessions && n.sessions[s.session].established
  }

  /**
    Around the payload: a chat goes to everyone, encrypted if a session is established, which then counts it; a private
    message goes unencrypted and without a recipient field.
   */
  lemma MessagePacketIs(z: Lz4, n: Node, r: Request, s: Supply)
    requires r.Chat? || r.PrivateChat?
    ensures var p := Created(z, n, r, s).packet;
            && p.version == 1 && p.ttl == 7 && p.timestamp == s.clock && p.senderID == n.identity
            && p.typ == (if r.Chat? && CanEncrypt(n, s) then TYPE_NOISE_ENCRYPTED else TYPE_MESSAGE)
            && (p.flags.recipient <==> r.Chat?)
            && p.recipientID == (if r.Chat? then [255, 255, 255, 255, 255, 255, 255, 255] else [])
            && p.flags.signature && p.signature == s.signature
            && AfterCreating(n, r, s)
               == (if r.Chat? && CanEncrypt(n, s)
                   then n.(sessions := n.sessions[s.session := n.sessions[s.session].(messageCount :=
                                               (n.sessions[s.session].messageCount + 1) % 0x1_0000_0000_0000_0000)])
                   else n)
  {
    assert seq(8, i => 255) == [255, 255, 255, 255, 255, 255, 255, 255];
  }

  // ---------------------------------------------------------------- from one node to the next

  /** A sturdy packet is received with type, sender, payload and time it was sent with. */
  lemma ArrivesWhole(z: Lz4, p: Packet, filler: Filler) returns (q: Packet)
    requires Inverts(z) && Sturdy(z, p)
    ensures Transmitted(z, p, filler) == Got(q)
    ensures SentAs(p, q)
  {
    TransmissionExact(z, p, filler);
    q := Canonical(z, p);
    CanonicalIsAsSent(z, p);
  }

  predicate SentAs(p: Packet, q: Packet) {
    && q.version == p.version && q.typ == p.typ && q.ttl == p.ttl && q.timestamp == p.timestamp
    && q.payload == p.payload && q.payloadLength == |q.payload| && q.senderID == Resize(p.senderID, 8)
  }

  lemma CanonicalIsAsSent(z: Lz4, p: Packet)
    requires |p.payload| < 0x1_0000
    ensures SentAs(p, Canonical(z, p))
  {
  }

  /** A plain packet of at most 100 payload bytes is sturdy. */
  lemma SmallPacketIsSturdy(z: Lz4, p: Packet)
    requires |p.payload| <= 100 && p.flags == NO_FLAGS
    ensures Sturdy(z, p)
  {
  }

  /** The packet has not been seen at the node by sender and time. */
  predicate Unseen(n: Node, sender: bytes, timestamp: uint64) {
    PacketKey(sender, timestamp) !in n.processed
  }

  /** An announce makes its creator a peer with the creator's nickname, online for 180 seconds. */
  lemma AnnounceReaches(z: Lz4, a: Node, s: Supply, filler: Filler, b: Node, env: Env) returns (q: Packet)
    requires Inverts(z) && |a.identity| == 8 && |a.nickname| <= 100 && s.clock != 0 && Unseen(b, a.identity, s.clock)
    ensures Transmitted(z, Created(z, a, Announce, s).packet, filler) == Got(q)
    ensures var ps := Processed(b, q, env).node.peers;
            && FindPeer(ps, a.PeerID()).Some?
            && (FindPeer(b.peers, a.PeerID()).None? ==> FindPeer(ps, a.PeerID()).value.nickname == a.nickname)
            && (forall u :: IsOnline(ps, a.PeerID(), u) <==> u - env.now <= 180)
            && SameBut(b.peers, ps, a.PeerID())
  {
    var p := Created(z, a, Announce, s).packet;
    SmallPacketIsSturdy(z, p);
    q := ArrivesWhole(z, p, filler);
    assert q.senderID == a.identity;
    AnnounceIsHeard(b, q, env);
  }

  /**
    A channel announce says which channel is joined or left, but is sent without a sender: at the receiver it can only
    change the entry of the all-zero ID, which no node has.
   */
  lemma ChannelNewsReachesNoOne(z: Lz4, a: Node, channel: bytes, joining: bool, s: Supply, filler: Filler, b: Node,
                                env: Env)
    returns (q: Packet)
    requires Inverts(z) && |channel| <= 98 && s.clock != 0
    ensures Transmitted(z, Created(z, a, ChannelNews(channel, joining), s).packet, filler) == Got(q)
    ensures forall init :: VC.ParseChannel(q.payload, init) == VC.ChannelAnnounce(channel, joining)
    ensures SameBut(b.peers, Processed(b, q, env).node.peers, HexOf([0, 0, 0, 0, 0, 0, 0, 0]))
    ensures Processed(b, q, env).reply.None? && Processed(b, q, env).recorded.None?
  {
    var p := Created(z, a, ChannelNews(channel, joining), s).packet;
    var c := VC.ChannelAnnounce(channel, joining);
    assert p.payload == VC.ChannelBytes(c) && |p.payload| == 2 + |channel|;
    SmallPacketIsSturdy(z, p);
    q := ArrivesWhole(z, p, filler);
    assert q.senderID == Resize([], 8) == [0, 0, 0, 0, 0, 0, 0, 0];
    forall init ensures VC.ParseChannel(q.payload, init) == c {
      ChannelIsHeard(c, init);
    }
    if Arriving(b, q) {
      ChannelAnnounceIsHeard(b, q, env, c);
    } else {
      OthersDoNothing(b, q, env);
    }
  }

  lemma OwnHello(z: Lz4, a: Node, s: Supply)
    ensures var p := Created(z, a, SendHello, s).packet;
            && p.typ == TYPE_VERSION_HELLO && p.ttl == 1 && p.version == 1 && p.timestamp == s.clock
            && p.senderID == a.identity && p.flags == NO_FLAGS && |p.payload| <= 100
            && CarriesHello(p, VC.Hello([1], 1, VC.CLIENT_VERSION, VC.PLATFORM, []))
  {
  }

  lemma AcceptedAnswer(n: Node, p: Packet, env: Env)
    requires Arriving(n, p) && CarriesHello(p, VC.Hello([1], 1, VC.CLIENT_VERSION, VC.PLATFORM, []))
    ensures var o := Processed(n, p, env);
            && o.reply.Some? && o.reply.value.typ == TYPE_VERSION_ACK && |o.reply.value.payload| == 10
            && o.reply.value.flags == NO_FLAGS && o.reply.value.senderID == n.identity
            && o.reply.value.timestamp == env.clock && o.reply.value.version == 1
  {
    ArrivingIsDispatched(n, p, env);
    var h := VC.Hello([1], 1, VC.CLIENT_VERSION, VC.PLATFORM, []);
    HelloReads(h, VC.Hello([], 0, [], [], []));
    AnswerOfOne(VC.ParseHello(p.payload, VC.Hello([], 0, [], [], [])));
  }

  /**
    Two nodes of this program always agree over the wire: after a's hello at b and b's answer at a, b lists a, a's list
    is as before, and neither hears anything else.
   */
  lemma HelloSucceeds(z: Lz4, a: Node, s: Supply, filler: Filler, b: Node, env: Env, filler': Filler, a': Node,
                      env': Env)
    returns (p: Packet, q: Packet)
    requires Inverts(z) && |a.identity| == 8 && |b.identity| == 8 && s.clock != 0 && env.clock != 0
    requires Unseen(b, a.identity, s.clock) && Unseen(a', b.identity, env.clock)
    ensures Transmitted(z, Created(z, a, SendHello, s).packet, filler) == Got(p)
    ensures var o := Processed(b, p, env);
            && FindPeer(o.node.peers, a.PeerID()).Some? && SameBut(b.peers, o.node.peers, a.PeerID())
            && o.reply.Some? && Transmitted(z, o.reply.value, filler') == Got(q)
            && Processed(a', q, env').node.peers == a'.peers && Processed(a', q, env').reply.None?
  {
    OwnHello(z, a, s);
    SmallPacketIsSturdy(z, Created(z, a, SendHello, s).packet);
    p := ArrivesWhole(z, Created(z, a, SendHello, s).packet, filler);
    AcceptedAnswer(b, p, env);
    var r := Processed(b, p, env).reply.value;
    SmallPacketIsSturdy(z, r);
    q := ArrivesWhole(z, r, filler');
    var h := VC.Hello([1], 1, VC.CLIENT_VERSION, VC.PLATFORM, []);
    VersionExchange(b, a', p, env, h, q, env');
    var ack := HelloIsAnswered(b, p, env, h);
  }

  /** An identity announce carries the creator's printed ID, and its identity as sender. */
  lemma IdentityIsSent(z: Lz4, a: Node, s: Supply)
    ensures var p := Created(z, a, SendIdentity, s).packet;
            && p.typ == TYPE_NOISE_IDENTITY && p.senderID == a.identity && p.payload == a.PeerID() && p.ttl == 7
            && p.version == 1 && p.timestamp == s.clock
  {
  }

  // ---------------------------------------------------------------- every run: who typed what

  /** The event is a request of `name` that asks for this message. */
  ghost predicate Types(v: World, e: Event, name: bytes, m: Message) {
    e.Originate? && Enabled(v, e) && e.node == name && SaysWhatWasTyped(v.nodes[name], e.request, m)
  }

  /** Some event of the run is. */
  ghost predicate Typed(z: Lz4, w: World, es: seq<Event>, name: bytes, m: Message) {
    && es != []
    && var k := |es| - 1;
    Typed(z, w, es[..k], name, m) || Types(Run(z, w, es[..k]), es[k], name, m)
  }

  lemma ArrivedLog(w: World, f: Flight, q: Packet, o: Outcome, links: Links, origin: Origin)
    requires origin in Arrived(w, f, q, o, links).log
    ensures origin in w.log || origin.message == None
  {
  }

  lemma DeliveredLog(z: Lz4, w: World, i: nat, env: Env, links: Links, origin: Origin)
    requires Enabled(w, Deliver(i, env, links)) && origin in Delivered(z, w, i, env, links).log
    ensures origin in w.log || origin.message == None
  {
    var f := w.inflight[i];
    var t := Transmitted(z, f.packet, f.filler);
    if t.Got? {
      ArrivedLog(Without(w, i), f, t.value, Processed(w.nodes[f.dst], t.value, env), links, origin);
    }
  }

  lemma CreatedSays(z: Lz4, n: Node, r: Request, s: Supply)
    ensures Created(z, n, r, s).message.Some? ==> SaysWhatWasTyped(n, r, Created(z, n, r, s).message.value)
  {
  }

  lemma StepLog(z: Lz4, v: World, e: Event, o: Origin)
    requires o in Step(z, v, e).log && o.message.Some?
    ensures o in v.log || Types(v, e, o.node, o.message.value)
  {
    if Enabled(v, e) {
      if e.Deliver? {
        DeliveredLog(z, v, e.index, e.env, e.links, o);
      } else if e.Originate? {
        CreatedSays(z, v.nodes[e.node], e.request, e.supply);
      }
    }
  }

  /** In every run each message created was typed at its node, under the nickname and channel the node had then. */
  lemma {:induction false} EveryMessageWasTyped(z: Lz4, w: World, es: seq<Event>, o: Origin)
    requires Initial(w) && o in Run(z, w, es).log && o.message.Some?
    ensures Typed(z, w, es, o.node, o.message.value)
  {
    if es != [] {
      var k := |es| - 1;
      StepLog(z, Run(z, w, es[..k]), es[k], o);
      if o in Run(z, w, es[..k]).log {
        EveryMessageWasTyped(z, w, es[..k], o);
      }
    }
  }

  /** In every run, what a node records of a short message is what was typed at another node. */
  lemma EveryRecordWasTyped(z: Lz4, w: World, es: seq<Event>, r: Record)
    requires Inverts(z) && Initial(w) && r in Run(z, w, es).records && Small(r.origin)
    ensures Typed(z, w, es, r.origin.node, r.entry.message) && r.origin.node != r.node
  {
    NoCreation(z, w, es, r);
    EveryMessageWasTyped(z, w, es, r.origin);
  }

  // ---------------------------------------------------------------- every run: who keeps what

  /** The event delivers to the record's node a message that is for it, filed where it belongs. */
  ghost predicate Keeps(v: World, e: Event, r: Record) {
    && e.Deliver? && Enabled(v, e) && v.inflight[e.index].dst == r.node && v.inflight[e.index].origin == r.origin
    && IsFor(v.nodes[r.node], r.entry.message) && r.entry.channel == HistoryOf(r.entry.message)
  }

  ghost predicate Kept(z: Lz4, w: World, es: seq<Event>, r: Record) {
    && es != []
    && var k := |es| - 1;
    Kept(z, w, es[..k], r) || Keeps(Run(z, w, es[..k]), es[k], r)
  }

  lemma DispatchedIsFor(n: Node, p: Packet, env: Env)
    ensures var x := Dispatched(n, p, env).recorded;
            x.Some? ==> IsFor(n, x.value.message) && x.value.channel == HistoryOf(x.value.message)
  {
  }

  lemma RecordedIsFor(n: Node, p: Packet, env: Env)
    ensures var x := Processed(n, p, env).recorded;
            x.Some? ==> IsFor(n, x.value.message) && x.value.channel == HistoryOf(x.value.message)
  {
    DispatchedIsFor(Noting(n, p), p, env);
  }

  lemma ArrivedRecord(w: World, f: Flight, q: Packet, o: Outcome, links: Links, r: Record)
    requires r in Arrived(w, f, q, o, links).records
    ensures r in w.records || (o.recorded.Some? && r == Record(f.dst, o.recorded.value, f.origin))
  {
  }

  lemma StepRecords(z: Lz4, v: World, e: Event, r: Record)
    requires r in Step(z, v, e).records
    ensures r in v.records || Keeps(v, e, r)
  {
    if Enabled(v, e) && e.Deliver? {
      var f := v.inflight[e.index];
      var t := Transmitted(z, f.packet, f.filler);
      if t.Got? {
        RecordedIsFor(v.nodes[f.dst], t.value, e.env);
        ArrivedRecord(Without(v, e.index), f, t.value, Processed(v.nodes[f.dst], t.value, e.env), e.links, r);
      }
    }
  }

  /**
    In every run each recorded message was, when it arrived, in the channel its receiver was in, or private and to the
    nickname the receiver had, and is filed under its channel or, private and without one, under "private".
   */
  lemma {:induction false} EveryRecordIsForItsNode(z: Lz4, w: World, es: seq<Event>, r: Record)
    requires Initial(w) && r in Run(z, w, es).records
    ensures Kept(z, w, es, r)
  {
    if es != [] {
      var k := |es| - 1;
      StepRecords(z, Run(z, w, es[..k]), es[k], r);
      if r in Run(z, w, es[..k]).records {
        EveryRecordIsForItsNode(z, w, es[..k], r);
      }
    }
  }

  // ---------------------------------------------------------------- other steps

  /** Cleaning up keeps exactly the peers online; switching and renaming change what later messages are sent under. */
  lemma LocalSteps(z: Lz4, w: World, name: bytes, now: int, text: bytes, id: bytes)
    requires name in w.nodes && NodeOk(name, w.nodes[name])
    ensures var n := w.nodes[name];
            var m := Step(z, w, Tidy(name, now)).nodes[name];
            && FindPeer(m.peers, id) == (if IsOnline(n.peers, id, now) then FindPeer(n.peers, id) else None)
            && m == n.(peers := m.peers)
            && Step(z, w, Tidy(name, now)) == w.(nodes := w.nodes[name := m])
    ensures Step(z, w, Switch(name, text)) == w.(nodes := w.nodes[name := w.nodes[name].(channel := text)])
    ensures Step(z, w, Rename(name, text)) == w.(nodes := w.nodes[name := w.nodes[name].(nickname := text)])
  {
    FindAfterCleanup(w.nodes[name].peers, now, id);
  }

  /** A lost link removes the first peer reached over it from the table, and no other. */
  lemma {:induction false} DroppedIsFirst(ps: seq<Peer>, all: seq<Peer>, link: bytes, i: nat)
    requires i <= |ps| && (forall j :: 0 <= j < i ==> ps[j].peripheralID != link)
    requires i < |ps| ==> ps[i].peripheralID == link
    ensures DropLink(ps, all, link) == if i == |ps| then all else DropPeer(all, ps[i].peerID)
  {
    if i > 0 {
      DroppedIsFirst(ps[1..], all, link, i - 1);
    }
  }

  lemma {:induction false} DropListed(ps: seq<Peer>, i: nat)
    requires i < |ps| && Unique(ps)
    ensures DropPeer(ps, ps[i].peerID) == ps[..i] + ps[i + 1..]
  {
    if i == 0 {
      DropAbsent(ps[1..], ps[0].peerID);
    } else {
      DropListed(ps[1..], i - 1);
      FoundIffListed(ps[1..], ps[0].peerID);
      assert Ids(ps[1..])[i - 1] == ps[i].peerID;
      assert ps[..i] == [ps[0]] + ps[1..][..i - 1] && ps[i + 1..] == ps[1..][i..];
    }
  }

  /** Disconnecting: the first peer with that link goes, the others stay in order; without one nothing changes. */
  lemma DisconnectRemovesOne(z: Lz4, w: World, name: bytes, link: bytes, i: nat)
    requires name in w.nodes && NodeOk(name, w.nodes[name]) && i <= |w.nodes[name].peers|
    requires forall j :: 0 <= j < i ==> w.nodes[name].peers[j].peripheralID != link
    requires i < |w.nodes[name].peers| ==> w.nodes[name].peers[i].peripheralID == link
    ensures var ps := w.nodes[name].peers;
            Step(z, w, Disconnect(name, link))
            == w.(nodes := w.nodes[name := w.nodes[name].(peers := if i == |ps| then ps else ps[..i] + ps[i + 1..])])
  {
    var ps := w.nodes[name].peers;
    DroppedIsFirst(ps, ps, link, i);
    if i < |ps| {
      DropListed(ps, i);
    }
  }
}
