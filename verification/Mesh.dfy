/** network_service.cpp and the sending half of message_service.cpp: a mesh of nodes as one step system. */
module Mesh {
  import opened Bytes
  import opened Text
  import opened Padding
  import opened PacketCodec
  import opened MessageCodec
  import opened NodeData
  import opened Noise
  import opened MessageService
  import VC = VersionCodec

  /** The creation of a packet: who made it, what it was, and the chat message inside, if any. */
  datatype Origin = Origin(node: bytes, packet: Packet, message: Option<Message>)

  /** One copy under way: its wire image is the encoding of `packet` with `filler`. */
  datatype Flight = Flight(dst: bytes, packet: Packet, filler: Filler, origin: Origin, hops: nat)

  /** A message added to a node's history because of a received packet. */
  datatype Record = Record(node: bytes, entry: Entry, origin: Origin)

  /** Nodes by peer ID, copies under way, and the history of creations and records. */
  datatype World = World(nodes: map<bytes, Node>, inflight: seq<Flight>, log: seq<Origin>, records: seq<Record>)

  type Filing = bytes -> bytes

  /**
    The nodes a node is connected to during a step, the key under which its transport files each connection (a device
    address on Linux, a UUID on Apple), and the padding drawn for each copy it sends.
   */
  datatype Links = Links(reach: seq<bytes>, filed: Filing, fill: (bool, bytes) -> Filler)

  // ---------------------------------------------------------------- sending

  function Copies(dsts: seq<bytes>, p: Packet, relay: bool, links: Links, origin: Origin, hops: nat): (r: seq<Flight>)
    ensures |r| == |dsts|
  {
    seq(|dsts|, i requires 0 <= i < |dsts| => Flight(dsts[i], p, links.fill(relay, dsts[i]), origin, hops))
  }

  /** sendPacketToPeer: the transport looks the ID up among the keys of its connections. */
  function FiledUnder(reach: seq<bytes>, filed: Filing, id: bytes): (r: Option<bytes>)
    ensures r.Some? ==> r.value in reach && filed(r.value) == id
    ensures r.None? ==> forall d :: d in reach ==> filed(d) != id
  {
    if reach == [] then None
    else if filed(reach[0]) == id then Some(reach[0])
    else FiledUnder(reach[1..], filed, id)
  }

  /** The loop of relayPacket: every listed peer but the sender; only those filed under their ID receive. */
  function RelayTargets(peers: seq<Peer>, sender: bytes, links: Links): (r: seq<bytes>) {
    if peers == [] then []
    else
      var rest := RelayTargets(peers[1..], sender, links);
      var link := FiledUnder(links.reach, links.filed, peers[0].peerID);
      if peers[0].peerID != sender && link.Some? then [link.value] + rest else rest
  }

  function Relayed(f: Flight, q: Packet, peers: seq<Peer>, links: Links): (r: seq<Flight>) {
    if q.ttl == 0 then []
    else Copies(RelayTargets(peers, HexOf(q.senderID), links), q.(ttl := q.ttl - 1), true, links, f.origin, f.hops + 1)
  }

  // ---------------------------------------------------------------- packets a node creates by itself

  datatype Request =
    | Chat(content: bytes, channel: bytes)
    | PrivateChat(content: bytes, recipient: bytes)
    | Announce
    | ChannelNews(channel: bytes, joining: bool)
    | SendHello
    | SendIdentity

  type Uuid = u: bytes | |u| == 36 witness Zeros(36)

  /** Clock, identifiers and signature are drawn from outside; `session` is the established session found first. */
  datatype Supply = Supply(clock: uint64, uuid: Uuid, signature: bytes, session: bytes)

  function MessageFor(n: Node, r: Request, s: Supply): Option<Message> {
    match r
    case Chat(content, channel) =>
      Some(EMPTY_MESSAGE.(id := s.uuid, sender := n.nickname, content := content, timestamp := s.clock,
                          channel := if channel == [] then n.channel else channel))
    case PrivateChat(content, recipient) =>
      Some(EMPTY_MESSAGE.(id := s.uuid, sender := n.nickname, content := content, timestamp := s.clock,
                          isPrivate := true, recipientNickname := recipient))
    case _ => None
  }

  predicate EncryptsWith(n: Node, m: Message, s: Supply) {
    !m.isPrivate && HasEstablished(n.sessions, s.session)
  }

  /** createMessagePacket; Noise encryption leaves the payload as it is. */
  function MessagePacket(z: Lz4, n: Node, m: Message, s: Supply): Packet {
    var payload := CompressData(z, MessageBytes(m, s.uuid));
    var typ := if EncryptsWith(n, m, s) then TYPE_NOISE_ENCRYPTED else TYPE_MESSAGE;
    NewPacket(typ, payload, s.clock)
    .(senderID := n.identity,
      flags := Flags(!m.isPrivate, true, ShouldCompress(payload), 0),
      recipientID := if m.isPrivate then [] else seq(8, i => 255),
      signature := s.signature)
  }

  /** The packet a request makes; a channel announce is created without a sender. */
  function Created(z: Lz4, n: Node, r: Request, s: Supply): Origin {
    var m := MessageFor(n, r, s);
    var packet :=
      match r
      case Announce => NewPacket(TYPE_ANNOUNCE, n.nickname, s.clock).(senderID := n.identity)
      case ChannelNews(channel, joining) =>
        NewPacket(TYPE_CHANNEL_ANNOUNCE, VC.ChannelBytes(VC.ChannelAnnounce(channel, joining)), s.clock)
      case SendHello =>
        NewPacket(TYPE_VERSION_HELLO, VC.HelloBytes(VC.Hello([1], 1, VC.CLIENT_VERSION, VC.PLATFORM, [])), s.clock)
        .(senderID := n.identity, ttl := 1)
      case SendIdentity => NewPacket(TYPE_NOISE_IDENTITY, n.PeerID(), s.clock).(senderID := n.identity)
      case _ => if m.Some? then MessagePacket(z, n, m.value, s) else DEFAULT_PACKET;
    Origin(n.PeerID(), packet, m)
  }

  /** The node after creating: an encryption is counted by the session used. */
  function AfterCreating(n: Node, r: Request, s: Supply): Node {
    match MessageFor(n, r, s)
    case None => n
    case Some(m) =>
      if !EncryptsWith(n, m, s) then n
      else match Used(n.sessions, s.session) case Some(t) => n.(sessions := t) case None => n
  }

  // ---------------------------------------------------------------- steps

  datatype Event =
    | Originate(node: bytes, request: Request, supply: Supply, links: Links)
    | Deliver(index: nat, env: Env, links: Links)
    | Disconnect(node: bytes, peripheralID: bytes)
    | Tidy(node: bytes, now: int)
    | Switch(node: bytes, channel: bytes)
    | Rename(node: bytes, nickname: bytes)

  /** peerDisconnected: the first peer reached over that link is removed. */
  function DropLink(ps: seq<Peer>, all: seq<Peer>, peripheralID: bytes): seq<Peer> {
    if ps == [] then all
    else if ps[0].peripheralID == peripheralID then DropPeer(all, ps[0].peerID)
    else DropLink(ps[1..], all, peripheralID)
  }

  /** Connections have different keys, as those of a map do. */
  ghost predicate KeysDiffer(links: Links) {
    forall d, e :: d in links.reach && e in links.reach && links.filed(d) == links.filed(e) ==> d == e
  }

  /** Connections go to other nodes; a key that could be read as a peer ID is that of the node itself. */
  ghost predicate LinksOk(w: World, name: bytes, links: Links) {
    && Distinct(links.reach) && (forall d :: d in links.reach ==> d in w.nodes && d != name)
    && KeysDiffer(links)
    && forall d :: d in links.reach && HexText(links.filed(d)) ==> links.filed(d) == d
  }

  ghost predicate Enabled(w: World, e: Event) {
    match e
    case Originate(name, _, _, links) => name in w.nodes && LinksOk(w, name, links)
    case Deliver(i, _, links) =>
      i < |w.inflight| && w.inflight[i].dst in w.nodes && LinksOk(w, w.inflight[i].dst, links)
    case Disconnect(name, _) => name in w.nodes
    case Tidy(name, _) => name in w.nodes
    case Switch(name, _) => name in w.nodes
    case Rename(name, _) => name in w.nodes
  }

  function Sent(w: World, node: Node, o: Origin, links: Links): World {
    w.(nodes := w.nodes[o.node := node], log := w.log + [o],
       inflight := w.inflight + Copies(links.reach, o.packet, false, links, o, 0))
  }

  /** The receiving node's new state and its history entry. */
  function Noted(w: World, f: Flight, o: Outcome): World {
    w.(nodes := w.nodes[f.dst := o.node],
       records := if o.recorded.Some? then w.records + [Record(f.dst, o.recorded.value, f.origin)] else w.records)
  }

  /** What the arrival of `q` does, given the outcome of processing it; relaying uses the updated peer list. */
  function Arrived(w: World, f: Flight, q: Packet, o: Outcome, links: Links): World {
    var w1 := Noted(w, f, o);
    var w2 := if o.reply.Some? then Sent(w1, o.node, Origin(f.dst, o.reply.value, None), links) else w1;
    if o.threw then w2 else w2.(inflight := w2.inflight + Relayed(f, q, o.node.peers, links))
  }

  function Without(w: World, i: nat): World
    requires i < |w.inflight|
  {
    w.(inflight := w.inflight[..i] + w.inflight[i + 1..])
  }

  /** onPacketReceived on the decoded bytes of one copy. */
  function Delivered(z: Lz4, w: World, i: nat, env: Env, links: Links): World
    requires i < |w.inflight| && w.inflight[i].dst in w.nodes
  {
    var f := w.inflight[i];
    match Transmitted(z, f.packet, f.filler)
    case OutOfBounds => Without(w, i)
    case Got(q) => Arrived(Without(w, i), f, q, Processed(w.nodes[f.dst], q, env), links)
  }

  function Update(w: World, name: bytes, n: Node): World {
    w.(nodes := w.nodes[name := n])
  }

  /** One step; an event that is not enabled changes nothing. */
  ghost function Step(z: Lz4, w: World, e: Event): World {
    if !Enabled(w, e) then w
    else match e
         case Originate(name, r, s, links) =>
           Sent(w, AfterCreating(w.nodes[name], r, s), Created(z, w.nodes[name], r, s).(node := name), links)
         case Deliver(i, env, links) => Delivered(z, w, i, env, links)
         case Disconnect(name, link) =>
           var n := w.nodes[name];
           Update(w, name, n.(peers := DropLink(n.peers, n.peers, link)))
         case Tidy(name, now) => Update(w, name, w.nodes[name].(peers := DropStale(w.nodes[name].peers, now)))
         case Switch(name, channel) => Update(w, name, w.nodes[name].(channel := channel))
         case Rename(name, nickname) => Update(w, name, w.nodes[name].(nickname := nickname))
  }

  ghost function Run(z: Lz4, w: World, es: seq<Event>): World {
    if es == [] then w else Step(z, Run(z, w, es[..|es| - 1]), es[|es| - 1])
  }

  // ---------------------------------------------------------------- the invariant

  /** Every listed peer has a printed ID. */
  ghost predicate ListsHexTexts(ps: seq<Peer>) {
    forall id :: FindPeer(ps, id).Some? ==> HexText(id)
  }

  ghost predicate NodeOk(name: bytes, n: Node) {
    && name == n.PeerID() && |n.identity| == 8 && n.identity != Zeros(8)
    && Unique(n.peers) && FindPeer(n.peers, name).None? && ListsHexTexts(n.peers)
  }

  /** A copy is blank, or has travelled `hops` hops: TTL plus hops is the initial TTL, and a sturdy packet is intact. */
  ghost predicate Tracks(z: Lz4, f: Flight) {
    var p := f.origin.packet;
    && (Blank(f.packet) || (SameHeader(p, f.packet.(ttl := p.ttl)) && f.packet.ttl + f.hops == p.ttl))
    && (Sturdy(z, p) ==> f.hops <= p.ttl && f.packet == HopState(z, p, f.hops))
  }

  /** No copy is ever addressed to the node its sender field names. */
  predicate AwayFromSender(f: Flight) {
    HexOf(Resize(f.packet.senderID, 8)) != f.dst
  }

  ghost predicate FlightOk(z: Lz4, w: World, f: Flight) {
    f.dst in w.nodes && f.origin in w.log && Tracks(z, f) && AwayFromSender(f)
  }

  /** A chat packet as createMessagePacket makes it. */
  predicate Carries(z: Lz4, p: Packet, m: Message) {
    && m.id != [] && !m.isEncrypted && m.encryptedContent == []
    && p.payload == CompressData(z, MessageBytes(m, []))
    && p.flags.compressed == ShouldCompress(p.payload) && |p.senderID| == 8
  }

  ghost predicate OriginOk(z: Lz4, w: World, o: Origin) {
    && o.node in w.nodes && o.packet.typ != 0
    && (HexOf(o.packet.senderID) == o.node || o.packet.senderID == [])
    && (CarriesMessage(o.packet.typ) <==> o.message.Some?)
    && (o.message.Some? ==> Carries(z, o.packet, o.message.value))
  }

  /** A chat message whose payload is sent uncompressed. */
  predicate Small(o: Origin) {
    o.message.Some? && |MessageBytes(o.message.value, [])| <= 100
  }

  ghost predicate RecordOk(w: World, r: Record) {
    && r.origin in w.log && r.origin.message.Some?
    && (Small(r.origin) ==> r.entry.message == r.origin.message.value && r.origin.node != r.node)
  }

  ghost predicate Inv(z: Lz4, w: World) {
    && (forall name :: name in w.nodes ==> NodeOk(name, w.nodes[name]))
    && (forall f :: f in w.inflight ==> FlightOk(z, w, f))
    && (forall o :: o in w.log ==> OriginOk(z, w, o))
    && (forall r :: r in w.records ==> RecordOk(w, r))
  }

  /** A mesh before anything was sent; its peer tables may be filled. */
  ghost predicate Initial(w: World) {
    && w.inflight == [] && w.log == [] && w.records == []
    && forall name :: name in w.nodes ==> NodeOk(name, w.nodes[name])
  }
}
