/** With a transport that files its connections under peer IDs, a chat message can travel as far as its TTL allows. */
module MeshReach {
  import opened Bytes
  import opened Text
  import opened PacketCodec
  import opened MessageCodec
  import opened NodeData
  import opened Noise
  import opened MessageService
  import opened Mesh
  import opened MeshSafety
  import opened MeshOrigins

  /** A plain chat packet is processed without a reply or an exception, and leaves peers and sessions alone. */
  lemma ChatProcessing(n: Node, q: Packet, env: Env, m: Message)
    requires q.typ == TYPE_MESSAGE && ParseMessage(q.payload) == Got(m)
    ensures var o := Processed(n, q, env);
            !o.threw && o.reply.None? && o.node == n.(processed := o.node.processed)
    ensures q.IsValid() && Key(IdentOf(q)) !in n.processed && HexOf(q.senderID) != n.PeerID() ==>
              Processed(n, q, env).recorded == Accepted(n, m)
  {
  }

  lemma CopyIsThere(dsts: seq<bytes>, p: Packet, relay: bool, links: Links, origin: Origin, hops: nat, d: bytes)
    requires d in dsts
    ensures Flight(d, p, links.fill(relay, d), origin, hops) in Copies(dsts, p, relay, links, origin, hops)
  {
    var i :| 0 <= i < |dsts| && dsts[i] == d;
    assert Copies(dsts, p, relay, links, origin, hops)[i] == Flight(d, p, links.fill(relay, d), origin, hops);
  }

  /** A chat message that travels in plain and uncompressed. */
  ghost predicate PlainChat(z: Lz4, w: World, o: Origin) {
    && OriginOk(z, w, o) && Small(o) && o.packet.typ == TYPE_MESSAGE && o.packet.IsValid()
    && HexOf(o.packet.senderID) == o.node
  }

  /** Some copy of the packet is on its way to `d`, having made `hops` hops. */
  ghost predicate OnItsWay(w: World, o: Origin, d: bytes, hops: nat) {
    exists j :: 0 <= j < |w.inflight| && IsCopy(w.inflight[j], o, d, hops)
  }

  ghost predicate IsCopy(f: Flight, o: Origin, d: bytes, hops: nat) {
    f.dst == d && f.origin == o && f.hops == hops
  }

  /** The received form of a chat packet. */
  ghost predicate ChatForm(o: Origin, q: Packet) {
    && q.typ == TYPE_MESSAGE && o.message.Some? && ParseMessage(q.payload) == Got(o.message.value)
    && q.IsValid() && HexOf(q.senderID) == o.node && IdentOf(q) == IdentOf(o.packet)
  }

  lemma CanonicalForm(z: Lz4, p: Packet, ttl: byte)
    requires |p.senderID| == 8 && |p.payload| <= 100 && p.IsValid()
    ensures var q := Canonical(z, p).(ttl := ttl);
            && q.typ == p.typ && q.payload == p.payload && q.IsValid()
            && q.senderID == p.senderID && q.timestamp == p.timestamp
  {
  }

  lemma CanonicalChat(z: Lz4, w: World, o: Origin, ttl: byte)
    requires PlainChat(z, w, o)
    ensures Sturdy(z, o.packet) && ChatForm(o, Canonical(z, o.packet).(ttl := ttl))
  {
    SmallIsSturdy(z, o);
    CanonicalForm(z, o.packet, ttl);
  }

  lemma ChatArrives(z: Lz4, w: World, o: Origin, f: Flight) returns (q: Packet)
    requires Inverts(z) && PlainChat(z, w, o) && FlightOk(z, w, f) && f.origin == o
    ensures Transmitted(z, f.packet, f.filler) == Got(q)
    ensures ChatForm(o, q) && q.ttl + f.hops == o.packet.ttl && f.dst != o.node
  {
    CanonicalChat(z, w, o, f.packet.ttl);
    SturdyArrival(z, f);
    q := Canonical(z, o.packet).(ttl := f.packet.ttl);
    SenderIsElsewhere(z, w, o, f);
  }

  lemma SenderIsElsewhere(z: Lz4, w: World, o: Origin, f: Flight)
    requires PlainChat(z, w, o) && FlightOk(z, w, f) && f.origin == o && Sturdy(z, o.packet)
    ensures f.dst != o.node
  {
    assert Resize(f.packet.senderID, 8) == o.packet.senderID;
  }

  lemma DeliveredIs(z: Lz4, w: World, j: nat, env: Env, links: Links, q: Packet)
    requires Enabled(w, Deliver(j, env, links))
    requires Transmitted(z, w.inflight[j].packet, w.inflight[j].filler) == Got(q)
    ensures Delivered(z, w, j, env, links)
            == Arrived(Without(w, j), w.inflight[j], q, Processed(w.nodes[w.inflight[j].dst], q, env), links)
  {
  }

  /** The transport can find the node under its peer ID. */
  ghost predicate FiledById(links: Links, d: bytes) {
    KeysDiffer(links) && d in links.reach && links.filed(d) == d
  }

  /**
    The copies a relay makes of a packet of whatever type: with TTL left, one for each connection filed under the ID of
    a listed peer that is not the sender; the packet with the TTL lowered by one, and one more hop.
   */
  lemma RelayedExactly(f: Flight, q: Packet, peers: seq<Peer>, links: Links, d: bytes)
    requires KeysDiffer(links)
    ensures (exists g :: g in Relayed(f, q, peers, links) && g.dst == d) <==>
            q.ttl > 0 && d in links.reach && links.filed(d) != HexOf(q.senderID)
            && FindPeer(peers, links.filed(d)).Some?
    ensures forall g :: g in Relayed(f, q, peers, links) ==>
                          g.packet == q.(ttl := q.ttl - 1) && g.origin == f.origin && g.hops == f.hops + 1
  {
    var targets := RelayTargets(peers, HexOf(q.senderID), links);
    RelayTargetsExact(peers, HexOf(q.senderID), links, d);
    forall g | g in Relayed(f, q, peers, links)
      ensures g.packet == q.(ttl := q.ttl - 1) && g.origin == f.origin && g.hops == f.hops + 1 && g.dst in targets
    {
      CopyMembers(targets, q.(ttl := q.ttl - 1), true, links, f.origin, f.hops + 1, g);
    }
    if q.ttl > 0 && d in targets {
      CopyIsThere(targets, q.(ttl := q.ttl - 1), true, links, f.origin, f.hops + 1, d);
    }
  }

  lemma InflightAfter(w: World, f: Flight, q: Packet, out: Outcome, links: Links, g: Flight)
    requires !out.threw && g in Relayed(f, q, out.node.peers, links)
    ensures g in Arrived(w, f, q, out, links).inflight
  {
    var fs := Arrived(w, f, q, out, links).inflight;
    var gs := Relayed(f, q, out.node.peers, links);
    assert fs[|fs| - |gs|..] == gs;
    var i :| 0 <= i < |gs| && gs[i] == g;
    assert fs[|fs| - |gs| + i] == g;
  }

  lemma ArrivedRelays(w: World, f: Flight, q: Packet, out: Outcome, links: Links, next: bytes)
    requires !out.threw && q.ttl > 0
    requires FiledById(links, next) && next != HexOf(q.senderID) && FindPeer(out.node.peers, next).Some?
    ensures OnItsWay(Arrived(w, f, q, out, links), f.origin, next, f.hops + 1)
    ensures out.reply.None? ==> Arrived(w, f, q, out, links).nodes == w.nodes[f.dst := out.node]
  {
    RelayedExactly(f, q, out.node.peers, links, next);
    var g :| g in Relayed(f, q, out.node.peers, links) && g.dst == next;
    InflightAfter(w, f, q, out, links, g);
    assert IsCopy(g, f.origin, next, f.hops + 1);
  }

  /** A packet of any type, new or seen before, is relayed to the peers then listed unless handling it threw. */
  lemma DeliveryRelays(z: Lz4, w: World, j: nat, env: Env, links: Links, q: Packet, next: bytes)
    requires Enabled(w, Deliver(j, env, links))
    requires Transmitted(z, w.inflight[j].packet, w.inflight[j].filler) == Got(q) && q.ttl > 0
    requires !Processed(w.nodes[w.inflight[j].dst], q, env).threw
    requires FiledById(links, next) && next != HexOf(q.senderID)
    requires FindPeer(Processed(w.nodes[w.inflight[j].dst], q, env).node.peers, next).Some?
    ensures OnItsWay(Delivered(z, w, j, env, links), w.inflight[j].origin, next, w.inflight[j].hops + 1)
  {
    DeliveredIs(z, w, j, env, links, q);
    var f := w.inflight[j];
    ArrivedRelays(Without(w, j), f, q, Processed(w.nodes[f.dst], q, env), links, next);
  }

  lemma ArrivedRecords(w: World, f: Flight, q: Packet, out: Outcome, links: Links)
    requires out.recorded.Some?
    ensures Record(f.dst, out.recorded.value, f.origin) in Arrived(w, f, q, out, links).records
  {
  }

  /** A chat delivery, with what the receiving node makes of it. */
  lemma ChatDelivered(z: Lz4, w: World, o: Origin, j: nat, env: Env, links: Links) returns (q: Packet, out: Outcome)
    requires Inverts(z) && Inv(z, w) && PlainChat(z, w, o) && Enabled(w, Deliver(j, env, links))
    requires w.inflight[j].origin == o
    ensures var f := w.inflight[j];
            var n := w.nodes[f.dst];
            && Delivered(z, w, j, env, links) == Arrived(Without(w, j), f, q, out, links)
            && HexOf(q.senderID) == o.node && q.ttl + f.hops == o.packet.ttl
            && !out.threw && out.reply.None? && out.node == n.(processed := out.node.processed)
            && (Key(IdentOf(o.packet)) !in n.processed ==> out.recorded == Accepted(n, o.message.value))
  {
    var f := w.inflight[j];
    assert FlightOk(z, w, f) && NodeOk(f.dst, w.nodes[f.dst]);
    q := ChatArrives(z, w, o, f);
    DeliveredIs(z, w, j, env, links, q);
    ChatProcessing(w.nodes[f.dst], q, env, o.message.value);
    out := Processed(w.nodes[f.dst], q, env);
  }

  /** A copy for `next` is on its way, and no node but `name` has changed. */
  ghost predicate ForwardedTo(w: World, w': World, o: Origin, name: bytes, next: bytes, hops: nat) {
    && OnItsWay(w', o, next, hops) && w'.nodes.Keys == w.nodes.Keys
    && forall other :: other in w.nodes && other != name ==> w'.nodes[other] == w.nodes[other]
  }

  lemma ArrivedForwards(w: World, j: nat, q: Packet, out: Outcome, links: Links, next: bytes)
    requires j < |w.inflight| && w.inflight[j].dst in w.nodes && !out.threw && out.reply.None? && q.ttl > 0
    requires FiledById(links, next) && next != HexOf(q.senderID) && FindPeer(out.node.peers, next).Some?
    ensures var f := w.inflight[j];
            ForwardedTo(w, Arrived(Without(w, j), f, q, out, links), f.origin, f.dst, next, f.hops + 1)
  {
    ArrivedRelays(Without(w, j), w.inflight[j], q, out, links, next);
  }

  /** Delivering a copy to a node that lists `next` and files it under its ID puts a copy for `next` on its way. */
  lemma Forwarded(z: Lz4, w: World, o: Origin, j: nat, env: Env, links: Links, next: bytes)
    requires Inverts(z) && Inv(z, w) && PlainChat(z, w, o) && Enabled(w, Deliver(j, env, links))
    requires w.inflight[j].origin == o && w.inflight[j].hops < o.packet.ttl
    requires FiledById(links, next) && next != o.node && FindPeer(w.nodes[w.inflight[j].dst].peers, next).Some?
    ensures ForwardedTo(w, Delivered(z, w, j, env, links), o, w.inflight[j].dst, next, w.inflight[j].hops + 1)
  {
    var q, out := ChatDelivered(z, w, o, j, env, links);
    ArrivedForwards(w, j, q, out, links, next);
  }

  lemma ArrivedReplies(w: World, f: Flight, q: Packet, out: Outcome, links: Links, d: bytes)
    requires out.reply.Some? && d in links.reach
    ensures OnItsWay(Arrived(w, f, q, out, links), Origin(f.dst, out.reply.value, None), d, 0)
  {
    var w1 := Noted(w, f, out);
    var o := Origin(f.dst, out.reply.value, None);
    SentIsOnItsWay(w1, out.node, o, links, d);
    var sent := Sent(w1, out.node, o, links);
    var j :| 0 <= j < |sent.inflight| && IsCopy(sent.inflight[j], o, d, 0);
    assert IsCopy(Arrived(w, f, q, out, links).inflight[j], o, d, 0);
  }

  /** A reply of the receiving node is broadcast to all its connections. */
  lemma RepliesAreBroadcast(z: Lz4, w: World, j: nat, env: Env, links: Links, q: Packet, d: bytes)
    requires Enabled(w, Deliver(j, env, links)) && d in links.reach
    requires Transmitted(z, w.inflight[j].packet, w.inflight[j].filler) == Got(q)
    requires Processed(w.nodes[w.inflight[j].dst], q, env).reply.Some?
    ensures var f := w.inflight[j];
            var reply := Processed(w.nodes[f.dst], q, env).reply.value;
            OnItsWay(Delivered(z, w, j, env, links), Origin(f.dst, reply, None), d, 0)
  {
    DeliveredIs(z, w, j, env, links, q);
    var f := w.inflight[j];
    ArrivedReplies(Without(w, j), f, q, Processed(w.nodes[f.dst], q, env), links, d);
  }

  /** Delivering a copy to a node that has not seen it and accepts the message records it. */
  lemma ArrivesInHistory(z: Lz4, w: World, o: Origin, j: nat, env: Env, links: Links)
    requires Inverts(z) && Inv(z, w) && PlainChat(z, w, o) && Enabled(w, Deliver(j, env, links))
    requires w.inflight[j].origin == o
    requires Key(IdentOf(o.packet)) !in w.nodes[w.inflight[j].dst].processed
    requires Accepted(w.nodes[w.inflight[j].dst], o.message.value).Some?
    ensures var name := w.inflight[j].dst;
            Record(name, Accepted(w.nodes[name], o.message.value).value, o) in Delivered(z, w, j, env, links).records
  {
    var q, out := ChatDelivered(z, w, o, j, env, links);
    ArrivedRecords(Without(w, j), w.inflight[j], q, out, links);
  }

  // ---------------------------------------------------------------- paths

  /** Nodes of the mesh, all different, each but the first and last listing the next as a peer. */
  ghost predicate Path(w: World, path: seq<bytes>) {
    && |path| >= 2 && Distinct(path) && (forall i :: 0 <= i < |path| ==> path[i] in w.nodes)
    && forall i :: 1 <= i < |path| - 1 ==> FindPeer(w.nodes[path[i]].peers, path[i + 1]).Some?
  }

  /**
    The transport files the nodes of the path under their peer IDs. The node next to the originator is sent to by
    broadcast, so its key may as well be one that is not a peer ID.
   */
  ghost predicate FilesById(filed: Filing, path: seq<bytes>) {
    forall i :: 1 <= i < |path| && (i > 1 || HexText(filed(path[i]))) ==> filed(path[i]) == path[i]
  }

  /** Only the next node of the path is in range. */
  ghost function LinkTo(filed: Filing, d: bytes): Links {
    Links([d], filed, (relay, dst) => Zeros(254))
  }

  /** The request at the start of the path makes a plain, small and valid chat packet. */
  ghost predicate Starts(z: Lz4, n: Node, r: Request, s: Supply) {
    && r.Chat? && s.clock != 0 && !HasEstablished(n.sessions, s.session)
    && IsShort(n, r)
  }

  lemma StartIsPlainChat(z: Lz4, w: World, name: bytes, r: Request, s: Supply)
    requires name in w.nodes && NodeOk(name, w.nodes[name]) && Starts(z, w.nodes[name], r, s)
    ensures PlainChat(z, w, Created(z, w.nodes[name], r, s).(node := name))
    ensures Created(z, w.nodes[name], r, s).packet.ttl == PKT_TTL
  {
    CreatedOk(z, w, name, r, s);
    CreatedMessageOk(z, w.nodes[name], r, s);
    ShortIsSmall(w.nodes[name], r, s);
    var m := MessageFor(w.nodes[name], r, s).value;
    assert MessageBytes(m, s.uuid) == MessageBytes(m, []);
  }

  lemma SentIsOnItsWay(w: World, node: Node, o: Origin, links: Links, d: bytes)
    requires d in links.reach
    ensures OnItsWay(Sent(w, node, o, links), o, d, 0)
  {
    var i :| 0 <= i < |links.reach| && links.reach[i] == d;
    var copies := Copies(links.reach, o.packet, false, links, o, 0);
    assert IsCopy(copies[i], o, d, 0);
    assert Sent(w, node, o, links).inflight[|w.inflight| + i] == copies[i];
  }

  ghost function TheOrigin(z: Lz4, w: World, name: bytes, r: Request, s: Supply): Origin
    requires name in w.nodes
  {
    Created(z, w.nodes[name], r, s).(node := name)
  }

  lemma ChatTtl(z: Lz4, w: World, name: bytes, r: Request, s: Supply)
    requires name in w.nodes && r.Chat?
    ensures var o := TheOrigin(z, w, name, r, s);
            && o.packet.ttl == 7 && o.node == name && IdentOf(o.packet) == Ident(w.nodes[name].identity, s.clock)
            && o.message.Some?
  {
  }

  /** State `v` is as far as node `i` of the path: a copy is on its way there, later nodes are as they were. */
  ghost predicate Reached(w: World, v: World, path: seq<bytes>, o: Origin, i: nat)
    requires 1 <= i < |path|
  {
    && v.nodes.Keys == w.nodes.Keys && OnItsWay(v, o, path[i], i - 1)
    && forall k :: i <= k < |path| ==> path[k] in w.nodes && v.nodes[path[k]] == w.nodes[path[k]]
  }

  lemma RunAppend(z: Lz4, w: World, es: seq<Event>, e: Event)
    ensures Run(z, w, es + [e]) == Step(z, Run(z, w, es), e)
  {
    assert (es + [e])[..|es|] == es;
  }

  lemma PlainChatStays(z: Lz4, w: World, w': World, o: Origin)
    requires PlainChat(z, w, o) && o.node in w'.nodes
    ensures PlainChat(z, w', o)
  {
  }

  lemma SentReaches(w: World, node: Node, o: Origin, path: seq<bytes>, filed: Filing)
    requires Path(w, path) && o.node == path[0]
    ensures Reached(w, Sent(w, node, o, LinkTo(filed, path[1])), path, o, 1)
  {
    SentIsOnItsWay(w, node, o, LinkTo(filed, path[1]), path[1]);
  }

  lemma StepOriginates(z: Lz4, w: World, path: seq<bytes>, filed: Filing, r: Request, s: Supply)
    requires Path(w, path) && FilesById(filed, path)
    ensures Step(z, w, Originate(path[0], r, s, LinkTo(filed, path[1])))
            == Sent(w, AfterCreating(w.nodes[path[0]], r, s), TheOrigin(z, w, path[0], r, s), LinkTo(filed, path[1]))
  {
    assert Enabled(w, Originate(path[0], r, s, LinkTo(filed, path[1])));
  }

  lemma TravelsFirst(z: Lz4, w: World, path: seq<bytes>, filed: Filing, r: Request, s: Supply) returns (es: seq<Event>)
    requires Path(w, path) && FilesById(filed, path)
    ensures Reached(w, Run(z, w, es), path, TheOrigin(z, w, path[0], r, s), 1)
  {
    es := [] + [Originate(path[0], r, s, LinkTo(filed, path[1]))];
    RunAppend(z, w, [], Originate(path[0], r, s, LinkTo(filed, path[1])));
    StepOriginates(z, w, path, filed, r, s);
    SentReaches(w, AfterCreating(w.nodes[path[0]], r, s), TheOrigin(z, w, path[0], r, s), path, filed);
  }

  lemma StepDelivers(z: Lz4, v: World, j: nat, env: Env, links: Links)
    requires Enabled(v, Deliver(j, env, links))
    ensures Step(z, v, Deliver(j, env, links)) == Delivered(z, v, j, env, links)
  {
  }

  lemma LinkIsOk(w: World, v: World, path: seq<bytes>, filed: Filing, i: nat)
    requires Path(w, path) && FilesById(filed, path) && v.nodes.Keys == w.nodes.Keys && i < |path| - 1
    ensures LinksOk(v, path[i], LinkTo(filed, path[i + 1]))
  {
  }

  lemma LinkIsFiled(filed: Filing, d: bytes)
    requires filed(d) == d
    ensures FiledById(LinkTo(filed, d), d)
  {
  }

  lemma ReachedNext(w: World, v: World, v': World, path: seq<bytes>, o: Origin, i: nat)
    requires Path(w, path) && 1 <= i < |path| - 1 && Reached(w, v, path, o, i)
    requires ForwardedTo(v, v', o, path[i], path[i + 1], i)
    ensures Reached(w, v', path, o, i + 1)
  {
  }

  /** The copy to deliver next, and why it can be delivered and will be forwarded. */
  lemma NextDelivery(w: World, v: World, path: seq<bytes>, filed: Filing, o: Origin, env: Env, i: nat)
    returns (j: nat)
    requires Path(w, path) && FilesById(filed, path)
    requires o.node == path[0] && 1 <= i < |path| - 1 && Reached(w, v, path, o, i)
    ensures Enabled(v, Deliver(j, env, LinkTo(filed, path[i + 1])))
    ensures j < |v.inflight| && IsCopy(v.inflight[j], o, path[i], i - 1)
    ensures path[i] in v.nodes && FindPeer(v.nodes[path[i]].peers, path[i + 1]).Some? && path[i + 1] != o.node
  {
    j :| 0 <= j < |v.inflight| && IsCopy(v.inflight[j], o, path[i], i - 1);
    LinkIsOk(w, v, path, filed, i);
  }

  lemma NextForward(z: Lz4, v: World, o: Origin, env: Env, links: Links, j: nat, name: bytes, hops: nat, next: bytes)
    requires Inverts(z) && Inv(z, v) && PlainChat(z, v, o) && Enabled(v, Deliver(j, env, links))
    requires IsCopy(v.inflight[j], o, name, hops) && hops < o.packet.ttl && next != o.node
    requires FiledById(links, next) && FindPeer(v.nodes[name].peers, next).Some?
    ensures ForwardedTo(v, Delivered(z, v, j, env, links), o, name, next, hops + 1)
  {
    Forwarded(z, v, o, j, env, links, next);
  }

  lemma NextStep(z: Lz4, w: World, v: World, path: seq<bytes>, filed: Filing, o: Origin, env: Env, i: nat)
    returns (e: Event)
    requires Inverts(z) && Path(w, path) && FilesById(filed, path) && o.node == path[0]
    requires 1 <= i < |path| - 1 && i <= o.packet.ttl
    requires Inv(z, v) && PlainChat(z, v, o) && Reached(w, v, path, o, i)
    ensures Reached(w, Step(z, v, e), path, o, i + 1)
  {
    var j := NextDelivery(w, v, path, filed, o, env, i);
    e := Deliver(j, env, LinkTo(filed, path[i + 1]));
    StepDelivers(z, v, j, env, LinkTo(filed, path[i + 1]));
    LinkIsFiled(filed, path[i + 1]);
    NextForward(z, v, o, env, LinkTo(filed, path[i + 1]), j, path[i], i - 1, path[i + 1]);
    ReachedNext(w, v, Delivered(z, v, j, env, LinkTo(filed, path[i + 1])), path, o, i);
  }

  lemma TravelsOn(z: Lz4, w: World, es: seq<Event>, path: seq<bytes>, filed: Filing, o: Origin, env: Env, i: nat)
    returns (es': seq<Event>)
    requires Inverts(z) && Initial(w) && PlainChat(z, w, o) && Path(w, path) && FilesById(filed, path)
    requires o.node == path[0] && 1 <= i < |path| - 1 && i <= o.packet.ttl
    requires Reached(w, Run(z, w, es), path, o, i)
    ensures Reached(w, Run(z, w, es'), path, o, i + 1)
  {
    var v := Run(z, w, es);
    EveryRunIsSafe(z, w, es);
    PlainChatStays(z, w, v, o);
    var e := NextStep(z, w, v, path, filed, o, env, i);
    es' := es + [e];
    RunAppend(z, w, es, e);
  }

  /** Within the TTL, a run exists that brings a copy to the i-th node and leaves the later ones as they were. */
  lemma {:induction false} Travels(z: Lz4, w: World, first: seq<Event>, path: seq<bytes>, filed: Filing, o: Origin,
                                   env: Env, i: nat)
    returns (es: seq<Event>)
    requires Inverts(z) && Initial(w) && PlainChat(z, w, o) && Path(w, path) && FilesById(filed, path)
    requires o.node == path[0] && 1 <= i < |path| && i <= o.packet.ttl + 1
    requires Reached(w, Run(z, w, first), path, o, 1)
    ensures Reached(w, Run(z, w, es), path, o, i)
  {
    if i == 1 {
      es := first;
    } else {
      var before := Travels(z, w, first, path, filed, o, env, i - 1);
      es := TravelsOn(z, w, before, path, filed, o, env, i - 1);
    }
  }

  lemma LastStep(z: Lz4, w: World, v: World, path: seq<bytes>, filed: Filing, o: Origin, env: Env)
    returns (e: Event)
    requires Inverts(z) && |path| >= 2 && Inv(z, v) && PlainChat(z, v, o) && Reached(w, v, path, o, |path| - 1)
    requires var last := w.nodes[path[|path| - 1]];
             Key(IdentOf(o.packet)) !in last.processed && Accepted(last, o.message.value).Some?
    ensures var end := path[|path| - 1];
            Record(end, Accepted(w.nodes[end], o.message.value).value, o) in Step(z, v, e).records
  {
    var k := |path| - 1;
    var j :| 0 <= j < |v.inflight| && IsCopy(v.inflight[j], o, path[k], k - 1);
    var nobody := Links([], filed, (relay, dst) => Zeros(254));
    e := Deliver(j, env, nobody);
    assert Enabled(v, e);
    ArrivesInHistory(z, v, o, j, env, nobody);
  }

  lemma PathEnds(z: Lz4, w: World, es: seq<Event>, path: seq<bytes>, filed: Filing, o: Origin, env: Env)
    returns (es': seq<Event>)
    requires Inverts(z) && Initial(w) && PlainChat(z, w, o) && |path| >= 2
    requires Reached(w, Run(z, w, es), path, o, |path| - 1)
    requires var last := w.nodes[path[|path| - 1]];
             Key(IdentOf(o.packet)) !in last.processed && Accepted(last, o.message.value).Some?
    ensures var end := path[|path| - 1];
            Record(end, Accepted(w.nodes[end], o.message.value).value, o) in Run(z, w, es').records
  {
    EveryRunIsSafe(z, w, es);
    PlainChatStays(z, w, Run(z, w, es), o);
    var e := LastStep(z, w, Run(z, w, es), path, filed, o, env);
    es' := es + [e];
    RunAppend(z, w, es, e);
  }

  /**
    For every path of up to eight hops whose last node has not seen the packet and is in the channel the message goes to
    there is a run, over links filed under peer IDs, that records at that node the text typed at the first one, under
    the nickname and in the channel of that moment.
   */
  lemma MessageCanReachTheEnd(z: Lz4, w: World, path: seq<bytes>, filed: Filing, r: Request, s: Supply, env: Env)
    returns (es: seq<Event>, entry: Entry)
    requires Inverts(z) && Initial(w) && Path(w, path) && FilesById(filed, path) && Starts(z, w.nodes[path[0]], r, s)
    requires |path| <= 9
    requires Key(Ident(w.nodes[path[0]].identity, s.clock)) !in w.nodes[path[|path| - 1]].processed
    requires w.nodes[path[|path| - 1]].channel == if r.channel == [] then w.nodes[path[0]].channel else r.channel
    ensures Record(path[|path| - 1], entry, TheOrigin(z, w, path[0], r, s)) in Run(z, w, es).records
    ensures entry.message.content == r.content && entry.message.sender == w.nodes[path[0]].nickname
    ensures entry.channel == entry.message.channel == if r.channel == [] then w.nodes[path[0]].channel else r.channel
  {
    var o := TheOrigin(z, w, path[0], r, s);
    StartIsPlainChat(z, w, path[0], r, s);
    ChatTtl(z, w, path[0], r, s);
    CreatedSays(z, w.nodes[path[0]], r, s);
    var first := TravelsFirst(z, w, path, filed, r, s);
    var before := Travels(z, w, first, path, filed, o, env, |path| - 1);
    es := PathEnds(z, w, before, path, filed, o, env);
    entry := Accepted(w.nodes[path[|path| - 1]], o.message.value).value;
  }
}
