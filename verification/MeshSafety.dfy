/** What holds in every reachable state of the mesh: TTL accounting, no echo to the originator, no invented messages. */
module MeshSafety {
  import opened Bytes
  import opened Text
  import opened PacketCodec
  import opened MessageCodec
  import opened NodeData
  import opened MessageService
  import opened Mesh

  // ---------------------------------------------------------------- one arrival

  /** How a received packet relates to the copy it came from. */
  ghost predicate Arrives(z: Lz4, f: Flight, q: Packet) {
    && (Blank(f.packet) ==> Blank(q) && q.ttl == f.packet.ttl)
    && (q == DEFAULT_PACKET || SameHeader(f.packet, q))
    && (q.senderID == Resize(f.packet.senderID, 8) || q.senderID == [])
    && (Sturdy(z, f.origin.packet) ==> q == Canonical(z, f.origin.packet).(ttl := f.packet.ttl))
  }

  lemma ArrivalFollows(z: Lz4, f: Flight, q: Packet)
    requires Inverts(z) && Tracks(z, f) && Transmitted(z, f.packet, f.filler) == Got(q)
    ensures Arrives(z, f, q)
  {
    TransmissionShape(z, f.packet, f.filler);
    if Blank(f.packet) {
      BlankTransmission(z, f.packet, f.filler);
    }
    if Sturdy(z, f.origin.packet) {
      SturdyArrival(z, f);
    }
  }

  /** A sturdy packet always arrives, and as its canonical self. */
  lemma SturdyArrival(z: Lz4, f: Flight)
    requires Inverts(z) && Tracks(z, f) && Sturdy(z, f.origin.packet)
    ensures Transmitted(z, f.packet, f.filler) == Got(Canonical(z, f.origin.packet).(ttl := f.packet.ttl))
    ensures f.packet.ttl + f.hops == f.origin.packet.ttl
  {
    CanonicalOfCopy(z, f);
    TransmissionExact(z, f.packet, f.filler);
  }

  lemma CanonicalOfCopy(z: Lz4, f: Flight)
    requires Tracks(z, f) && Sturdy(z, f.origin.packet)
    ensures Sturdy(z, f.packet) && f.packet.ttl + f.hops == f.origin.packet.ttl
    ensures Canonical(z, f.packet) == Canonical(z, f.origin.packet).(ttl := f.packet.ttl)
  {
    if f.hops > 0 {
      CanonicalStaysSturdy(z, f.origin.packet, f.packet.ttl);
    }
  }

  lemma RelayedTracks(z: Lz4, f: Flight, q: Packet, f': Flight)
    requires Tracks(z, f) && Arrives(z, f, q) && q.ttl > 0
    requires f'.packet == q.(ttl := q.ttl - 1) && f'.origin == f.origin && f'.hops == f.hops + 1
    ensures Tracks(z, f')
  {
  }

  /** Neither the empty nor the all-zero sender is the name of a node. */
  lemma NoNodeIsZero(name: bytes, n: Node)
    requires NodeOk(name, n)
    ensures HexOf(Zeros(8)) != name && HexOf([]) != name
  {
    if HexOf(Zeros(8)) == name {
      HexInjective(Zeros(8), n.identity);
    }
  }

  lemma RelayAway(f: Flight, q: Packet, d: bytes, n: Node)
    requires q.senderID == Resize(f.packet.senderID, 8) || q.senderID == []
    requires d != HexOf(q.senderID) && NodeOk(d, n)
    ensures HexOf(Resize(q.senderID, 8)) != d
  {
    NoNodeIsZero(d, n);
    assert Resize([], 8) == Zeros(8);
  }

  // ---------------------------------------------------------------- worlds that only grow

  ghost predicate Extends(w: World, w': World) {
    w.nodes.Keys <= w'.nodes.Keys && forall o :: o in w.log ==> o in w'.log
  }

  ghost predicate NodesOk(w: World) {
    forall name :: name in w.nodes ==> NodeOk(name, w.nodes[name])
  }

  lemma FlightStays(z: Lz4, w: World, w': World, f: Flight)
    requires Extends(w, w') && FlightOk(z, w, f)
    ensures FlightOk(z, w', f)
  {
  }

  lemma OriginStays(z: Lz4, w: World, w': World, o: Origin)
    requires Extends(w, w') && OriginOk(z, w, o)
    ensures OriginOk(z, w', o)
  {
  }

  lemma FlightsExtend(z: Lz4, w: World, w': World)
    requires Extends(w, w') && forall f :: f in w.inflight ==> FlightOk(z, w, f)
    requires forall f :: f in w'.inflight ==> f in w.inflight || FlightOk(z, w', f)
    ensures forall f :: f in w'.inflight ==> FlightOk(z, w', f)
  {
    forall f | f in w'.inflight && f in w.inflight ensures FlightOk(z, w', f) {
      FlightStays(z, w, w', f);
    }
  }

  lemma LogExtends(z: Lz4, w: World, w': World)
    requires Extends(w, w') && forall o :: o in w.log ==> OriginOk(z, w, o)
    requires forall o :: o in w'.log ==> o in w.log || OriginOk(z, w', o)
    ensures forall o :: o in w'.log ==> OriginOk(z, w', o)
  {
    forall o | o in w'.log && o in w.log ensures OriginOk(z, w', o) {
      OriginStays(z, w, w', o);
    }
  }

  lemma InvExtends(z: Lz4, w: World, w': World)
    requires Inv(z, w) && Extends(w, w') && NodesOk(w')
    requires forall f :: f in w'.inflight ==> f in w.inflight || FlightOk(z, w', f)
    requires forall o :: o in w'.log ==> o in w.log || OriginOk(z, w', o)
    requires forall r :: r in w'.records ==> r in w.records || RecordOk(w', r)
    ensures Inv(z, w')
  {
    FlightsExtend(z, w, w');
    LogExtends(z, w, w');
  }

  lemma CopyMembers(dsts: seq<bytes>, p: Packet, relay: bool, links: Links, origin: Origin, hops: nat, f: Flight)
    requires f in Copies(dsts, p, relay, links, origin, hops)
    ensures f.dst in dsts && f.packet == p && f.origin == origin && f.hops == hops
  {
  }

  // ---------------------------------------------------------------- creating packets

  lemma FirstCopyOk(z: Lz4, w: World, o: Origin, f: Flight)
    requires f.packet == o.packet && f.origin == o && f.hops == 0
    requires f.dst in w.nodes && NodeOk(f.dst, w.nodes[f.dst]) && o in w.log && f.dst != o.node
    requires (HexOf(o.packet.senderID) == o.node && |o.packet.senderID| == 8) || o.packet.senderID == []
    ensures FlightOk(z, w, f)
  {
    NoNodeIsZero(f.dst, w.nodes[f.dst]);
    assert Resize([], 8) == Zeros(8);
  }

  lemma SentKeepsInv(z: Lz4, w: World, node: Node, o: Origin, links: Links)
    requires Inv(z, w) && o.node in w.nodes && NodeOk(o.node, node) && LinksOk(w, o.node, links)
    requires OriginOk(z, w, o) && (o.packet.senderID == [] || |o.packet.senderID| == 8)
    ensures Inv(z, Sent(w, node, o, links))
  {
    var w' := Sent(w, node, o, links);
    var copies := Copies(links.reach, o.packet, false, links, o, 0);
    forall f | f in copies ensures FlightOk(z, w', f) {
      CopyMembers(links.reach, o.packet, false, links, o, 0, f);
      FirstCopyOk(z, w', o, f);
    }
    assert OriginOk(z, w', o);
    InvExtends(z, w, w');
  }

  lemma CreatedMessageOk(z: Lz4, n: Node, r: Request, s: Supply)
    requires |n.identity| == 8 && MessageFor(n, r, s).Some?
    ensures Created(z, n, r, s).packet == MessagePacket(z, n, MessageFor(n, r, s).value, s)
    ensures Carries(z, Created(z, n, r, s).packet, MessageFor(n, r, s).value)
  {
    var m := MessageFor(n, r, s).value;
    assert MessageBytes(m, s.uuid) == MessageBytes(m, []);
  }

  lemma CreatedOk(z: Lz4, w: World, name: bytes, r: Request, s: Supply)
    requires name in w.nodes && NodeOk(name, w.nodes[name])
    ensures var o := Created(z, w.nodes[name], r, s).(node := name);
            OriginOk(z, w, o) && (o.packet.senderID == [] || |o.packet.senderID| == 8)
  {
    var n := w.nodes[name];
    if MessageFor(n, r, s).Some? {
      CreatedMessageOk(z, n, r, s);
    }
  }

  // ---------------------------------------------------------------- receiving packets

  /** A small chat packet is never altered by transmission. */
  lemma SmallIsSturdy(z: Lz4, o: Origin)
    requires o.message.Some? && Carries(z, o.packet, o.message.value) && Small(o)
    ensures Sturdy(z, o.packet) && |Encoding(z, o.packet)| <= 194 && |o.packet.payload| <= 100
    ensures ParseMessage(o.packet.payload) == Got(o.message.value)
  {
    var m := o.message.value;
    SmallPayloadIsCarried(m, []);
    MessageRoundTrip(m, [], []);
    assert MessageBytes(m, []) + [] == MessageBytes(m, []);
    CarriedIsKept(m, []);
  }

  lemma ArrivalRecordOk(z: Lz4, w: World, f: Flight, q: Packet, n: Node, o: Outcome)
    requires Inv(z, w) && FlightOk(z, w, f) && Arrives(z, f, q) && OutcomeOk(n, q, o)
    requires o.recorded.Some?
    ensures RecordOk(w, Record(f.dst, o.recorded.value, f.origin))
  {
    var p := f.origin.packet;
    assert q.typ != 0 && SameHeader(f.packet, q);
    assert p.typ == q.typ;
    assert OriginOk(z, w, f.origin);
    if Small(f.origin) {
      SmallIsSturdy(z, f.origin);
      assert q.payload == p.payload;
      assert Resize(f.packet.senderID, 8) == p.senderID;
    }
  }

  lemma NodeStaysOk(name: bytes, n: Node, f: Flight, q: Packet, o: Outcome)
    requires NodeOk(name, n) && OutcomeOk(n, q, o)
    requires f.dst == name && AwayFromSender(f)
    requires q.senderID == Resize(f.packet.senderID, 8) || q.senderID == []
    ensures NodeOk(name, o.node)
  {
    NoNodeIsZero(name, n);
    HexOfIsHexText(q.senderID);
  }

  /** A relay goes to exactly the connections filed under the ID of a listed peer other than the packet's sender. */
  lemma {:induction false} RelayTargetsExact(peers: seq<Peer>, sender: bytes, links: Links, d: bytes)
    requires KeysDiffer(links)
    ensures d in RelayTargets(peers, sender, links) <==>
            d in links.reach && links.filed(d) != sender && FindPeer(peers, links.filed(d)).Some?
  {
    if peers != [] {
      RelayTargetsExact(peers[1..], sender, links, d);
    }
  }

  lemma RelayedFlightOk(z: Lz4, w: World, f: Flight, q: Packet, g: Flight)
    requires FlightOk(z, w, f) && Arrives(z, f, q) && q.ttl > 0
    requires g.dst in w.nodes && NodeOk(g.dst, w.nodes[g.dst]) && g.dst != HexOf(q.senderID)
    requires g.packet == q.(ttl := q.ttl - 1) && g.origin == f.origin && g.hops == f.hops + 1
    ensures FlightOk(z, w, g)
  {
    RelayedTracks(z, f, q, g);
    RelayAway(f, q, g.dst, w.nodes[g.dst]);
  }

  lemma RelayedMember(f: Flight, q: Packet, peers: seq<Peer>, links: Links, g: Flight)
    requires g in Relayed(f, q, peers, links) && KeysDiffer(links)
    ensures q.ttl > 0 && g.dst in links.reach && links.filed(g.dst) != HexOf(q.senderID)
    ensures FindPeer(peers, links.filed(g.dst)).Some?
    ensures g.packet == q.(ttl := q.ttl - 1) && g.origin == f.origin && g.hops == f.hops + 1
  {
    var targets := RelayTargets(peers, HexOf(q.senderID), links);
    CopyMembers(targets, q.(ttl := q.ttl - 1), true, links, f.origin, f.hops + 1, g);
    RelayTargetsExact(peers, HexOf(q.senderID), links, g.dst);
  }

  lemma RelayedAllOk(z: Lz4, w: World, f: Flight, q: Packet, peers: seq<Peer>, links: Links, g: Flight)
    requires NodesOk(w) && FlightOk(z, w, f) && Arrives(z, f, q) && LinksOk(w, f.dst, links) && ListsHexTexts(peers)
    requires g in Relayed(f, q, peers, links)
    ensures FlightOk(z, w, g)
  {
    RelayedMember(f, q, peers, links, g);
    assert links.filed(g.dst) == g.dst;
    RelayedFlightOk(z, w, f, q, g);
  }

  lemma AddingKeepsInv(z: Lz4, w: World, fs: seq<Flight>)
    requires Inv(z, w) && forall g :: g in fs ==> FlightOk(z, w, g)
    ensures Inv(z, w.(inflight := w.inflight + fs))
  {
    InvExtends(z, w, w.(inflight := w.inflight + fs));
  }

  lemma RelayedKeepsInv(z: Lz4, w: World, f: Flight, q: Packet, peers: seq<Peer>, links: Links)
    requires Inv(z, w) && FlightOk(z, w, f) && Arrives(z, f, q) && LinksOk(w, f.dst, links) && ListsHexTexts(peers)
    ensures Inv(z, w.(inflight := w.inflight + Relayed(f, q, peers, links)))
  {
    var fs := Relayed(f, q, peers, links);
    forall g | g in fs ensures FlightOk(z, w, g) {
      RelayedAllOk(z, w, f, q, peers, links, g);
    }
    AddingKeepsInv(z, w, fs);
  }

  /** The first half of an arrival: the node's new state and its history entry. */
  lemma NotedKeepsInv(z: Lz4, w: World, f: Flight, q: Packet, o: Outcome)
    requires Inv(z, w) && FlightOk(z, w, f) && Arrives(z, f, q) && OutcomeOk(w.nodes[f.dst], q, o)
    ensures Inv(z, Noted(w, f, o)) && NodeOk(f.dst, o.node)
  {
    NodeStaysOk(f.dst, w.nodes[f.dst], f, q, o);
    UpdateKeepsInv(z, w, f.dst, o.node);
    if o.recorded.Some? {
      ArrivalRecordOk(z, w, f, q, w.nodes[f.dst], o);
      RecordKeepsInv(z, Update(w, f.dst, o.node), Record(f.dst, o.recorded.value, f.origin));
    }
  }

  lemma RecordKeepsInv(z: Lz4, w: World, r: Record)
    requires Inv(z, w) && RecordOk(w, r)
    ensures Inv(z, w.(records := w.records + [r]))
  {
    InvExtends(z, w, w.(records := w.records + [r]));
  }

  lemma ArrivedKeepsInv(z: Lz4, w: World, f: Flight, q: Packet, o: Outcome, links: Links)
    requires Inv(z, w) && FlightOk(z, w, f) && Arrives(z, f, q) && LinksOk(w, f.dst, links)
    requires OutcomeOk(w.nodes[f.dst], q, o)
    ensures Inv(z, Arrived(w, f, q, o, links))
  {
    var w1 := Noted(w, f, o);
    NotedKeepsInv(z, w, f, q, o);
    var w2 := w1;
    if o.reply.Some? {
      var origin := Origin(f.dst, o.reply.value, None);
      assert OriginOk(z, w1, origin);
      SentKeepsInv(z, w1, o.node, origin, links);
      w2 := Sent(w1, o.node, origin, links);
    }
    RelayedKeepsInv(z, w2, f, q, o.node.peers, links);
  }

  lemma DeliveredKeepsInv(z: Lz4, w: World, i: nat, env: Env, links: Links)
    requires Inverts(z) && Inv(z, w) && Enabled(w, Deliver(i, env, links))
    ensures Inv(z, Delivered(z, w, i, env, links))
  {
    var f := w.inflight[i];
    var w0 := Without(w, i);
    assert FlightOk(z, w, f);
    InvExtends(z, w, w0);
    var t := Transmitted(z, f.packet, f.filler);
    if t.Got? {
      ArrivalFollows(z, f, t.value);
      ProcessingOk(w.nodes[f.dst], t.value, env);
      ArrivedKeepsInv(z, w0, f, t.value, Processed(w.nodes[f.dst], t.value, env), links);
    }
  }

  // ---------------------------------------------------------------- local steps

  lemma {:induction false} DropLinkOk(ps: seq<Peer>, all: seq<Peer>, link: bytes)
    requires Unique(all)
    ensures Unique(DropLink(ps, all, link))
    ensures forall id :: FindPeer(DropLink(ps, all, link), id).Some? ==> FindPeer(all, id).Some?
  {
    if ps != [] {
      if ps[0].peripheralID == link {
        DropOk(all, ps[0].peerID);
        forall id ensures FindPeer(DropPeer(all, ps[0].peerID), id).Some? ==> FindPeer(all, id).Some? {
          FindAfterDrop(all, ps[0].peerID, id);
        }
      } else {
        DropLinkOk(ps[1..], all, link);
      }
    }
  }

  lemma UpdateKeepsInv(z: Lz4, w: World, name: bytes, n: Node)
    requires Inv(z, w) && name in w.nodes && NodeOk(name, n)
    ensures Inv(z, Update(w, name, n))
  {
    InvExtends(z, w, Update(w, name, n));
  }

  lemma LocalKeepsInv(z: Lz4, w: World, e: Event)
    requires Inv(z, w) && Enabled(w, e) && (e.Disconnect? || e.Tidy? || e.Switch? || e.Rename?)
    ensures Inv(z, Step(z, w, e))
  {
    var n := w.nodes[e.node];
    assert NodeOk(e.node, n);
    if e.Disconnect? {
      DropLinkOk(n.peers, n.peers, e.peripheralID);
      UpdateKeepsInv(z, w, e.node, n.(peers := DropLink(n.peers, n.peers, e.peripheralID)));
    } else if e.Tidy? {
      CleanupKeepsUnique(n.peers, e.now);
      forall id ensures FindPeer(DropStale(n.peers, e.now), id).Some? ==> FindPeer(n.peers, id).Some? {
        FindAfterCleanup(n.peers, e.now, id);
      }
      UpdateKeepsInv(z, w, e.node, n.(peers := DropStale(n.peers, e.now)));
    } else if e.Switch? {
      UpdateKeepsInv(z, w, e.node, n.(channel := e.channel));
    } else {
      UpdateKeepsInv(z, w, e.node, n.(nickname := e.nickname));
    }
  }

  // ---------------------------------------------------------------- every run

  lemma StepKeepsInv(z: Lz4, w: World, e: Event)
    requires Inverts(z) && Inv(z, w)
    ensures Inv(z, Step(z, w, e))
  {
    if Enabled(w, e) {
      if e.Deliver? {
        DeliveredKeepsInv(z, w, e.index, e.env, e.links);
      } else if e.Originate? {
        CreatedOk(z, w, e.node, e.request, e.supply);
        var n := AfterCreating(w.nodes[e.node], e.request, e.supply);
        assert NodeOk(e.node, w.nodes[e.node]);
        var o := Created(z, w.nodes[e.node], e.request, e.supply).(node := e.node);
        SentKeepsInv(z, w, n, o, e.links);
      } else {
        LocalKeepsInv(z, w, e);
      }
    }
  }

  /**
    In every state of every run: a copy's TTL and hops add up to the TTL it started with (unless its content was lost),
    no copy is addressed to its sender, no node lists itself as a peer, and every record stems from a created message.
   */
  lemma {:induction false} EveryRunIsSafe(z: Lz4, w: World, es: seq<Event>)
    requires Inverts(z) && Initial(w)
    ensures Inv(z, Run(z, w, es))
  {
    if es != [] {
      var k := |es| - 1;
      EveryRunIsSafe(z, w, es[..k]);
      StepKeepsInv(z, Run(z, w, es[..k]), es[k]);
    }
  }

  /** No creation: a recorded small message was sent, field for field, by another node. */
  lemma NoCreation(z: Lz4, w: World, es: seq<Event>, r: Record)
    requires Inverts(z) && Initial(w) && r in Run(z, w, es).records
    ensures r.origin in Run(z, w, es).log && r.origin.message.Some?
    ensures Small(r.origin) ==> r.entry.message == r.origin.message.value && r.origin.node != r.node
  {
    EveryRunIsSafe(z, w, es);
    assert RecordOk(Run(z, w, es), r);
  }

  /** No node's peer table ever contains the node itself. */
  lemma NoSelfPeer(z: Lz4, w: World, es: seq<Event>, name: bytes)
    requires Inverts(z) && Initial(w) && name in Run(z, w, es).nodes
    ensures name !in Ids(Run(z, w, es).nodes[name].peers)
    ensures Distinct(Ids(Run(z, w, es).nodes[name].peers))
  {
    EveryRunIsSafe(z, w, es);
    var n := Run(z, w, es).nodes[name];
    assert NodeOk(name, n);
    FoundIffListed(n.peers, name);
    UniqueIsDistinct(n.peers);
  }

  /** Every sturdy copy under way equals its original but for TTL and canonical form, after any number of hops. */
  lemma CopiesAreIntact(z: Lz4, w: World, es: seq<Event>, f: Flight)
    requires Inverts(z) && Initial(w) && f in Run(z, w, es).inflight && Sturdy(z, f.origin.packet)
    ensures f.hops <= f.origin.packet.ttl && f.packet == HopState(z, f.origin.packet, f.hops)
    ensures f.packet.ttl + f.hops == f.origin.packet.ttl
    ensures f.origin in Run(z, w, es).log
  {
    EveryRunIsSafe(z, w, es);
    assert FlightOk(z, Run(z, w, es), f);
  }
}
