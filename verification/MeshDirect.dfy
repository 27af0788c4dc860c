/**
  The transports that ship with the program file their connections under device addresses or UUIDs. Then no packet is
  ever relayed: a message goes no further than the connections of the node that created it.
 */
module MeshDirect {
  import opened Bytes
  import opened Text
  import opened PacketCodec
  import opened NodeData
  import opened MessageService
  import opened Mesh
  import opened MeshSafety
  import opened MeshReach

  const COLON: byte := 58
  const HYPHEN: byte := 45

  /** XX:XX:XX:XX:XX:XX, the key of a connection on Linux. */
  predicate DeviceAddress(key: bytes) {
    |key| == 17 && forall i :: 0 <= i < 17 && i % 3 == 2 ==> key[i] == COLON
  }

  /** 8-4-4-4-12, the key of a connection on Apple systems. */
  predicate UuidText(key: bytes) {
    |key| == 36 && key[8] == HYPHEN && key[13] == HYPHEN && key[18] == HYPHEN && key[23] == HYPHEN
  }

  /** A key of a shipped transport. */
  predicate ShippedKey(key: bytes) {
    DeviceAddress(key) || UuidText(key)
  }

  /** No connection is filed under anything that could be a peer ID. */
  ghost predicate NoPeerIDKeys(links: Links) {
    forall d :: d in links.reach ==> !HexText(links.filed(d))
  }

  lemma ShippedKeysAreNoPeerIDs(links: Links)
    requires forall d :: d in links.reach ==> ShippedKey(links.filed(d))
    ensures NoPeerIDKeys(links)
  {
    forall d | d in links.reach ensures !HexText(links.filed(d)) {
      var key := links.filed(d);
      assert key[2] == COLON || key[8] == HYPHEN;
    }
  }

  lemma {:induction false} NoRelayTargets(peers: seq<Peer>, sender: bytes, links: Links)
    requires NoPeerIDKeys(links) && ListsHexTexts(peers)
    ensures RelayTargets(peers, sender, links) == []
  {
    if peers != [] {
      assert FindPeer(peers, peers[0].peerID).Some?;
      forall id | FindPeer(peers[1..], id).Some? ensures HexText(id) {
        assert FindPeer(peers, id).Some?;
      }
      NoRelayTargets(peers[1..], sender, links);
    }
  }

  // ---------------------------------------------------------------- who was sent to by the originator itself

  /** The event creates `o` and broadcasts it over a connection to `d`. */
  ghost predicate Launches(z: Lz4, v: World, e: Event, o: Origin, d: bytes) {
    && e.Originate? && Enabled(v, e) && d in e.links.reach
    && TheOrigin(z, v, e.node, e.request, e.supply) == o
  }

  /** Some event of the run does. */
  ghost predicate Launched(z: Lz4, w: World, es: seq<Event>, o: Origin, d: bytes) {
    && es != []
    && var k := |es| - 1;
    Launched(z, w, es[..k], o, d) || Launches(z, Run(z, w, es[..k]), es[k], o, d)
  }

  ghost predicate WithoutPeerIDKeys(es: seq<Event>) {
    forall i :: 0 <= i < |es| && (es[i].Originate? || es[i].Deliver?) ==> NoPeerIDKeys(es[i].links)
  }

  /** Every copy is on its first hop, and messages are on their way to and recorded at connections of their creator. */
  ghost predicate Direct(z: Lz4, w: World, es: seq<Event>, v: World) {
    && (forall f :: f in v.inflight ==> f.hops == 0 && (f.origin.message.Some? ==> Launched(z, w, es, f.origin, f.dst)))
    && (forall r :: r in v.records ==> Launched(z, w, es, r.origin, r.node))
  }

  lemma SentStaysDirect(z: Lz4, w: World, es: seq<Event>, v: World, node: Node, o: Origin, links: Links)
    requires Direct(z, w, es, v)
    requires o.message.Some? ==> forall d :: d in links.reach ==> Launched(z, w, es, o, d)
    ensures Direct(z, w, es, Sent(v, node, o, links))
  {
    var copies := Copies(links.reach, o.packet, false, links, o, 0);
    forall f | f in copies ensures f.hops == 0 && f.origin == o && f.dst in links.reach {
      CopyMembers(links.reach, o.packet, false, links, o, 0, f);
    }
  }

  lemma ArrivedStaysDirect(z: Lz4, w: World, es: seq<Event>, v: World, f: Flight, q: Packet, o: Outcome, links: Links)
    requires Direct(z, w, es, v) && f.hops == 0 && NoPeerIDKeys(links) && ListsHexTexts(o.node.peers)
    requires o.recorded.Some? ==> Launched(z, w, es, f.origin, f.dst)
    ensures Direct(z, w, es, Arrived(v, f, q, o, links))
  {
    var w1 := Noted(v, f, o);
    assert Direct(z, w, es, w1);
    if o.reply.Some? {
      SentStaysDirect(z, w, es, w1, o.node, Origin(f.dst, o.reply.value, None), links);
    }
    NoRelayTargets(o.node.peers, HexOf(q.senderID), links);
  }

  lemma DeliveredStaysDirect(z: Lz4, w: World, es: seq<Event>, v: World, i: nat, env: Env, links: Links)
    requires Inverts(z) && Inv(z, v) && Direct(z, w, es, v) && NoPeerIDKeys(links)
    requires Enabled(v, Deliver(i, env, links))
    ensures Direct(z, w, es, Delivered(z, v, i, env, links))
  {
    var f := v.inflight[i];
    assert FlightOk(z, v, f) && NodeOk(f.dst, v.nodes[f.dst]);
    var t := Transmitted(z, f.packet, f.filler);
    if t.Got? {
      var o := Processed(v.nodes[f.dst], t.value, env);
      ArrivalFollows(z, f, t.value);
      ProcessingOk(v.nodes[f.dst], t.value, env);
      NodeStaysOk(f.dst, v.nodes[f.dst], f, t.value, o);
      if o.recorded.Some? {
        ArrivalRecordOk(z, v, f, t.value, v.nodes[f.dst], o);
      }
      ArrivedStaysDirect(z, w, es, Without(v, i), f, t.value, o, links);
    }
  }

  /** A longer run has launched what a shorter one has. */
  lemma DirectForLonger(z: Lz4, w: World, es: seq<Event>, v: World)
    requires es != [] && Direct(z, w, es[..|es| - 1], v)
    ensures Direct(z, w, es, v)
  {
  }

  lemma OriginateStaysDirect(z: Lz4, w: World, es: seq<Event>)
    requires es != [] && es[|es| - 1].Originate? && Enabled(Run(z, w, es[..|es| - 1]), es[|es| - 1])
    requires Direct(z, w, es, Run(z, w, es[..|es| - 1]))
    ensures Direct(z, w, es, Run(z, w, es))
  {
    var v, e := Run(z, w, es[..|es| - 1]), es[|es| - 1];
    var o := TheOrigin(z, v, e.node, e.request, e.supply);
    forall d | d in e.links.reach ensures Launched(z, w, es, o, d) {
      assert Launches(z, v, e, o, d);
    }
    SentStaysDirect(z, w, es, v, AfterCreating(v.nodes[e.node], e.request, e.supply), o, e.links);
  }

  /**
    In every run over connections that are not filed under peer IDs no copy ever makes a second hop, and every message
    recorded from the network was broadcast to that node by its creator.
   */
  lemma {:induction false} NothingIsRelayed(z: Lz4, w: World, es: seq<Event>)
    requires Inverts(z) && Initial(w) && WithoutPeerIDKeys(es)
    ensures forall f :: f in Run(z, w, es).inflight ==> f.hops == 0
    ensures forall r :: r in Run(z, w, es).records ==> Launched(z, w, es, r.origin, r.node)
    ensures Direct(z, w, es, Run(z, w, es))
  {
    if es != [] {
      var k := |es| - 1;
      var v := Run(z, w, es[..k]);
      NothingIsRelayed(z, w, es[..k]);
      EveryRunIsSafe(z, w, es[..k]);
      DirectForLonger(z, w, es, v);
      if Enabled(v, es[k]) {
        if es[k].Deliver? {
          DeliveredStaysDirect(z, w, es, v, es[k].index, es[k].env, es[k].links);
        } else if es[k].Originate? {
          OriginateStaysDirect(z, w, es);
        }
      }
    }
  }

  /** So it is in every run over the shipped transports, on whichever of the two systems each node is. */
  lemma ShippedTransportsNeverRelay(z: Lz4, w: World, es: seq<Event>)
    requires Inverts(z) && Initial(w)
    requires forall i, d :: 0 <= i < |es| && (es[i].Originate? || es[i].Deliver?) && d in es[i].links.reach ==>
                              ShippedKey(es[i].links.filed(d))
    ensures forall f :: f in Run(z, w, es).inflight ==> f.hops == 0
    ensures forall r :: r in Run(z, w, es).records ==> Launched(z, w, es, r.origin, r.node)
  {
    forall i | 0 <= i < |es| && (es[i].Originate? || es[i].Deliver?) ensures NoPeerIDKeys(es[i].links) {
      ShippedKeysAreNoPeerIDs(es[i].links);
    }
    NothingIsRelayed(z, w, es);
  }
}
