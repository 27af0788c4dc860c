/**
  Flooding covers what the TTL allows: in every run that has come to rest, a message has reached every node on an open
  path of up to eight hops, and is in the history of those that accept it.
 */
module MeshCoverage {
  import opened Bytes
  import opened Text
  import opened PacketCodec
  import opened NodeData
  import opened MessageService
  import opened Mesh
  import opened MeshSafety
  import opened NodeEffects
  import opened MeshOrigins
  import opened MeshReach
  import opened MeshDirect

  // ---------------------------------------------------------------- what happened in a run

  /** The event delivers a copy of `o` to `d` after `hops` hops. */
  ghost predicate Delivers(v: World, e: Event, o: Origin, d: bytes, hops: nat) {
    e.Deliver? && Enabled(v, e) && IsCopy(v.inflight[e.index], o, d, hops)
  }

  /** Some event of the run does. */
  ghost predicate Received(z: Lz4, w: World, es: seq<Event>, o: Origin, d: bytes, hops: nat) {
    && es != []
    && var k := |es| - 1;
    Received(z, w, es[..k], o, d, hops) || Delivers(Run(z, w, es[..k]), es[k], o, d, hops)
  }

  /** When a copy of `o` is delivered to `a`, node `a` lists `b` and has it connected under its ID. */
  ghost predicate OpenAt(v: World, e: Event, o: Origin, a: bytes, b: bytes) {
    e.Deliver? && Enabled(v, e) && v.inflight[e.index].dst == a && v.inflight[e.index].origin == o ==>
      FiledById(e.links, b) && FindPeer(v.nodes[a].peers, b).Some?
  }

  ghost predicate Open(z: Lz4, w: World, es: seq<Event>, o: Origin, a: bytes, b: bytes) {
    es == [] ||
    var k := |es| - 1;
    Open(z, w, es[..k], o, a, b) && OpenAt(Run(z, w, es[..k]), es[k], o, a, b)
  }

  // ---------------------------------------------------------------- one edge

  /** A copy under way stays so until it is delivered. */
  lemma StaysUntilDelivered(z: Lz4, v: World, e: Event, o: Origin, d: bytes, hops: nat)
    requires OnItsWay(v, o, d, hops) && !Delivers(v, e, o, d, hops)
    ensures OnItsWay(Step(z, v, e), o, d, hops)
  {
    if Enabled(v, e) && e.Deliver? {
      OthersStay(v, e.index, o, d, hops);
      DeliveryKeepsOthers(z, v, e.index, e.env, e.links);
      StaysInLonger(Without(v, e.index), Delivered(z, v, e.index, e.env, e.links), o, d, hops);
    } else {
      StaysInLonger(v, Step(z, v, e), o, d, hops);
    }
  }

  lemma StaysInLonger(v: World, v': World, o: Origin, d: bytes, hops: nat)
    requires OnItsWay(v, o, d, hops) && v.inflight <= v'.inflight
    ensures OnItsWay(v', o, d, hops)
  {
    var j :| 0 <= j < |v.inflight| && IsCopy(v.inflight[j], o, d, hops);
    assert v'.inflight[j] == v.inflight[j];
  }

  lemma OthersStay(v: World, i: nat, o: Origin, d: bytes, hops: nat)
    requires OnItsWay(v, o, d, hops) && i < |v.inflight| && !IsCopy(v.inflight[i], o, d, hops)
    ensures OnItsWay(Without(v, i), o, d, hops)
  {
    var j :| 0 <= j < |v.inflight| && IsCopy(v.inflight[j], o, d, hops);
    assert Without(v, i).inflight[if j < i then j else j - 1] == v.inflight[j];
  }

  lemma ArrivalKeepsOthers(v: World, f: Flight, q: Packet, o: Outcome, links: Links)
    ensures v.inflight <= Arrived(v, f, q, o, links).inflight
    ensures v.records <= Arrived(v, f, q, o, links).records
  {
  }

  lemma DeliveryKeepsOthers(z: Lz4, v: World, i: nat, env: Env, links: Links)
    requires Enabled(v, Deliver(i, env, links))
    ensures Without(v, i).inflight <= Delivered(z, v, i, env, links).inflight
    ensures v.records <= Delivered(z, v, i, env, links).records
  {
    var f := v.inflight[i];
    var t := Transmitted(z, f.packet, f.filler);
    if t.Got? {
      ArrivalKeepsOthers(Without(v, i), f, t.value, Processed(v.nodes[f.dst], t.value, env), links);
    }
  }

  /** A message packet as its creator makes it, apart from the state of the mesh. */
  lemma PlainChatInRun(z: Lz4, w: World, v: World, o: Origin)
    requires PlainChat(z, w, o) && Inv(z, v) && o in v.log
    ensures PlainChat(z, v, o)
  {
    assert OriginOk(z, v, o);
  }

  lemma CopyForwards(z: Lz4, w: World, v: World, j: nat, env: Env, links: Links, o: Origin, b: bytes)
    requires Inverts(z) && Inv(z, v) && PlainChat(z, w, o) && Enabled(v, Deliver(j, env, links))
    requires v.inflight[j].origin == o && v.inflight[j].hops < o.packet.ttl && b != o.node
    requires FiledById(links, b) && FindPeer(v.nodes[v.inflight[j].dst].peers, b).Some?
    ensures OnItsWay(Delivered(z, v, j, env, links), o, b, v.inflight[j].hops + 1)
  {
    assert FlightOk(z, v, v.inflight[j]);
    PlainChatInRun(z, w, v, o);
    Forwarded(z, v, o, j, env, links, b);
  }

  lemma DeliveryForwards(z: Lz4, w: World, v: World, e: Event, o: Origin, a: bytes, b: bytes, hops: nat)
    requires Inverts(z) && Inv(z, v) && PlainChat(z, w, o) && hops < o.packet.ttl && b != o.node
    requires OpenAt(v, e, o, a, b) && Delivers(v, e, o, a, hops)
    ensures OnItsWay(Step(z, v, e), o, b, hops + 1)
  {
    CopyForwards(z, w, v, e.index, e.env, e.links, o, b);
    StepDelivers(z, v, e.index, e.env, e.links);
  }

  /** Once `a` has received the message, `b` has received it or a copy is on its way there. */
  lemma {:induction false} EdgeCarries(z: Lz4, w: World, es: seq<Event>, o: Origin, a: bytes, b: bytes, hops: nat)
    requires Inverts(z) && Initial(w) && PlainChat(z, w, o) && hops < o.packet.ttl && b != o.node
    requires Open(z, w, es, o, a, b) && Received(z, w, es, o, a, hops)
    ensures OnItsWay(Run(z, w, es), o, b, hops + 1) || Received(z, w, es, o, b, hops + 1)
  {
    var k := |es| - 1;
    var v := Run(z, w, es[..k]);
    if Received(z, w, es[..k], o, a, hops) {
      EdgeCarries(z, w, es[..k], o, a, b, hops);
      if OnItsWay(v, o, b, hops + 1) && !Delivers(v, es[k], o, b, hops + 1) {
        StaysUntilDelivered(z, v, es[k], o, b, hops + 1);
      }
    } else {
      EveryRunIsSafe(z, w, es[..k]);
      DeliveryForwards(z, w, v, es[k], o, a, b, hops);
    }
  }

  lemma LaunchSends(z: Lz4, v: World, e: Event, o: Origin, d: bytes)
    requires Launches(z, v, e, o, d)
    ensures OnItsWay(Step(z, v, e), o, d, 0)
  {
    SentIsOnItsWay(v, AfterCreating(v.nodes[e.node], e.request, e.supply), o, e.links, d);
  }

  /** A neighbour the creator broadcast to has received the message or a copy is on its way there. */
  lemma {:induction false} LaunchCarries(z: Lz4, w: World, es: seq<Event>, o: Origin, d: bytes)
    requires Launched(z, w, es, o, d)
    ensures OnItsWay(Run(z, w, es), o, d, 0) || Received(z, w, es, o, d, 0)
  {
    var k := |es| - 1;
    var v := Run(z, w, es[..k]);
    if Launched(z, w, es[..k], o, d) {
      LaunchCarries(z, w, es[..k], o, d);
      if OnItsWay(v, o, d, 0) && !Delivers(v, es[k], o, d, 0) {
        StaysUntilDelivered(z, v, es[k], o, d, 0);
      }
    } else {
      LaunchSends(z, v, es[k], o, d);
    }
  }

  // ---------------------------------------------------------------- coverage

  /** No copy of the message is left under way. */
  ghost predicate AtRest(v: World, o: Origin) {
    forall f :: f in v.inflight ==> f.origin != o
  }

  lemma RestLeavesNothing(v: World, o: Origin, d: bytes, hops: nat)
    requires AtRest(v, o)
    ensures !OnItsWay(v, o, d, hops)
  {
  }

  lemma EdgeCovers(z: Lz4, w: World, es: seq<Event>, o: Origin, a: bytes, b: bytes, hops: nat)
    requires Inverts(z) && Initial(w) && PlainChat(z, w, o) && hops < o.packet.ttl && b != o.node
    requires Open(z, w, es, o, a, b) && Received(z, w, es, o, a, hops) && AtRest(Run(z, w, es), o)
    ensures Received(z, w, es, o, b, hops + 1)
  {
    EdgeCarries(z, w, es, o, a, b, hops);
    RestLeavesNothing(Run(z, w, es), o, b, hops + 1);
  }

  /** A path from the creator: broadcast to its first neighbour, open from there on, and never back to the creator. */
  ghost predicate OpenPath(z: Lz4, w: World, es: seq<Event>, o: Origin, path: seq<bytes>) {
    && |path| >= 2 && path[0] == o.node && Launched(z, w, es, o, path[1])
    && forall i :: 2 <= i < |path| ==> path[i] != o.node && Open(z, w, es, o, path[i - 1], path[i])
  }

  lemma PathEdge(z: Lz4, w: World, es: seq<Event>, o: Origin, path: seq<bytes>, i: nat)
    requires OpenPath(z, w, es, o, path) && 2 <= i < |path|
    ensures path[i] != o.node && Open(z, w, es, o, path[i - 1], path[i])
  {
  }

  lemma NeighbourCovered(z: Lz4, w: World, es: seq<Event>, o: Origin, d: bytes)
    requires Launched(z, w, es, o, d) && AtRest(Run(z, w, es), o)
    ensures Received(z, w, es, o, d, 0)
  {
    LaunchCarries(z, w, es, o, d);
    RestLeavesNothing(Run(z, w, es), o, d, 0);
  }

  /**
    In every run after which no copy of a message is left, each node of an open path has received it, the i-th after
    i - 1 hops, as far as the TTL allows: eight hops for the TTL of 7 that chat messages start with.
   */
  lemma {:induction false} FloodingCovers(z: Lz4, w: World, es: seq<Event>, o: Origin, path: seq<bytes>, i: nat)
    requires Inverts(z) && Initial(w) && PlainChat(z, w, o)
    requires OpenPath(z, w, es, o, path) && AtRest(Run(z, w, es), o)
    requires 1 <= i < |path| && i <= o.packet.ttl + 1
    ensures Received(z, w, es, o, path[i], i - 1)
  {
    if i == 1 {
      NeighbourCovered(z, w, es, o, path[1]);
    } else {
      FloodingCovers(z, w, es, o, path, i - 1);
      PathEdge(z, w, es, o, path, i);
      EdgeCovers(z, w, es, o, path[i - 1], path[i], i - 2);
    }
  }

  // ---------------------------------------------------------------- and records

  /** A delivery to `d` is of `o`, which is for `d`, or of a packet with another sender or timestamp. */
  ghost predicate ReceptiveAt(z: Lz4, v: World, e: Event, o: Origin, d: bytes) {
    e.Deliver? && Enabled(v, e) && v.inflight[e.index].dst == d ==>
      var f := v.inflight[e.index];
      if f.origin == o then o.message.Some? && IsFor(v.nodes[d], o.message.value)
      else forall q :: Transmitted(z, f.packet, f.filler) == Got(q) ==> IdentOf(q) != IdentOf(o.packet)
  }

  ghost predicate Receptive(z: Lz4, w: World, es: seq<Event>, o: Origin, d: bytes) {
    es == [] ||
    var k := |es| - 1;
    Receptive(z, w, es[..k], o, d) && ReceptiveAt(z, Run(z, w, es[..k]), es[k], o, d)
  }

  ghost predicate RecordedAt(v: World, o: Origin, d: bytes) {
    exists r :: r in v.records && r.node == d && r.origin == o
  }

  /** The event delivers some copy of `o` to `d`. */
  ghost predicate Brings(v: World, e: Event, o: Origin, d: bytes) {
    e.Deliver? && Enabled(v, e) && v.inflight[e.index].dst == d && v.inflight[e.index].origin == o
  }

  ghost predicate Brought(z: Lz4, w: World, es: seq<Event>, o: Origin, d: bytes) {
    && es != []
    && var k := |es| - 1;
    Brought(z, w, es[..k], o, d) || Brings(Run(z, w, es[..k]), es[k], o, d)
  }

  lemma {:induction false} ReceivedIsBrought(z: Lz4, w: World, es: seq<Event>, o: Origin, d: bytes, hops: nat)
    requires Received(z, w, es, o, d, hops)
    ensures Brought(z, w, es, o, d)
  {
    var k := |es| - 1;
    if Received(z, w, es[..k], o, d, hops) {
      ReceivedIsBrought(z, w, es[..k], o, d, hops);
    }
  }

  lemma StepKeepsRecords(z: Lz4, v: World, e: Event)
    ensures v.records <= Step(z, v, e).records
  {
    if Enabled(v, e) && e.Deliver? {
      DeliveryKeepsOthers(z, v, e.index, e.env, e.links);
    }
  }

  lemma DeliveredNode(z: Lz4, v: World, i: nat, env: Env, links: Links, q: Packet)
    requires Enabled(v, Deliver(i, env, links))
    requires Transmitted(z, v.inflight[i].packet, v.inflight[i].filler) == Got(q)
    ensures var d := v.inflight[i].dst;
            Delivered(z, v, i, env, links).nodes == v.nodes[d := Processed(v.nodes[d], q, env).node]
  {
    DeliveredIs(z, v, i, env, links, q);
    ArrivedNodes(Without(v, i), v.inflight[i], q, Processed(v.nodes[v.inflight[i].dst], q, env), links);
  }

  lemma ArrivedNodes(v: World, f: Flight, q: Packet, o: Outcome, links: Links)
    ensures Arrived(v, f, q, o, links).nodes == v.nodes[f.dst := o.node]
  {
  }

  /** Processing a packet with another sender or timestamp does not make a key known. */
  lemma OtherKeysStayOut(n: Node, q: Packet, env: Env, p: Packet)
    requires IdentOf(q) != IdentOf(p) && Key(IdentOf(p)) !in n.processed
    ensures Key(IdentOf(p)) !in Processed(n, q, env).node.processed
  {
    ProcessedSetAfter(n, q, env);
    if Key(IdentOf(q)) == Key(IdentOf(p)) {
      PacketKeyInjective(q.senderID, q.timestamp, p.senderID, p.timestamp);
    }
  }

  lemma DeliveryLeavesKeyOut(z: Lz4, v: World, i: nat, env: Env, links: Links, o: Origin, d: bytes)
    requires Enabled(v, Deliver(i, env, links)) && d in v.nodes && Key(IdentOf(o.packet)) !in v.nodes[d].processed
    requires ReceptiveAt(z, v, Deliver(i, env, links), o, d) && !Brings(v, Deliver(i, env, links), o, d)
    ensures var w' := Delivered(z, v, i, env, links);
            d in w'.nodes && Key(IdentOf(o.packet)) !in w'.nodes[d].processed
  {
    var f := v.inflight[i];
    var t := Transmitted(z, f.packet, f.filler);
    if t.Got? {
      DeliveredNode(z, v, i, env, links, t.value);
      if f.dst == d {
        OtherKeysStayOut(v.nodes[d], t.value, env, o.packet);
      }
    }
  }

  lemma StepLeavesKeyOut(z: Lz4, v: World, e: Event, o: Origin, d: bytes)
    requires d in v.nodes && Key(IdentOf(o.packet)) !in v.nodes[d].processed
    requires ReceptiveAt(z, v, e, o, d) && !Brings(v, e, o, d)
    ensures d in Step(z, v, e).nodes && Key(IdentOf(o.packet)) !in Step(z, v, e).nodes[d].processed
  {
    if Enabled(v, e) && e.Deliver? {
      DeliveryLeavesKeyOut(z, v, e.index, e.env, e.links, o, d);
    }
  }

  lemma FirstDeliveryRecords(z: Lz4, w: World, v: World, e: Event, o: Origin, d: bytes)
    requires Inverts(z) && Inv(z, v) && PlainChat(z, w, o)
    requires Brings(v, e, o, d) && ReceptiveAt(z, v, e, o, d) && Key(IdentOf(o.packet)) !in v.nodes[d].processed
    ensures RecordedAt(Step(z, v, e), o, d)
  {
    assert FlightOk(z, v, v.inflight[e.index]);
    PlainChatInRun(z, w, v, o);
    ArrivesInHistory(z, v, o, e.index, e.env, e.links);
    StepDelivers(z, v, e.index, e.env, e.links);
  }

  /** A node that never saw the packet before records the message when the first copy arrives. */
  lemma {:induction false} RecordedOnceBrought(z: Lz4, w: World, es: seq<Event>, o: Origin, d: bytes)
    requires Inverts(z) && Initial(w) && PlainChat(z, w, o) && Receptive(z, w, es, o, d)
    requires d in w.nodes && Key(IdentOf(o.packet)) !in w.nodes[d].processed
    ensures var v := Run(z, w, es);
            if Brought(z, w, es, o, d) then RecordedAt(v, o, d)
            else d in v.nodes && Key(IdentOf(o.packet)) !in v.nodes[d].processed
  {
    if es != [] {
      var k := |es| - 1;
      var v := Run(z, w, es[..k]);
      RecordedOnceBrought(z, w, es[..k], o, d);
      StepKeepsRecords(z, v, es[k]);
      if !Brought(z, w, es[..k], o, d) {
        if Brings(v, es[k], o, d) {
          EveryRunIsSafe(z, w, es[..k]);
          FirstDeliveryRecords(z, w, v, es[k], o, d);
        } else {
          StepLeavesKeyOut(z, v, es[k], o, d);
        }
      }
    }
  }

  /**
    In every run after which no copy of a message is left, every node of an open path within its TTL that accepts the
    message and shares its sender and timestamp with no other packet has in its history what was typed at the creator.
   */
  lemma EveryoneInRangeHasTheMessage(z: Lz4, w: World, es: seq<Event>, o: Origin, path: seq<bytes>, i: nat)
    returns (r: Record)
    requires Inverts(z) && Initial(w) && PlainChat(z, w, o)
    requires OpenPath(z, w, es, o, path) && AtRest(Run(z, w, es), o)
    requires 1 <= i < |path| && i <= o.packet.ttl + 1
    requires Receptive(z, w, es, o, path[i])
    requires path[i] in w.nodes && Key(IdentOf(o.packet)) !in w.nodes[path[i]].processed
    ensures r in Run(z, w, es).records && r.node == path[i] && r.origin == o
    ensures r.entry.message == o.message.value && Typed(z, w, es, o.node, r.entry.message)
  {
    FloodingCovers(z, w, es, o, path, i);
    ReceivedIsBrought(z, w, es, o, path[i], i - 1);
    RecordedOnceBrought(z, w, es, o, path[i]);
    r :| r in Run(z, w, es).records && r.node == path[i] && r.origin == o;
    EveryRecordWasTyped(z, w, es, r);
    NoCreation(z, w, es, r);
  }
}
