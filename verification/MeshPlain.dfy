/** From empty session tables no Noise session ever comes about: every chat message travels as a plain packet. */
module MeshPlain {
  import opened Bytes
  import opened Text
  import opened PacketCodec
  import opened NodeData
  import opened MessageService
  import opened Mesh
  import MeshSafety

  predicate UsesNoise(typ: byte) {
    typ == TYPE_NOISE_INIT || typ == TYPE_NOISE_RESP || typ == TYPE_NOISE_ENCRYPTED
  }

  ghost predicate Plain(w: World) {
    && (forall name :: name in w.nodes ==> w.nodes[name].sessions == map[])
    && (forall o :: o in w.log ==> !UsesNoise(o.packet.typ))
    && (forall f :: f in w.inflight ==> !UsesNoise(f.packet.typ))
  }

  ghost predicate PlainOutcome(o: Outcome) {
    o.node.sessions == map[] && (o.reply.Some? ==> !UsesNoise(o.reply.value.typ))
  }

  /** Initiating needs a session that exists already, and only a handshake packet creates one. */
  lemma DispatchStaysPlain(n: Node, p: Packet, env: Env)
    requires n.sessions == map[] && !UsesNoise(p.typ)
    ensures PlainOutcome(Dispatched(n, p, env))
  {
  }

  lemma ProcessingStaysPlain(n: Node, p: Packet, env: Env)
    requires n.sessions == map[] && !UsesNoise(p.typ)
    ensures PlainOutcome(Processed(n, p, env))
  {
    DispatchStaysPlain(n.(processed := Marked(n.processed, PacketKey(p.senderID, p.timestamp))), p, env);
  }

  /** The identity announce of a node with a greater ID always ends in an exception, and is not relayed. */
  lemma IdentityAnnounceFails(n: Node, p: Packet, env: Env)
    requires n.sessions == map[] && p.typ == TYPE_NOISE_IDENTITY && p.IsValid()
    requires PacketKey(p.senderID, p.timestamp) !in n.processed
    ensures Processed(n, p, env).threw <==> Less(n.PeerID(), HexOf(p.senderID))
  {
    LessTrichotomy(n.PeerID(), HexOf(p.senderID));
  }

  lemma SentStaysPlain(w: World, node: Node, o: Origin, links: Links)
    requires Plain(w) && node.sessions == map[] && !UsesNoise(o.packet.typ)
    ensures Plain(Sent(w, node, o, links))
  {
    forall f | f in Copies(links.reach, o.packet, false, links, o, 0) ensures !UsesNoise(f.packet.typ) {
      MeshSafety.CopyMembers(links.reach, o.packet, false, links, o, 0, f);
    }
  }

  lemma RelayedStaysPlain(w: World, f: Flight, q: Packet, peers: seq<Peer>, links: Links)
    requires Plain(w) && !UsesNoise(q.typ)
    ensures Plain(w.(inflight := w.inflight + Relayed(f, q, peers, links)))
  {
    var targets := RelayTargets(peers, HexOf(q.senderID), links);
    forall g | g in Relayed(f, q, peers, links) ensures !UsesNoise(g.packet.typ) {
      MeshSafety.CopyMembers(targets, q.(ttl := q.ttl - 1), true, links, f.origin, f.hops + 1, g);
    }
  }

  lemma ArrivedStaysPlain(w: World, f: Flight, q: Packet, o: Outcome, links: Links)
    requires Plain(w) && PlainOutcome(o) && !UsesNoise(q.typ)
    ensures Plain(Arrived(w, f, q, o, links))
  {
    var w1 := Noted(w, f, o);
    assert Plain(w1);
    var w2 := w1;
    if o.reply.Some? {
      SentStaysPlain(w1, o.node, Origin(f.dst, o.reply.value, None), links);
      w2 := Sent(w1, o.node, Origin(f.dst, o.reply.value, None), links);
    }
    RelayedStaysPlain(w2, f, q, o.node.peers, links);
  }

  lemma DeliveredStaysPlain(z: Lz4, w: World, i: nat, env: Env, links: Links)
    requires Plain(w) && Enabled(w, Deliver(i, env, links))
    ensures Plain(Delivered(z, w, i, env, links))
  {
    var f := w.inflight[i];
    var t := Transmitted(z, f.packet, f.filler);
    if t.Got? {
      TransmissionShape(z, f.packet, f.filler);
      ProcessingStaysPlain(w.nodes[f.dst], t.value, env);
      ArrivedStaysPlain(Without(w, i), f, t.value, Processed(w.nodes[f.dst], t.value, env), links);
    }
  }

  lemma CreatedIsPlain(z: Lz4, n: Node, r: Request, s: Supply)
    requires n.sessions == map[]
    ensures !UsesNoise(Created(z, n, r, s).packet.typ) && AfterCreating(n, r, s) == n
  {
  }

  lemma StepStaysPlain(z: Lz4, w: World, e: Event)
    requires Plain(w)
    ensures Plain(Step(z, w, e))
  {
    if Enabled(w, e) {
      if e.Deliver? {
        DeliveredStaysPlain(z, w, e.index, e.env, e.links);
      } else if e.Originate? {
        var n := w.nodes[e.node];
        CreatedIsPlain(z, n, e.request, e.supply);
        SentStaysPlain(w, n, Created(z, n, e.request, e.supply).(node := e.node), e.links);
      }
    }
  }

  /** In every run from empty session tables no handshake or encrypted packet is ever created and no session made. */
  lemma {:induction false} EveryRunIsPlain(z: Lz4, w: World, es: seq<Event>)
    requires Plain(w)
    ensures Plain(Run(z, w, es))
  {
    if es != [] {
      EveryRunIsPlain(z, w, es[..|es| - 1]);
      StepStaysPlain(z, Run(z, w, es[..|es| - 1]), es[|es| - 1]);
    }
  }
}
