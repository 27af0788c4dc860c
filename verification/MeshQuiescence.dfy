/** Flooding ends: without new requests only a bounded number of deliveries is possible. */
module MeshQuiescence {
  import opened Bytes
  import opened Text
  import opened Padding
  import opened PacketCodec
  import opened NodeData
  import opened MessageService
  import opened Mesh
  import MeshSafety

  // ---------------------------------------------------------------- weights

  /** `n` times `a`, by repeated addition. */
  ghost function Times(n: nat, a: nat): (r: nat) {
    if n == 0 then 0 else a + Times(n - 1, a)
  }

  lemma {:induction false} TimesGrows(n: nat, n': nat, a: nat, b: nat)
    requires n <= n' && a <= b
    ensures Times(n, a) <= Times(n', b)
  {
    if n > 0 {
      TimesGrows(n - 1, n' - 1, a, b);
    }
  }

  /** The most copies a blank packet with this TTL can still cause, in a mesh of `n` nodes, itself included. */
  ghost function BlankWeight(n: nat, ttl: nat): (w: nat)
    ensures w >= 1
  {
    if ttl == 0 then 1 else 1 + Times(n, BlankWeight(n, ttl - 1))
  }

  /**
    The same for a packet of reply rank `rank`: its relays, the blank packets it may collapse into (they restart at
    TTL 7, so are relayed with 6), and a reply of lower rank to every node.
   */
  ghost function Weight(n: nat, rank: nat, ttl: nat): (w: nat)
    ensures w >= 1
    decreases rank, ttl
  {
    1 + Times(n, BlankWeight(n, PKT_TTL - 1))
    + (if ttl == 0 then 0 else Times(n, Weight(n, rank, ttl - 1)))
    + if rank == 0 then 0 else Times(n, Weight(n, rank - 1, PKT_TTL))
  }

  ghost function PacketWeight(n: nat, p: Packet): (w: nat)
    ensures w >= 1
  {
    if Blank(p) then BlankWeight(n, p.ttl) else Weight(n, Rank(p.typ), p.ttl)
  }

  ghost function Total(n: nat, fs: seq<Flight>): (t: nat) {
    if fs == [] then 0 else PacketWeight(n, fs[0].packet) + Total(n, fs[1..])
  }

  lemma {:induction false} TotalConcat(n: nat, a: seq<Flight>, b: seq<Flight>)
    ensures Total(n, a + b) == Total(n, a) + Total(n, b)
  {
    if a == [] {
      assert a + b == b;
    } else {
      TotalConcat(n, a[1..], b);
      assert (a + b)[1..] == a[1..] + b;
    }
  }

  lemma {:induction false} TotalBound(n: nat, fs: seq<Flight>, c: nat)
    requires forall f :: f in fs ==> PacketWeight(n, f.packet) <= c
    ensures Total(n, fs) <= Times(|fs|, c)
  {
    if fs != [] {
      TotalBound(n, fs[1..], c);
    }
  }

  lemma {:induction false} BlankBelow(n: nat, rank: nat, ttl: nat)
    ensures BlankWeight(n, ttl) <= Weight(n, rank, ttl)
  {
    if ttl > 0 {
      BlankBelow(n, rank, ttl - 1);
      TimesGrows(n, n, BlankWeight(n, ttl - 1), Weight(n, rank, ttl - 1));
    }
  }

  lemma {:induction false} WeightGrowsWithTtl(n: nat, rank: nat, a: nat, b: nat)
    requires a <= b
    ensures Weight(n, rank, a) <= Weight(n, rank, b)
  {
    if a > 0 {
      WeightGrowsWithTtl(n, rank, a - 1, b - 1);
      TimesGrows(n, n, Weight(n, rank, a - 1), Weight(n, rank, b - 1));
    }
  }

  lemma {:induction false} WeightGrowsWithRank(n: nat, r: nat, r': nat, ttl: nat)
    requires r <= r'
    ensures Weight(n, r, ttl) <= Weight(n, r', ttl)
    decreases r', ttl
  {
    if ttl > 0 {
      WeightGrowsWithRank(n, r, r', ttl - 1);
      TimesGrows(n, n, Weight(n, r, ttl - 1), Weight(n, r', ttl - 1));
    }
    if r > 0 {
      WeightGrowsWithRank(n, r - 1, r' - 1, PKT_TTL);
      TimesGrows(n, n, Weight(n, r - 1, PKT_TTL), Weight(n, r' - 1, PKT_TTL));
    }
  }

  lemma WeightGrows(n: nat, r: nat, r': nat, a: nat, b: nat)
    requires r <= r' && a <= b
    ensures Weight(n, r, a) <= Weight(n, r', b)
  {
    WeightGrowsWithTtl(n, r, a, b);
    WeightGrowsWithRank(n, r, r', b);
  }

  // ---------------------------------------------------------------- the branching is bounded by the number of nodes

  ghost predicate TablesOk(w: World) {
    && (forall name :: name in w.nodes ==> Unique(w.nodes[name].peers))
    && (forall f :: f in w.inflight ==> f.dst in w.nodes)
  }

  lemma {:induction false} RelayTargetsDistinct(peers: seq<Peer>, sender: bytes, links: Links)
    requires Unique(peers)
    ensures Distinct(RelayTargets(peers, sender, links))
    ensures forall d :: d in RelayTargets(peers, sender, links) ==>
                          d in links.reach && FindPeer(peers, links.filed(d)).Some?
  {
    if peers != [] {
      RelayTargetsDistinct(peers[1..], sender, links);
    }
  }

  lemma FanOut(w: World, peers: seq<Peer>, sender: bytes, name: bytes, links: Links)
    requires Unique(peers) && LinksOk(w, name, links)
    ensures |RelayTargets(peers, sender, links)| <= |w.nodes|
  {
    RelayTargetsDistinct(peers, sender, links);
    DistinctBound(RelayTargets(peers, sender, links), w.nodes.Keys);
  }

  lemma CopiesBound(n: nat, dsts: seq<bytes>, p: Packet, relay: bool, links: Links, origin: Origin, hops: nat)
    requires |dsts| <= n
    ensures Total(n, Copies(dsts, p, relay, links, origin, hops)) <= Times(n, PacketWeight(n, p))
  {
    var copies := Copies(dsts, p, relay, links, origin, hops);
    forall f | f in copies ensures PacketWeight(n, f.packet) <= PacketWeight(n, p) {
      MeshSafety.CopyMembers(dsts, p, relay, links, origin, hops, f);
    }
    TotalBound(n, copies, PacketWeight(n, p));
    TimesGrows(|copies|, n, PacketWeight(n, p), PacketWeight(n, p));
  }

  // ---------------------------------------------------------------- one delivery

  /** How a received packet's header relates to the one sent. */
  ghost predicate HeaderArrives(p: Packet, q: Packet) {
    && (Blank(p) ==> Blank(q) && q.ttl == p.ttl)
    && (q == DEFAULT_PACKET || SameHeader(p, q))
  }

  lemma RelayBound(n: nat, rank: nat, q: Packet)
    requires q.ttl > 0 && (Blank(q) || rank == Rank(q.typ))
    ensures Times(n, PacketWeight(n, q.(ttl := q.ttl - 1))) <= Times(n, Weight(n, rank, q.ttl - 1))
  {
    BlankBelow(n, rank, q.ttl - 1);
    TimesGrows(n, n, PacketWeight(n, q.(ttl := q.ttl - 1)), Weight(n, rank, q.ttl - 1));
  }

  lemma ReplyBound(n: nat, rank: nat, r: Packet)
    requires Rank(r.typ) < rank && r.ttl <= PKT_TTL && r.typ != 0
    ensures Times(n, PacketWeight(n, r)) <= Times(n, Weight(n, rank - 1, PKT_TTL))
  {
    WeightGrows(n, Rank(r.typ), rank - 1, r.ttl, PKT_TTL);
    TimesGrows(n, n, PacketWeight(n, r), Weight(n, rank - 1, PKT_TTL));
  }

  ghost function RelayCost(n: nat, q: Packet): nat {
    if q.ttl > 0 then Times(n, PacketWeight(n, q.(ttl := q.ttl - 1))) else 0
  }

  ghost function ReplyCost(n: nat, reply: Option<Packet>): nat {
    if reply.Some? then Times(n, PacketWeight(n, reply.value)) else 0
  }

  /** What the relays and the reply of a packet may weigh. */
  ghost function RelayAllowance(n: nat, rank: nat, ttl: nat): nat {
    if ttl == 0 then 0 else Times(n, Weight(n, rank, ttl - 1))
  }

  ghost function ReplyAllowance(n: nat, rank: nat): nat {
    if rank == 0 then 0 else Times(n, Weight(n, rank - 1, PKT_TTL))
  }

  lemma AllowancesFit(n: nat, rank: nat, ttl: nat)
    ensures RelayAllowance(n, rank, ttl) + ReplyAllowance(n, rank) < Weight(n, rank, ttl)
  {
  }

  lemma CollapseBelowWeight(n: nat, rank: nat, ttl: nat)
    ensures Times(n, BlankWeight(n, PKT_TTL - 1)) < Weight(n, rank, ttl)
  {
  }

  lemma BlankShrinks(n: nat, p: Packet, q: Packet)
    requires Blank(p) && Blank(q) && q.ttl == p.ttl
    ensures RelayCost(n, q) < PacketWeight(n, p)
  {
  }

  lemma CollapsedShrinks(n: nat, p: Packet)
    requires !Blank(p)
    ensures RelayCost(n, DEFAULT_PACKET) < PacketWeight(n, p)
  {
    CollapseBelowWeight(n, Rank(p.typ), p.ttl);
  }

  lemma RelayCostBound(n: nat, rank: nat, q: Packet)
    requires Blank(q) || rank == Rank(q.typ)
    ensures RelayCost(n, q) <= RelayAllowance(n, rank, q.ttl)
  {
    if q.ttl > 0 {
      RelayBound(n, rank, q);
    }
  }

  lemma ReplyCostBound(n: nat, rank: nat, reply: Option<Packet>)
    requires reply.Some? ==> Rank(reply.value.typ) < rank && reply.value.ttl <= PKT_TTL && reply.value.typ != 0
    ensures ReplyCost(n, reply) <= ReplyAllowance(n, rank)
  {
    if reply.Some? {
      ReplyBound(n, rank, reply.value);
    }
  }

  lemma CostsBelowWeight(n: nat, rank: nat, q: Packet, reply: Option<Packet>)
    requires rank == Rank(q.typ)
    requires reply.Some? ==> Rank(reply.value.typ) < rank && reply.value.ttl <= PKT_TTL && reply.value.typ != 0
    ensures RelayCost(n, q) + ReplyCost(n, reply) < Weight(n, rank, q.ttl)
  {
    RelayCostBound(n, rank, q);
    ReplyCostBound(n, rank, reply);
    AllowancesFit(n, rank, q.ttl);
  }

  lemma IntactShrinks(n: nat, p: Packet, q: Packet, reply: Option<Packet>)
    requires !Blank(p) && SameHeader(p, q)
    requires reply.Some? ==> Rank(reply.value.typ) < Rank(q.typ) && reply.value.ttl <= PKT_TTL && reply.value.typ != 0
    ensures RelayCost(n, q) + ReplyCost(n, reply) < PacketWeight(n, p)
  {
    CostsBelowWeight(n, Rank(q.typ), q, reply);
  }

  /** Relays and reply of a received packet weigh less than the copy that brought it. */
  lemma ArrivalShrinks(n: nat, p: Packet, q: Packet, reply: Option<Packet>)
    requires HeaderArrives(p, q)
    requires reply.Some? ==> q.IsValid() && Rank(reply.value.typ) < Rank(q.typ)
                             && reply.value.ttl <= PKT_TTL && reply.value.typ != 0
    ensures RelayCost(n, q) + ReplyCost(n, reply) < PacketWeight(n, p)
  {
    if Blank(p) {
      BlankShrinks(n, p, q);
    } else if q == DEFAULT_PACKET {
      CollapsedShrinks(n, p);
    } else {
      IntactShrinks(n, p, q, reply);
    }
  }

  lemma TotalWithout(n: nat, w: World, i: nat)
    requires i < |w.inflight|
    ensures Total(n, Without(w, i).inflight) + PacketWeight(n, w.inflight[i].packet) == Total(n, w.inflight)
  {
    var fs := w.inflight;
    TotalConcat(n, fs[..i], fs[i + 1..]);
    TotalConcat(n, fs[..i], fs[i..]);
    assert fs == fs[..i] + fs[i..];
    assert fs[i..][1..] == fs[i + 1..];
  }

  function Replied(f: Flight, o: Outcome, links: Links): seq<Flight> {
    if o.reply.None? then []
    else Copies(links.reach, o.reply.value, false, links, Origin(f.dst, o.reply.value, None), 0)
  }

  function RelayedUnlessThrown(f: Flight, q: Packet, o: Outcome, links: Links): seq<Flight> {
    if o.threw then [] else Relayed(f, q, o.node.peers, links)
  }

  lemma ArrivedFlights(w: World, f: Flight, q: Packet, o: Outcome, links: Links)
    requires f.dst in w.nodes
    ensures Arrived(w, f, q, o, links).inflight
            == w.inflight + Replied(f, o, links) + RelayedUnlessThrown(f, q, o, links)
    ensures Arrived(w, f, q, o, links).nodes == w.nodes[f.dst := o.node]
  {
  }

  lemma RepliedTotal(w: World, f: Flight, o: Outcome, links: Links)
    requires LinksOk(w, f.dst, links)
    ensures Total(|w.nodes|, Replied(f, o, links)) <= ReplyCost(|w.nodes|, o.reply)
  {
    if o.reply.Some? {
      DistinctBound(links.reach, w.nodes.Keys);
      CopiesBound(|w.nodes|, links.reach, o.reply.value, false, links, Origin(f.dst, o.reply.value, None), 0);
    }
  }

  lemma RelayedTotal(w: World, f: Flight, q: Packet, o: Outcome, links: Links)
    requires LinksOk(w, f.dst, links) && Unique(o.node.peers)
    ensures Total(|w.nodes|, RelayedUnlessThrown(f, q, o, links)) <= RelayCost(|w.nodes|, q)
  {
    if q.ttl > 0 {
      FanOut(w, o.node.peers, HexOf(q.senderID), f.dst, links);
      CopiesBound(|w.nodes|, RelayTargets(o.node.peers, HexOf(q.senderID), links), q.(ttl := q.ttl - 1), true, links,
                  f.origin, f.hops + 1);
    }
  }

  lemma ArrivedTotal(w: World, f: Flight, q: Packet, o: Outcome, links: Links)
    requires LinksOk(w, f.dst, links) && f.dst in w.nodes && Unique(o.node.peers)
    ensures Arrived(w, f, q, o, links).nodes.Keys == w.nodes.Keys
    ensures Total(|w.nodes|, Arrived(w, f, q, o, links).inflight)
            <= Total(|w.nodes|, w.inflight) + RelayCost(|w.nodes|, q) + ReplyCost(|w.nodes|, o.reply)
  {
    ArrivedFlights(w, f, q, o, links);
    RepliedTotal(w, f, o, links);
    RelayedTotal(w, f, q, o, links);
    TotalConcat(|w.nodes|, w.inflight, Replied(f, o, links));
    TotalConcat(|w.nodes|, w.inflight + Replied(f, o, links), RelayedUnlessThrown(f, q, o, links));
  }

  lemma ArrivedTables(w: World, f: Flight, q: Packet, o: Outcome, links: Links)
    requires TablesOk(w) && LinksOk(w, f.dst, links) && f.dst in w.nodes && Unique(o.node.peers)
    ensures TablesOk(Arrived(w, f, q, o, links))
  {
    RelayTargetsDistinct(o.node.peers, HexOf(q.senderID), links);
  }

  lemma ArrivedShrinks(w: World, f: Flight, q: Packet, o: Outcome, links: Links)
    requires TablesOk(w) && LinksOk(w, f.dst, links) && f.dst in w.nodes
    requires HeaderArrives(f.packet, q) && OutcomeOk(w.nodes[f.dst], q, o) && (o.reply.Some? ==> q.IsValid())
    ensures var w' := Arrived(w, f, q, o, links);
            && TablesOk(w') && w'.nodes.Keys == w.nodes.Keys
            && Total(|w.nodes|, w'.inflight) < Total(|w.nodes|, w.inflight) + PacketWeight(|w.nodes|, f.packet)
  {
    assert Unique(o.node.peers);
    ArrivalShrinks(|w.nodes|, f.packet, q, o.reply);
    ArrivedTotal(w, f, q, o, links);
    ArrivedTables(w, f, q, o, links);
  }

  /** Every delivery strictly lowers the total weight, whatever the tables, links, clocks and padding. */
  lemma DeliveryShrinks(z: Lz4, w: World, i: nat, env: Env, links: Links)
    requires TablesOk(w) && Enabled(w, Deliver(i, env, links))
    ensures var w' := Delivered(z, w, i, env, links);
            TablesOk(w') && w'.nodes.Keys == w.nodes.Keys
            && Total(|w.nodes|, w'.inflight) < Total(|w.nodes|, w.inflight)
  {
    var f := w.inflight[i];
    TotalWithout(|w.nodes|, w, i);
    var t := Transmitted(z, f.packet, f.filler);
    if t.Got? {
      HeaderFollows(z, f.packet, f.filler, t.value);
      ProcessingOk(w.nodes[f.dst], t.value, env);
      ArrivedShrinks(Without(w, i), f, t.value, Processed(w.nodes[f.dst], t.value, env), links);
    }
  }

  lemma HeaderFollows(z: Lz4, p: Packet, filler: Filler, q: Packet)
    requires Transmitted(z, p, filler) == Got(q)
    ensures HeaderArrives(p, q)
  {
    TransmissionShape(z, p, filler);
    if Blank(p) {
      BlankTransmission(z, p, filler);
    }
  }

  // ---------------------------------------------------------------- every run

  ghost function Deliveries(z: Lz4, w: World, es: seq<Event>): (k: nat) {
    if es == [] then 0
    else
      var k := |es| - 1;
      Deliveries(z, w, es[..k]) + if es[k].Deliver? && Enabled(Run(z, w, es[..k]), es[k]) then 1 else 0
  }

  lemma LocalKeepsTables(z: Lz4, w: World, e: Event)
    requires TablesOk(w) && !e.Originate? && !e.Deliver?
    ensures var w' := Step(z, w, e);
            TablesOk(w') && w'.nodes.Keys == w.nodes.Keys && w'.inflight == w.inflight
  {
    if Enabled(w, e) {
      var n := w.nodes[e.node];
      if e.Disconnect? {
        MeshSafety.DropLinkOk(n.peers, n.peers, e.peripheralID);
      } else if e.Tidy? {
        CleanupKeepsUnique(n.peers, e.now);
      }
    }
  }

  /**
    From any state with duplicate-free peer tables, and for any sequence of deliveries and local events, the number of
    deliveries plus the weight left is at most the initial weight: flooding always comes to rest.
   */
  lemma {:induction false} Quiescence(z: Lz4, w: World, es: seq<Event>)
    requires TablesOk(w) && forall i :: 0 <= i < |es| ==> !es[i].Originate?
    ensures var w' := Run(z, w, es);
            && TablesOk(w') && w'.nodes.Keys == w.nodes.Keys
            && Deliveries(z, w, es) + Total(|w.nodes|, w'.inflight) <= Total(|w.nodes|, w.inflight)
  {
    if es != [] {
      var k := |es| - 1;
      Quiescence(z, w, es[..k]);
      var v := Run(z, w, es[..k]);
      assert |v.nodes| == |v.nodes.Keys| == |w.nodes|;
      if !es[k].Deliver? {
        LocalKeepsTables(z, v, es[k]);
      } else if Enabled(v, es[k]) {
        DeliveryShrinks(z, v, es[k].index, es[k].env, es[k].links);
      }
    }
  }
}
