/** bitchat_data.cpp: the peer list, the bounded channel histories and the processed-packet set. */
module NodeData {
  import opened Bytes
  import opened Text
  import opened MessageCodec

  const PEER_TIMEOUT_SECONDS := 180
  const MAX_HISTORY_SIZE := 1000
  const MAX_PROCESSED_MESSAGES := 1000

  datatype Peer = Peer(peerID: bytes, peripheralID: bytes, nickname: bytes, channel: bytes, lastSeen: int, rssi: int,
                       hasAnnounced: bool)

  predicate IsStale(p: Peer, now: int) {
    now - p.lastSeen > PEER_TIMEOUT_SECONDS
  }

  // ---------------------------------------------------------------- the peer list

  function FindPeer(ps: seq<Peer>, id: bytes): (r: Option<Peer>)
    ensures r.Some? ==> r.value.peerID == id && r.value in ps
  {
    if ps == [] then None else if ps[0].peerID == id then Some(ps[0]) else FindPeer(ps[1..], id)
  }

  /** addPeer and updatePeer: replace the first entry with this ID, or append. */
  function PutPeer(ps: seq<Peer>, p: Peer): (r: seq<Peer>) {
    if ps == [] then [p]
    else if ps[0].peerID == p.peerID then [p] + ps[1..]
    else [ps[0]] + PutPeer(ps[1..], p)
  }

  function DropPeer(ps: seq<Peer>, id: bytes): (r: seq<Peer>) {
    if ps == [] then []
    else if ps[0].peerID == id then DropPeer(ps[1..], id)
    else [ps[0]] + DropPeer(ps[1..], id)
  }

  function DropStale(ps: seq<Peer>, now: int): (r: seq<Peer>) {
    if ps == [] then []
    else if IsStale(ps[0], now) then DropStale(ps[1..], now)
    else [ps[0]] + DropStale(ps[1..], now)
  }

  function IsOnline(ps: seq<Peer>, id: bytes, now: int): (r: bool) {
    match FindPeer(ps, id) case Some(p) => !IsStale(p, now) case None => false
  }

  predicate Unique(ps: seq<Peer>) {
    ps == [] || (FindPeer(ps[1..], ps[0].peerID).None? && Unique(ps[1..]))
  }

  function Ids(ps: seq<Peer>): (r: seq<bytes>)
    ensures |r| == |ps| && forall i :: 0 <= i < |ps| ==> r[i] == ps[i].peerID
  {
    seq(|ps|, i requires 0 <= i < |ps| => ps[i].peerID)
  }

  lemma {:induction false} FoundIffListed(ps: seq<Peer>, id: bytes)
    ensures FindPeer(ps, id).Some? <==> id in Ids(ps)
  {
    if ps != [] {
      FoundIffListed(ps[1..], id);
      assert Ids(ps) == [ps[0].peerID] + Ids(ps[1..]);
    }
  }

  lemma DistinctCons<T>(x: T, s: seq<T>)
    ensures Distinct([x] + s) <==> x !in s && Distinct(s)
  {
    var t := [x] + s;
    assert forall i :: 0 <= i < |s| ==> t[i + 1] == s[i];
    if Distinct(t) {
      forall i | 0 <= i < |s| ensures s[i] != x {
        assert t[0] != t[i + 1];
      }
      forall i, j | 0 <= i < j < |s| ensures s[i] != s[j] {
        assert t[i + 1] != t[j + 1];
      }
    }
  }

  lemma {:induction false} UniqueIsDistinct(ps: seq<Peer>)
    ensures Unique(ps) <==> Distinct(Ids(ps))
  {
    if ps != [] {
      var ids := Ids(ps[1..]);
      UniqueIsDistinct(ps[1..]);
      FoundIffListed(ps[1..], ps[0].peerID);
      assert Ids(ps) == [ps[0].peerID] + ids;
      DistinctCons(ps[0].peerID, ids);
    }
  }

  lemma {:induction false} FindAfterPut(ps: seq<Peer>, p: Peer, id: bytes)
    ensures FindPeer(PutPeer(ps, p), id) == if id == p.peerID then Some(p) else FindPeer(ps, id)
  {
    if ps != [] && ps[0].peerID != p.peerID {
      FindAfterPut(ps[1..], p, id);
    }
  }

  lemma {:induction false} FindAfterDrop(ps: seq<Peer>, gone: bytes, id: bytes)
    ensures FindPeer(DropPeer(ps, gone), id) == if id == gone then None else FindPeer(ps, id)
  {
    if ps != [] {
      FindAfterDrop(ps[1..], gone, id);
      if ps[0].peerID != gone {
        assert DropPeer(ps, gone)[1..] == DropPeer(ps[1..], gone);
      }
    }
  }

  lemma {:induction false} DropAbsent(ps: seq<Peer>, id: bytes)
    requires FindPeer(ps, id).None?
    ensures DropPeer(ps, id) == ps
  {
    if ps != [] {
      DropAbsent(ps[1..], id);
    }
  }

  /** The peer if it is fresh at `now`. */
  function Fresh(r: Option<Peer>, now: int): Option<Peer> {
    match r case Some(p) => (if IsStale(p, now) then None else Some(p)) case None => None
  }

  lemma {:induction false} FindAfterCleanup(ps: seq<Peer>, now: int, id: bytes)
    requires Unique(ps)
    ensures FindPeer(DropStale(ps, now), id) == Fresh(FindPeer(ps, id), now)
  {
    if ps != [] {
      FindAfterCleanup(ps[1..], now, id);
      if !IsStale(ps[0], now) {
        assert DropStale(ps, now)[1..] == DropStale(ps[1..], now);
      }
    }
  }

  lemma {:induction false} PutKeepsUnique(ps: seq<Peer>, p: Peer)
    requires Unique(ps)
    ensures Unique(PutPeer(ps, p))
  {
    if ps != [] && ps[0].peerID != p.peerID {
      PutKeepsUnique(ps[1..], p);
      FindAfterPut(ps[1..], p, ps[0].peerID);
    }
  }

  lemma {:induction false} DropKeepsUnique(ps: seq<Peer>, gone: bytes)
    requires Unique(ps)
    ensures Unique(DropPeer(ps, gone))
  {
    if ps != [] {
      DropKeepsUnique(ps[1..], gone);
      FindAfterDrop(ps[1..], gone, ps[0].peerID);
      if ps[0].peerID != gone {
        assert DropPeer(ps, gone)[1..] == DropPeer(ps[1..], gone);
      }
    }
  }

  lemma {:induction false} CleanupKeepsUnique(ps: seq<Peer>, now: int)
    requires Unique(ps)
    ensures Unique(DropStale(ps, now))
  {
    if ps != [] {
      CleanupKeepsUnique(ps[1..], now);
      FindAfterCleanup(ps[1..], now, ps[0].peerID);
      if !IsStale(ps[0], now) {
        assert DropStale(ps, now)[1..] == DropStale(ps[1..], now);
      }
    }
  }

  /** Storing a peer keeps the order of the others; a new one comes last. */
  lemma {:induction false} PutKeepsOrder(ps: seq<Peer>, p: Peer)
    ensures Ids(PutPeer(ps, p)) == if p.peerID in Ids(ps) then Ids(ps) else Ids(ps) + [p.peerID]
  {
    if ps != [] {
      assert Ids(ps) == [ps[0].peerID] + Ids(ps[1..]);
      if ps[0].peerID != p.peerID {
        PutKeepsOrder(ps[1..], p);
        assert Ids(PutPeer(ps, p)) == [ps[0].peerID] + Ids(PutPeer(ps[1..], p));
      } else {
        assert Ids(PutPeer(ps, p)) == [p.peerID] + Ids(ps[1..]);
      }
    }
  }

  /** Cleanup is a filter: it works on parts of the list one by one, and drops those last seen over 180 seconds ago. */
  lemma {:induction false} CleanupFilters(ps: seq<Peer>, qs: seq<Peer>, p: Peer, now: int)
    ensures DropStale(ps + qs, now) == DropStale(ps, now) + DropStale(qs, now)
    ensures DropStale([p], now) == if now - p.lastSeen > 180 then [] else [p]
  {
    if ps == [] {
      assert ps + qs == qs;
    } else {
      assert (ps + qs)[1..] == ps[1..] + qs;
      CleanupFilters(ps[1..], qs, p, now);
    }
  }

  /** So is removal, of the entries with the ID. */
  lemma {:induction false} RemovalFilters(ps: seq<Peer>, qs: seq<Peer>, p: Peer, id: bytes)
    ensures DropPeer(ps + qs, id) == DropPeer(ps, id) + DropPeer(qs, id)
    ensures DropPeer([p], id) == if p.peerID == id then [] else [p]
  {
    if ps == [] {
      assert ps + qs == qs;
    } else {
      assert (ps + qs)[1..] == ps[1..] + qs;
      RemovalFilters(ps[1..], qs, p, id);
    }
  }

  datatype PeerOp = Put(peer: Peer) | Remove(id: bytes) | Cleanup(now: int)

  function StepPeers(ps: seq<Peer>, op: PeerOp): seq<Peer> {
    match op
    case Put(p) => PutPeer(ps, p)
    case Remove(id) => DropPeer(ps, id)
    case Cleanup(now) => DropStale(ps, now)
  }

  /** The same operation on a map from IDs to peers. */
  function StepMap(m: map<bytes, Peer>, op: PeerOp): map<bytes, Peer> {
    match op
    case Put(p) => m[p.peerID := p]
    case Remove(id) => m - {id}
    case Cleanup(now) => map id | id in m && !IsStale(m[id], now) :: m[id]
  }

  function RunPeers(ps: seq<Peer>, ops: seq<PeerOp>): seq<Peer> {
    if ops == [] then ps else StepPeers(RunPeers(ps, ops[..|ops| - 1]), ops[|ops| - 1])
  }

  function RunMap(m: map<bytes, Peer>, ops: seq<PeerOp>): map<bytes, Peer> {
    if ops == [] then m else StepMap(RunMap(m, ops[..|ops| - 1]), ops[|ops| - 1])
  }

  function Lookup(m: map<bytes, Peer>, id: bytes): Option<Peer> {
    if id in m then Some(m[id]) else None
  }

  ghost predicate Agree(ps: seq<Peer>, m: map<bytes, Peer>) {
    Unique(ps) && forall id :: FindPeer(ps, id) == Lookup(m, id)
  }

  lemma StepKeepsAgreement(ps: seq<Peer>, m: map<bytes, Peer>, op: PeerOp)
    requires Agree(ps, m)
    ensures Agree(StepPeers(ps, op), StepMap(m, op))
  {
    match op
    case Put(p) =>
      PutKeepsUnique(ps, p);
      forall id ensures FindPeer(PutPeer(ps, p), id) == Lookup(m[p.peerID := p], id) {
        FindAfterPut(ps, p, id);
      }
    case Remove(gone) =>
      DropKeepsUnique(ps, gone);
      forall id ensures FindPeer(DropPeer(ps, gone), id) == Lookup(m - {gone}, id) {
        FindAfterDrop(ps, gone, id);
      }
    case Cleanup(now) =>
      CleanupKeepsUnique(ps, now);
      forall id ensures FindPeer(DropStale(ps, now), id) == Lookup(StepMap(m, op), id) {
        FindAfterCleanup(ps, now, id);
        assert FindPeer(ps, id) == Lookup(m, id);
      }
  }

  /** In every run from the empty list the IDs stay unique and every query answers as the map does. */
  lemma {:induction false} PeerListRefinesMap(ops: seq<PeerOp>)
    ensures Agree(RunPeers([], ops), RunMap(map[], ops))
    ensures |RunPeers([], ops)| == |RunMap(map[], ops)|
  {
    if ops != [] {
      var k := |ops| - 1;
      PeerListRefinesMap(ops[..k]);
      StepKeepsAgreement(RunPeers([], ops[..k]), RunMap(map[], ops[..k]), ops[k]);
    }
    SizesAgree(RunPeers([], ops), RunMap(map[], ops));
  }

  lemma {:induction false} DistinctSize<T>(s: seq<T>)
    requires Distinct(s)
    ensures |Elements(s)| == |s|
  {
    if s != [] {
      DistinctSize(s[1..]);
      assert Elements(s) == {s[0]} + Elements(s[1..]) by {
        forall x | x in Elements(s) ensures x in {s[0]} + Elements(s[1..]) {
          var i :| 0 <= i < |s| && s[i] == x;
          if i > 0 {
            assert s[1..][i - 1] == x;
          }
        }
      }
      assert s[0] !in Elements(s[1..]) by {
        assert forall i :: 0 <= i < |s| - 1 ==> s[1..][i] == s[i + 1];
      }
    }
  }

  lemma SizesAgree(ps: seq<Peer>, m: map<bytes, Peer>)
    requires Agree(ps, m)
    ensures |ps| == |m|
  {
    UniqueIsDistinct(ps);
    DistinctSize(Ids(ps));
    forall id ensures id in Elements(Ids(ps)) <==> id in m.Keys {
      FoundIffListed(ps, id);
      assert FindPeer(ps, id) == Lookup(m, id);
    }
    assert Elements(Ids(ps)) == m.Keys;
  }

  /** After any run, cleanup at `now` keeps exactly the peers reported online at `now`, with their data. */
  lemma CleanupKeepsTheOnline(ops: seq<PeerOp>, now: int, id: bytes)
    ensures var ps := RunPeers([], ops);
            && (FindPeer(DropStale(ps, now), id).Some? <==> IsOnline(ps, id, now))
            && (IsOnline(ps, id, now) ==> FindPeer(DropStale(ps, now), id) == FindPeer(ps, id))
  {
    PeerListRefinesMap(ops);
    FindAfterCleanup(RunPeers([], ops), now, id);
  }

  /** Online for 180 seconds after having been seen. */
  lemma OnlineFor180Seconds(ps: seq<Peer>, id: bytes, now: int)
    ensures IsOnline(ps, id, now) <==>
            FindPeer(ps, id).Some? && now <= FindPeer(ps, id).value.lastSeen + 180
  {
  }

  /** The operation replaces or removes the entry of `p`: it is about its ID, or a cleanup over 180 seconds later. */
  predicate Supersedes(op: PeerOp, p: Peer) {
    match op
    case Put(q) => q.peerID == p.peerID
    case Remove(id) => id == p.peerID
    case Cleanup(now) => now > p.lastSeen + 180
  }

  /** Operation `i` stored `p`, and nothing since has superseded it. */
  ghost predicate Standing(ops: seq<PeerOp>, i: nat, p: Peer) {
    && i < |ops| && ops[i] == Put(p)
    && forall j :: i < j < |ops| ==> !Supersedes(ops[j], p)
  }

  lemma FindAfterOp(ps: seq<Peer>, op: PeerOp, id: bytes)
    requires Unique(ps)
    ensures FindPeer(StepPeers(ps, op), id)
            == if op.Put? && op.peer.peerID == id then Some(op.peer)
               else if FindPeer(ps, id).Some? && Supersedes(op, FindPeer(ps, id).value) then None
               else FindPeer(ps, id)
  {
    match op
    case Put(p) => FindAfterPut(ps, p, id);
    case Remove(gone) => FindAfterDrop(ps, gone, id);
    case Cleanup(now) => FindAfterCleanup(ps, now, id);
  }

  lemma StandingAppends(ops: seq<PeerOp>, k: nat, i: nat, p: Peer)
    requires |ops| == k + 1 && i < k
    ensures Standing(ops, i, p) <==> Standing(ops[..k], i, p) && !Supersedes(ops[k], p)
  {
    if Standing(ops, i, p) {
      forall j | i < j < k ensures !Supersedes(ops[..k][j], p) {
        assert !Supersedes(ops[j], p);
      }
    }
    if Standing(ops[..k], i, p) && !Supersedes(ops[k], p) {
      forall j | i < j < |ops| ensures !Supersedes(ops[j], p) {
        if j < k {
          assert !Supersedes(ops[..k][j], p);
        }
      }
    }
  }

  lemma {:induction false} ListedStands(ops: seq<PeerOp>, p: Peer) returns (i: nat)
    requires FindPeer(RunPeers([], ops), p.peerID) == Some(p)
    ensures Standing(ops, i, p)
  {
    var k := |ops| - 1;
    PeerListRefinesMap(ops[..k]);
    FindAfterOp(RunPeers([], ops[..k]), ops[k], p.peerID);
    if ops[k] == Put(p) {
      i := k;
    } else {
      i := ListedStands(ops[..k], p);
      StandingAppends(ops, k, i, p);
    }
  }

  lemma {:induction false} StandingIsListed(ops: seq<PeerOp>, p: Peer, i: nat)
    requires Standing(ops, i, p)
    ensures FindPeer(RunPeers([], ops), p.peerID) == Some(p)
  {
    var k := |ops| - 1;
    PeerListRefinesMap(ops[..k]);
    FindAfterOp(RunPeers([], ops[..k]), ops[k], p.peerID);
    if i < k {
      StandingAppends(ops, k, i, p);
      StandingIsListed(ops[..k], p, i);
    }
  }

  /**
    After any run, cleanup at `now` keeps a peer with its data if and only if it was seen in the last 180 seconds and
    some operation stored it so, with no later one about its ID and no cleanup more than 180 seconds after it was seen.
   */
  lemma CleanupKeepsTheRecentlySeen(ops: seq<PeerOp>, now: int, p: Peer)
    ensures FindPeer(DropStale(RunPeers([], ops), now), p.peerID) == Some(p) <==>
            p.lastSeen >= now - 180 && exists i :: Standing(ops, i, p)
  {
    var ps := RunPeers([], ops);
    PeerListRefinesMap(ops);
    FindAfterCleanup(ps, now, p.peerID);
    if FindPeer(ps, p.peerID) == Some(p) {
      var i := ListedStands(ops, p);
    }
    forall i | Standing(ops, i, p) ensures FindPeer(ps, p.peerID) == Some(p) {
      StandingIsListed(ops, p, i);
    }
  }

  // ---------------------------------------------------------------- channel histories

  datatype HistoryOp =
    | Append(message: Message, channel: bytes)
    | Clear(channel: bytes)
    | ClearAll
    | SwitchTo(channel: bytes)

  datatype Histories = Histories(current: bytes, log: map<bytes, seq<Message>>)

  function Resolve(h: Histories, channel: bytes): bytes {
    if channel == [] then h.current else channel
  }

  function Entries(log: map<bytes, seq<Message>>, channel: bytes): seq<Message> {
    if channel in log then log[channel] else []
  }

  /** push_back followed by dropping the oldest entry when there are more than 1000. */
  function BoundedAppend(s: seq<Message>, m: Message): seq<Message> {
    if |s| + 1 > MAX_HISTORY_SIZE then (s + [m])[1..] else s + [m]
  }

  function StepHistory(h: Histories, op: HistoryOp): Histories {
    match op
    case Append(m, channel) =>
      var c := Resolve(h, channel);
      h.(log := h.log[c := BoundedAppend(Entries(h.log, c), m)])
    case Clear(channel) => h.(log := h.log - {Resolve(h, channel)})
    case ClearAll => h.(log := map[])
    case SwitchTo(channel) => h.(current := channel)
  }

  function RunHistory(ops: seq<HistoryOp>): Histories {
    if ops == [] then Histories([], map[]) else StepHistory(RunHistory(ops[..|ops| - 1]), ops[|ops| - 1])
  }

  /** The channel in use before operation `i`: that of the last switch, read off the operations alone. */
  function ChannelBefore(ops: seq<HistoryOp>, i: nat): bytes
    requires i <= |ops|
  {
    if i == 0 then [] else if ops[i - 1].SwitchTo? then ops[i - 1].channel else ChannelBefore(ops, i - 1)
  }

  /** The channel operation `i` names, the one in use when it names none. */
  function Named(ops: seq<HistoryOp>, i: nat, channel: bytes): bytes
    requires i < |ops|
  {
    if channel == [] then ChannelBefore(ops, i) else channel
  }

  predicate AppendsTo(ops: seq<HistoryOp>, i: nat, c: bytes)
    requires i < |ops|
  {
    ops[i].Append? && Named(ops, i, ops[i].channel) == c
  }

  predicate Clears(ops: seq<HistoryOp>, i: nat, c: bytes)
    requires i < |ops|
  {
    ops[i].ClearAll? || (ops[i].Clear? && Named(ops, i, ops[i].channel) == c)
  }

  /** Operation `start - 1` is the last one that clears `c`; 0 when none does. */
  ghost predicate LastCleared(ops: seq<HistoryOp>, c: bytes, start: nat) {
    && start <= |ops| && (start > 0 ==> Clears(ops, start - 1, c))
    && forall i :: start <= i < |ops| ==> !Clears(ops, i, c)
  }

  /** The messages operations `start` to `end` append to `c`, in order. */
  function Appended(ops: seq<HistoryOp>, c: bytes, start: nat, end: nat): seq<Message>
    requires end <= |ops|
  {
    if end <= start then []
    else
      var before := Appended(ops, c, start, end - 1);
      if AppendsTo(ops, end - 1, c) then before + [ops[end - 1].message] else before
  }

  lemma BoundedAppendIsLast(s: seq<Message>, m: Message)
    ensures BoundedAppend(LastN(s, MAX_HISTORY_SIZE), m) == LastN(s + [m], MAX_HISTORY_SIZE)
  {
    var n := MAX_HISTORY_SIZE;
    if |s| >= n {
      assert (LastN(s, n) + [m])[1..] == (s + [m])[|s| + 1 - n..];
    }
  }

  lemma {:induction false} ChannelOfPrefix(ops: seq<HistoryOp>, k: nat, i: nat)
    requires i <= k <= |ops|
    ensures ChannelBefore(ops[..k], i) == ChannelBefore(ops, i)
  {
    if i > 0 {
      ChannelOfPrefix(ops, k, i - 1);
    }
  }

  lemma {:induction false} AppendedOfPrefix(ops: seq<HistoryOp>, k: nat, c: bytes, start: nat, end: nat)
    requires end <= k <= |ops|
    ensures Appended(ops[..k], c, start, end) == Appended(ops, c, start, end)
  {
    if end > start {
      AppendedOfPrefix(ops, k, c, start, end - 1);
      ChannelOfPrefix(ops, k, end - 1);
    }
  }

  lemma ClearsOfPrefix(ops: seq<HistoryOp>, k: nat, c: bytes, i: nat)
    requires i < k <= |ops|
    ensures Clears(ops[..k], i, c) == Clears(ops, i, c)
  {
    ChannelOfPrefix(ops, k, i);
  }

  lemma {:induction false} CurrentIsLastSwitch(ops: seq<HistoryOp>)
    ensures RunHistory(ops).current == ChannelBefore(ops, |ops|)
  {
    if ops != [] {
      var k := |ops| - 1;
      CurrentIsLastSwitch(ops[..k]);
      ChannelOfPrefix(ops, k, k);
    }
  }

  lemma EntriesAfterStep(h: Histories, op: HistoryOp, c: bytes)
    ensures Entries(StepHistory(h, op).log, c)
            == match op
               case Append(m, channel) =>
                 if c == Resolve(h, channel) then BoundedAppend(Entries(h.log, c), m) else Entries(h.log, c)
               case Clear(channel) => if c == Resolve(h, channel) then [] else Entries(h.log, c)
               case ClearAll => []
               case SwitchTo(_) => Entries(h.log, c)
  {
  }

  /** The effect of the last operation on one channel, in terms of the operations. */
  lemma EntriesAfterLast(ops: seq<HistoryOp>, c: bytes)
    requires ops != []
    ensures var k := |ops| - 1;
            var before := Entries(RunHistory(ops[..k]).log, c);
            Entries(RunHistory(ops).log, c)
            == if Clears(ops, k, c) then [] else if AppendsTo(ops, k, c) then BoundedAppend(before, ops[k].message)
               else before
  {
    var k := |ops| - 1;
    CurrentIsLastSwitch(ops[..k]);
    ChannelOfPrefix(ops, k, k);
    EntriesAfterStep(RunHistory(ops[..k]), ops[k], c);
  }

  lemma LastClearedOfPrefix(ops: seq<HistoryOp>, c: bytes, start: nat)
    requires LastCleared(ops, c, start) && start < |ops|
    ensures LastCleared(ops[..|ops| - 1], c, start)
  {
    var k := |ops| - 1;
    if start > 0 {
      ClearsOfPrefix(ops, k, c, start - 1);
    }
    forall i | start <= i < k ensures !Clears(ops[..k], i, c) {
      ClearsOfPrefix(ops, k, c, i);
    }
  }

  /**
    After any interleaving a channel holds the last 1000 messages that were appended to it, by name or while it was in
    use, since it was last cleared, in order.
   */
  lemma {:induction false} HistoryRefinesLog(ops: seq<HistoryOp>, c: bytes, start: nat)
    requires LastCleared(ops, c, start)
    ensures Entries(RunHistory(ops).log, c) == LastN(Appended(ops, c, start, |ops|), 1000)
  {
    if ops != [] {
      var k := |ops| - 1;
      EntriesAfterLast(ops, c);
      if start < |ops| {
        LastClearedOfPrefix(ops, c, start);
        HistoryRefinesLog(ops[..k], c, start);
        AppendedOfPrefix(ops, k, c, start, k);
        BoundedAppendIsLast(Appended(ops, c, start, k), if ops[k].Append? then ops[k].message else EMPTY_MESSAGE);
      }
    }
  }

  /** Every channel has such a last clear, so the result above covers every channel after every run. */
  lemma {:induction false} SomeLastClear(ops: seq<HistoryOp>, c: bytes) returns (start: nat)
    ensures LastCleared(ops, c, start)
  {
    if ops == [] {
      start := 0;
    } else {
      var k := |ops| - 1;
      if Clears(ops, k, c) {
        start := |ops|;
      } else {
        start := SomeLastClear(ops[..k], c);
        forall i | 0 <= i < k ensures Clears(ops[..k], i, c) == Clears(ops, i, c) {
          ClearsOfPrefix(ops, k, c, i);
        }
      }
    }
  }

  // ---------------------------------------------------------------- processed packets

  /** markMessageProcessed: insert, and forget everything once there are more than 1000 entries. */
  function Marked<K>(processed: set<K>, key: K): (r: set<K>)
    ensures |r| <= MAX_PROCESSED_MESSAGES
  {
    var s := processed + {key};
    if |s| > MAX_PROCESSED_MESSAGES then {} else s
  }

  datatype Screening<K> = Screening(processed: set<K>, accepted: seq<K>)

  /** shouldProcessPacket, then markPacketProcessed. */
  function Screen<K>(st: Screening<K>, k: K): Screening<K> {
    if k in st.processed then st else Screening(Marked(st.processed, k), st.accepted + [k])
  }

  function ScreenAll<K>(ks: seq<K>): Screening<K> {
    if ks == [] then Screening({}, []) else Screen(ScreenAll(ks[..|ks| - 1]), ks[|ks| - 1])
  }

  /** What was accepted since the set was last emptied. */
  function CurrentEpoch<K>(accepted: seq<K>): seq<K> {
    accepted[|accepted| - |accepted| % 1001..]
  }

  ghost predicate DistinctWithinEpochs<K>(accepted: seq<K>) {
    forall i, j :: 0 <= i < j < |accepted| && i / 1001 == j / 1001 ==> accepted[i] != accepted[j]
  }

  ghost predicate EpochInvariant<K>(st: Screening<K>) {
    && |st.processed| == |st.accepted| % 1001
    && st.processed == Elements(CurrentEpoch(st.accepted))
    && DistinctWithinEpochs(st.accepted)
  }

  lemma CountGrows(n: nat)
    ensures (n + 1) % 1001 == if n % 1001 == 1000 then 0 else n % 1001 + 1
  {
  }

  lemma EpochGrows<K>(accepted: seq<K>, k: K)
    ensures CurrentEpoch(accepted + [k]) == if |accepted| % 1001 == 1000 then [] else CurrentEpoch(accepted) + [k]
  {
    var n := |accepted|;
    CountGrows(n);
    if n % 1001 != 1000 {
      assert (accepted + [k])[n - n % 1001..] == accepted[n - n % 1001..] + [k];
    }
  }

  lemma AcceptKeepsDistinct<K>(st: Screening<K>, k: K)
    requires EpochInvariant(st) && k !in st.processed
    ensures DistinctWithinEpochs(st.accepted + [k])
  {
    var n := |st.accepted|;
    var start := n - n % 1001;
    forall i | 0 <= i < n && i / 1001 == n / 1001 ensures st.accepted[i] != k {
      assert start == 1001 * (n / 1001) <= i;
      assert CurrentEpoch(st.accepted)[i - start] == st.accepted[i];
    }
  }

  lemma AcceptKeepsEpochs<K>(st: Screening<K>, k: K)
    requires EpochInvariant(st) && k !in st.processed
    ensures EpochInvariant(Screen(st, k))
  {
    var n := |st.accepted|;
    assert |st.processed + {k}| == n % 1001 + 1;
    EpochGrows(st.accepted, k);
    AcceptKeepsDistinct(st, k);
    CountGrows(n);
    if n % 1001 == 1000 {
      assert Marked(st.processed, k) == {} == Elements<K>([]);
    } else {
      assert Marked(st.processed, k) == st.processed + {k} == Elements(CurrentEpoch(st.accepted) + [k]);
    }
  }

  /**
    Over every run from the empty set: the set's size counts the acceptances modulo 1001, an entry is refused exactly
    when it was accepted in the current epoch, and within an epoch nothing is accepted twice.
   */
  lemma {:induction false} DuplicatesSuppressedByEpoch<K>(ks: seq<K>)
    ensures EpochInvariant(ScreenAll(ks))
  {
    if ks != [] {
      var n := |ks| - 1;
      DuplicatesSuppressedByEpoch(ks[..n]);
      if ks[n] !in ScreenAll(ks[..n]).processed {
        AcceptKeepsEpochs(ScreenAll(ks[..n]), ks[n]);
      }
    }
  }

  /** Across an epoch boundary a repeat is accepted again: the 1001st acceptance empties the set. */
  lemma RepeatAfterEpoch<K>(st: Screening<K>, k: K, again: K)
    requires EpochInvariant(st) && |st.accepted| % 1001 == 1000 && k !in st.processed
    ensures Screen(Screen(st, k), again).accepted == st.accepted + [k, again]
  {
    assert |st.processed + {k}| == 1001;
    assert st.accepted + [k] + [again] == st.accepted + [k, again];
  }

  /** A packet by what identifies it, and the string that stands for it in the program's set. */
  datatype Ident = Ident(sender: bytes, timestamp: uint64)

  function Key(p: Ident): bytes {
    PacketKey(p.sender, p.timestamp)
  }

  function Keys(ps: seq<Ident>): (r: seq<bytes>)
    ensures |r| == |ps| && forall i :: 0 <= i < |ps| ==> r[i] == Key(ps[i])
  {
    seq(|ps|, i requires 0 <= i < |ps| => Key(ps[i]))
  }

  ghost predicate KeysStandFor(strings: Screening<bytes>, pairs: Screening<Ident>) {
    && strings.accepted == Keys(pairs.accepted)
    && forall p: Ident :: Key(p) in strings.processed <==> p in pairs.processed
  }

  lemma ScreenKeepsKeys(strings: Screening<bytes>, pairs: Screening<Ident>, p: Ident)
    requires KeysStandFor(strings, pairs) && |strings.processed| == |pairs.processed|
    ensures KeysStandFor(Screen(strings, Key(p)), Screen(pairs, p))
  {
    if p !in pairs.processed {
      assert |strings.processed + {Key(p)}| == |pairs.processed + {p}|;
      forall q: Ident ensures Key(q) == Key(p) <==> q == p {
        PacketKeyInjective(q.sender, q.timestamp, p.sender, p.timestamp);
      }
      assert Keys(pairs.accepted + [p]) == Keys(pairs.accepted) + [Key(p)];
    }
  }

  /** The set of strings behaves, over every run, as a set of (sender, timestamp) pairs would. */
  lemma {:induction false} StringSetRefinesPairSet(ps: seq<Ident>)
    ensures KeysStandFor(ScreenAll(Keys(ps)), ScreenAll(ps))
    ensures DistinctWithinEpochs(ScreenAll(ps).accepted)
  {
    DuplicatesSuppressedByEpoch(ps);
    if ps != [] {
      var n := |ps| - 1;
      StringSetRefinesPairSet(ps[..n]);
      assert Keys(ps)[..n] == Keys(ps[..n]);
      DuplicatesSuppressedByEpoch(Keys(ps[..n]));
      DuplicatesSuppressedByEpoch(ps[..n]);
      ScreenKeepsKeys(ScreenAll(Keys(ps[..n])), ScreenAll(ps[..n]), ps[n]);
    }
  }

  // ---------------------------------------------------------------- the shared data object

  class BitchatData {
    var peerID: bytes
    var nickname: bytes
    var currentChannel: bytes
    var peers: seq<Peer>
    var messageHistory: map<bytes, seq<Message>>
    var processedMessages: set<bytes>

    constructor (id: bytes, name: bytes)
      ensures peerID == id && nickname == name && currentChannel == []
      ensures peers == [] && messageHistory == map[] && processedMessages == {}
    {
      peerID, nickname, currentChannel := id, name, [];
      peers, messageHistory, processedMessages := [], map[], {};
    }

    /** find_if over the peers. */
    method FindIndex(id: bytes) returns (i: nat)
      ensures i <= |peers|
      ensures i < |peers| ==> peers[i].peerID == id
      ensures forall j :: 0 <= j < i ==> peers[j].peerID != id
    {
      i := 0;
      while i < |peers|
        invariant i <= |peers|
        invariant forall j :: 0 <= j < i ==> peers[j].peerID != id
      {
        if peers[i].peerID == id {
          return;
        }
        i := i + 1;
      }
    }

    method AddPeer(peer: Peer)
      modifies this`peers
      ensures peers == PutPeer(old(peers), peer)
    {
      var i := FindIndex(peer.peerID);
      PutAtFirst(peers, peer, i);
      if i == |peers| {
        peers := peers + [peer];
      } else {
        peers := peers[i := peer];
      }
    }

    method RemovePeer(id: bytes)
      modifies this`peers
      ensures peers == DropPeer(old(peers), id)
    {
      var kept: seq<Peer> := [];
      var i := 0;
      while i < |peers|
        invariant 0 <= i <= |peers| && peers == old(peers)
        invariant kept + DropPeer(peers[i..], id) == DropPeer(peers, id)
      {
        assert peers[i..][1..] == peers[i + 1..];
        if peers[i].peerID != id {
          kept := kept + [peers[i]];
        }
        i := i + 1;
      }
      peers := kept;
    }

    method CleanupStalePeers(now: int)
      modifies this`peers
      ensures peers == DropStale(old(peers), now)
    {
      var kept: seq<Peer> := [];
      var i := 0;
      while i < |peers|
        invariant 0 <= i <= |peers| && peers == old(peers)
        invariant kept + DropStale(peers[i..], now) == DropStale(peers, now)
      {
        assert peers[i..][1..] == peers[i + 1..];
        if !IsStale(peers[i], now) {
          kept := kept + [peers[i]];
        }
        i := i + 1;
      }
      peers := kept;
    }

    method GetPeerInfo(id: bytes) returns (r: Option<Peer>)
      ensures r == FindPeer(peers, id)
    {
      var i := FindIndex(id);
      FoundAtFirst(peers, id, i);
      r := if i < |peers| then Some(peers[i]) else None;
    }

    method IsPeerOnline(id: bytes, now: int) returns (r: bool)
      ensures r == IsOnline(peers, id, now)
    {
      var p := GetPeerInfo(id);
      r := p.Some? && !IsStale(p.value, now);
    }

    ghost function History(): Histories
      reads this
    {
      Histories(currentChannel, messageHistory)
    }

    method AddMessageToHistory(message: Message, channel: bytes)
      modifies this`messageHistory
      ensures History() == StepHistory(old(History()), Append(message, channel))
    {
      var target := if channel == [] then currentChannel else channel;
      var entries := if target in messageHistory then messageHistory[target] else [];
      entries := entries + [message];
      if |entries| > MAX_HISTORY_SIZE {
        entries := entries[1..];
      }
      messageHistory := messageHistory[target := entries];
    }

    method ClearMessageHistory(channel: bytes)
      modifies this`messageHistory
      ensures History() == StepHistory(old(History()), Clear(channel))
    {
      if channel == [] {
        messageHistory := messageHistory - {currentChannel};
      } else {
        messageHistory := messageHistory - {channel};
      }
    }

    method WasMessageProcessed(key: bytes) returns (r: bool)
      ensures r <==> key in processedMessages
    {
      r := key in processedMessages;
    }

    method MarkMessageProcessed(key: bytes)
      modifies this`processedMessages
      ensures processedMessages == Marked(old(processedMessages), key)
    {
      processedMessages := processedMessages + {key};
      if |processedMessages| > MAX_PROCESSED_MESSAGES {
        processedMessages := {};
      }
    }
  }

  lemma {:induction false} PutAtFirst(ps: seq<Peer>, p: Peer, i: nat)
    requires i <= |ps| && (i < |ps| ==> ps[i].peerID == p.peerID)
    requires forall j :: 0 <= j < i ==> ps[j].peerID != p.peerID
    ensures PutPeer(ps, p) == if i == |ps| then ps + [p] else ps[i := p]
  {
    if i > 0 {
      PutAtFirst(ps[1..], p, i - 1);
    }
  }

  lemma {:induction false} FoundAtFirst(ps: seq<Peer>, id: bytes, i: nat)
    requires i <= |ps| && (i < |ps| ==> ps[i].peerID == id)
    requires forall j :: 0 <= j < i ==> ps[j].peerID != id
    ensures FindPeer(ps, id) == if i < |ps| then Some(ps[i]) else None
  {
    if i > 0 {
      FoundAtFirst(ps[1..], id, i - 1);
    }
  }
}
