/** The ESP32 relay's duplicate window and packet queue (sketch.ino). */
module RelayBuffers {
  import opened Bytes

  const MAX_QUEUE_SIZE := 32
  const PROCESSED_ID_HISTORY := 128

  // ---------------------------------------------------------------- the duplicate window

  datatype Window = Window(history: seq<bytes>, accepted: seq<bytes>)

  function Remembered(history: seq<bytes>, id: bytes): (r: seq<bytes>) {
    (if |history| >= PROCESSED_ID_HISTORY then history[1..] else history) + [id]
  }

  function Offer(w: Window, id: bytes): Window {
    if id in w.history then w else Window(Remembered(w.history, id), w.accepted + [id])
  }

  function OfferAll(ids: seq<bytes>): Window {
    if ids == [] then Window([], []) else Offer(OfferAll(ids[..|ids| - 1]), ids[|ids| - 1])
  }

  ghost predicate DistinctNearby(s: seq<bytes>, distance: nat) {
    forall i, j :: 0 <= i < j < |s| && j - i <= distance ==> s[i] != s[j]
  }

  ghost predicate WindowInvariant(w: Window) {
    && w.history == LastN(w.accepted, PROCESSED_ID_HISTORY)
    && DistinctNearby(w.accepted, PROCESSED_ID_HISTORY)
  }

  lemma OldIsDifferent(w: Window, id: bytes, i: nat)
    requires WindowInvariant(w) && id !in w.history
    requires i < |w.accepted| && |w.accepted| - i <= PROCESSED_ID_HISTORY
    ensures w.accepted[i] != id
  {
    assert w.accepted[i] == w.history[i - (|w.accepted| - |w.history|)];
  }

  lemma RememberedIsLast(accepted: seq<bytes>, id: bytes)
    ensures Remembered(LastN(accepted, PROCESSED_ID_HISTORY), id) == LastN(accepted + [id], PROCESSED_ID_HISTORY)
  {
  }

  lemma OfferKeepsWindow(w: Window, id: bytes)
    requires WindowInvariant(w)
    ensures WindowInvariant(Offer(w, id))
  {
    if id !in w.history {
      RememberedIsLast(w.accepted, id);
      var a := w.accepted + [id];
      forall i, j | 0 <= i < j < |a| && j - i <= PROCESSED_ID_HISTORY ensures a[i] != a[j] {
        if j == |w.accepted| {
          OldIsDifferent(w, id, i);
        }
      }
    }
  }

  /**
    After any sequence of offers the history is the last 128 accepted IDs, so an ID is refused exactly when it is one
    of those, and any 129 consecutive accepted IDs are pairwise distinct.
   */
  lemma {:induction false} WindowRuns(ids: seq<bytes>)
    ensures WindowInvariant(OfferAll(ids))
  {
    if ids != [] {
      WindowRuns(ids[..|ids| - 1]);
      OfferKeepsWindow(OfferAll(ids[..|ids| - 1]), ids[|ids| - 1]);
    }
  }

  class PacketDeduplicator {
    var history: seq<bytes>
    ghost var accepted: seq<bytes>

    ghost function View(): Window
      reads this
    {
      Window(history, accepted)
    }

    constructor ()
      ensures View() == Window([], [])
    {
      history, accepted := [], [];
    }

    method IsDuplicate(id: bytes) returns (r: bool)
      modifies this
      ensures r == (id in old(history))
      ensures View() == Offer(old(View()), id)
    {
      var i := 0;
      while i < |history|
        invariant 0 <= i <= |history| && id !in history[..i]
      {
        if history[i] == id {
          return true;
        }
        i := i + 1;
      }
      assert history[..i] == history;
      if |history| >= PROCESSED_ID_HISTORY {
        history := history[1..];
      }
      history := history + [id];
      accepted := accepted + [id];
      r := false;
    }
  }

  // ---------------------------------------------------------------- the packet queue

  datatype RelayPacket = RelayPacket(packetId: bytes, payload: bytes)
  datatype QueueOp = Push(packet: RelayPacket) | Pop

  /** The queue with its past: what was pushed, and at which positions of that the popped and dropped ones were. */
  datatype Queue = Queue(items: seq<RelayPacket>, pushed: seq<RelayPacket>, popped: seq<nat>, dropped: seq<nat>)

  function StepQueue(q: Queue, op: QueueOp): Queue {
    var head := if |q.pushed| >= |q.items| then |q.pushed| - |q.items| else 0;
    match op
    case Push(p) =>
      var full := |q.items| >= MAX_QUEUE_SIZE;
      Queue((if full then q.items[1..] else q.items) + [p], q.pushed + [p], q.popped,
            if full then q.dropped + [head] else q.dropped)
    case Pop =>
      if q.items == [] then q else q.(items := q.items[1..], popped := q.popped + [head])
  }

  function RunQueue(ops: seq<QueueOp>): Queue {
    if ops == [] then Queue([], [], [], []) else StepQueue(RunQueue(ops[..|ops| - 1]), ops[|ops| - 1])
  }

  ghost predicate Increasing(s: seq<nat>) {
    forall i, j :: 0 <= i < j < |s| ==> s[i] < s[j]
  }

  ghost predicate QueueInvariant(q: Queue) {
    && |q.items| <= MAX_QUEUE_SIZE && |q.items| <= |q.pushed|
    && var head := |q.pushed| - |q.items|;
    && q.items == q.pushed[head..]
    && Increasing(q.popped) && Increasing(q.dropped)
    && (forall i :: 0 <= i < |q.popped| ==> q.popped[i] < head)
    && (forall i :: 0 <= i < |q.dropped| ==> q.dropped[i] < head)
    && (forall k :: 0 <= k < head ==> (k in q.popped) != (k in q.dropped))
  }

  lemma StepKeepsQueue(q: Queue, op: QueueOp)
    requires QueueInvariant(q)
    ensures QueueInvariant(StepQueue(q, op))
  {
    var q' := StepQueue(q, op);
    var head := |q.pushed| - |q.items|;
    var head' := |q'.pushed| - |q'.items|;
    assert q'.items == q'.pushed[head'..];
    forall k | 0 <= k < head' ensures (k in q'.popped) != (k in q'.dropped) {
      if k < head {
        assert (k in q.popped) != (k in q.dropped);
      }
    }
  }

  /**
    In every run the queue is the newest part of what was pushed, at most 32 long; the popped packets are an
    order-preserving selection, and every pushed packet is popped, dropped or still queued, never two of these.
   */
  lemma {:induction false} QueueRuns(ops: seq<QueueOp>)
    ensures QueueInvariant(RunQueue(ops))
  {
    if ops != [] {
      QueueRuns(ops[..|ops| - 1]);
      StepKeepsQueue(RunQueue(ops[..|ops| - 1]), ops[|ops| - 1]);
    }
  }

  class SafePacketQueue {
    var queue: seq<RelayPacket>
    ghost var past: Queue

    ghost predicate Valid()
      reads this
    {
      queue == past.items && QueueInvariant(past)
    }

    constructor ()
      ensures Valid() && past == Queue([], [], [], [])
    {
      queue, past := [], Queue([], [], [], []);
    }

    method PushPacket(packetId: bytes, payload: bytes) returns (ok: bool)
      requires Valid()
      modifies this
      ensures Valid() && ok && past == StepQueue(old(past), Push(RelayPacket(packetId, payload)))
    {
      StepKeepsQueue(past, Push(RelayPacket(packetId, payload)));
      past := StepQueue(past, Push(RelayPacket(packetId, payload)));
      if |queue| >= MAX_QUEUE_SIZE {
        queue := queue[1..];
      }
      queue := queue + [RelayPacket(packetId, payload)];
      ok := true;
    }

    method PopPacket() returns (r: Option<RelayPacket>)
      requires Valid()
      modifies this
      ensures Valid() && past == StepQueue(old(past), Pop)
      ensures r == if old(queue) == [] then None else Some(old(queue)[0])
    {
      StepKeepsQueue(past, Pop);
      past := StepQueue(past, Pop);
      if queue == [] {
        return None;
      }
      r := Some(queue[0]);
      queue := queue[1..];
    }
  }

  // ---------------------------------------------------------------- the relay as a whole

  const PKT_TYPE_VERSION_HELLO: byte := 0x20
  const PKT_TYPE_VERSION_ACK: byte := 0x21

  /** Version packets are answered or ignored, not queued. */
  predicate IsVersion(data: bytes) {
    |data| > 2 && (data[1] == PKT_TYPE_VERSION_HELLO || data[1] == PKT_TYPE_VERSION_ACK)
  }

  /** A write from a peer, with the hash of its bytes as identifier, or one turn of the main loop. */
  datatype RelayEvent = Receive(packet: RelayPacket) | Forward

  /** `places[k]` is the position among the accepted IDs of the k-th pushed packet. */
  datatype Relay = Relay(window: Window, queue: Queue, places: seq<nat>)

  function StepRelay(s: Relay, e: RelayEvent): Relay {
    match e
    case Receive(p) =>
      if p.payload == [] || p.packetId in s.window.history then s
      else
        var w := Offer(s.window, p.packetId);
        if IsVersion(p.payload) then s.(window := w)
        else Relay(w, StepQueue(s.queue, Push(p)), s.places + [|s.window.accepted|])
    case Forward => s.(queue := StepQueue(s.queue, Pop))
  }

  function RunRelay(es: seq<RelayEvent>): Relay {
    if es == [] then Relay(Window([], []), Queue([], [], [], []), [])
    else StepRelay(RunRelay(es[..|es| - 1]), es[|es| - 1])
  }

  ghost predicate RelayInvariant(s: Relay) {
    && WindowInvariant(s.window) && QueueInvariant(s.queue)
    && |s.places| == |s.queue.pushed| && Increasing(s.places)
    && forall k :: 0 <= k < |s.places| ==>
         s.places[k] < |s.window.accepted| && s.window.accepted[s.places[k]] == s.queue.pushed[k].packetId
  }

  lemma StepKeepsRelay(s: Relay, e: RelayEvent)
    requires RelayInvariant(s)
    ensures RelayInvariant(StepRelay(s, e))
  {
    if e.Forward? {
      StepKeepsQueue(s.queue, Pop);
    } else {
      OfferKeepsWindow(s.window, e.packet.packetId);
      StepKeepsQueue(s.queue, Push(e.packet));
    }
  }

  lemma {:induction false} RelayRuns(es: seq<RelayEvent>)
    ensures RelayInvariant(RunRelay(es))
  {
    if es != [] {
      RelayRuns(es[..|es| - 1]);
      StepKeepsRelay(RunRelay(es[..|es| - 1]), es[|es| - 1]);
    }
  }

  /** In every run two forwarded packets share an ID only if more than 128 IDs were accepted from one to the other. */
  lemma ForwardedTwiceOnlyFarApart(es: seq<RelayEvent>, i: nat, j: nat)
    requires i < j < |RunRelay(es).queue.popped|
    ensures var s := RunRelay(es);
            var a, b := s.queue.popped[i], s.queue.popped[j];
            && a < b < |s.places| && b < |s.queue.pushed|
            && (s.queue.pushed[a].packetId == s.queue.pushed[b].packetId ==> s.places[b] > s.places[a] + 128)
  {
    RelayRuns(es);
    var s := RunRelay(es);
    var a, b := s.queue.popped[i], s.queue.popped[j];
    assert s.window.accepted[s.places[a]] == s.queue.pushed[a].packetId;
    assert s.window.accepted[s.places[b]] == s.queue.pushed[b].packetId;
  }

  /**
    In every run: a non-empty packet is queued for forwarding exactly when it is no version packet and its ID is not
    among the last 128 accepted; it then is the newest in the queue, and the oldest gives way when 32 are waiting.
   */
  lemma ReceivedIsQueued(es: seq<RelayEvent>, p: RelayPacket)
    ensures var s := RunRelay(es);
            var s' := RunRelay(es + [Receive(p)]);
            var isNew := p.payload != [] && p.packetId !in LastN(s.window.accepted, 128);
            var version := |p.payload| > 2 && (p.payload[1] == 0x20 || p.payload[1] == 0x21);
            && s'.window.accepted == (if isNew then s.window.accepted + [p.packetId] else s.window.accepted)
            && (isNew && !version ==> s'.queue.pushed == s.queue.pushed + [p]
                                      && s'.queue.items == LastN(s.queue.items, 31) + [p])
            && (!isNew || version ==> s'.queue == s.queue)
  {
    RelayRuns(es);
    assert (es + [Receive(p)])[..|es|] == es;
  }

  /** And the main loop forwards the oldest packet waiting. */
  lemma OldestIsForwarded(es: seq<RelayEvent>)
    ensures var s := RunRelay(es);
            var s' := RunRelay(es + [Forward]);
            if s.queue.items == [] then s'.queue == s.queue
            else
              && s'.queue.items == s.queue.items[1..] && |s'.queue.popped| == |s.queue.popped| + 1
              && s'.queue.popped[|s.queue.popped|] < |s.queue.pushed|
              && s.queue.pushed[s'.queue.popped[|s.queue.popped|]] == s.queue.items[0]
  {
    RelayRuns(es);
    assert (es + [Forward])[..|es|] == es;
  }
}
