/** The accumulation buffer of the Linux reader thread (bluetooth.cpp). */
module StreamReader {
  import opened Bytes
  import opened Padding
  import opened PacketCodec

  const MAX_PACKET_SIZE := 65536
  const READ_SIZE := 4096

  /** A packet passed to the callback, and the whole buffer it was decoded from. */
  datatype Handing = Handing(packet: Packet, buffer: bytes)

  /**
    What one pass erases: a frame after the callback returned, one byte after a wrong version or an exception of the
    decoder or the callback, or everything on an oversize header; and what it passed to the callback before that.
   */
  datatype Removal =
    | Frame(data: bytes, packet: Packet, buffer: bytes)
    | Skipped(data: bytes, handed: Option<Handing>)
    | Discarded(data: bytes)
  {
    function Handed(): Option<Handing> {
      match this
      case Frame(_, packet, buffer) => Some(Handing(packet, buffer))
      case Skipped(_, handed) => handed
      case Discarded(_) => None
    }
  }

  /**
    Whether the callback returns without an exception. The first argument counts the removals before, so equal packets
    may fare differently.
   */
  type Callback = (nat, Packet) -> bool

  function PayloadLength(buf: bytes): uint16
    requires |buf| >= 21
  {
    ReadU16(buf[12..14])
  }

  function FrameSize(buf: bytes): (r: nat)
    requires |buf| >= 21
    ensures r >= 21
  {
    var flags := FlagsOf(buf[11]);
    21 + (if flags.recipient then 8 else 0) + PayloadLength(buf) + if flags.signature then 64 else 0
  }

  predicate Oversize(buf: bytes)
    requires |buf| >= 21
  {
    FrameSize(buf) > MAX_PACKET_SIZE || PayloadLength(buf) > MAX_PACKET_SIZE - 21
  }

  predicate WrongVersion(p: Packet) {
    p.version == 0 || p.version > 1
  }

  /** The attempt on a complete frame: the whole buffer is decoded, not the frame. */
  function Attempt(z: Lz4, buf: bytes, done: nat, calm: Callback): (r: Removal)
    requires |buf| >= 21 && FrameSize(buf) <= |buf|
    ensures r.data != [] && r.data <= buf
  {
    match Decoded(z, buf)
    case OutOfBounds => Skipped(buf[..1], None)
    case Got(packet) =>
      if WrongVersion(packet) then Skipped(buf[..1], None)
      else if calm(done, packet) then Frame(buf[..FrameSize(buf)], packet, buf)
      else Skipped(buf[..1], Some(Handing(packet, buf)))
  }

  /** What the next pass of the inner loop removes; None when it waits for more data. */
  function NextRemoval(z: Lz4, buf: bytes, done: nat, calm: Callback): (r: Option<Removal>)
    ensures r.Some? ==> r.value.data != [] && r.value.data <= buf
  {
    if |buf| < 21 then None
    else if Oversize(buf) then Some(Discarded(buf))
    else if |buf| < FrameSize(buf) then None
    else Some(Attempt(z, buf, done, calm))
  }

  datatype Reader = Reader(buf: bytes, removed: seq<Removal>)

  /** The inner loop: every pass but the last removes at least one byte. */
  function Drained(z: Lz4, r: Reader, calm: Callback): (r': Reader)
    decreases |r.buf|
  {
    match NextRemoval(z, r.buf, |r.removed|, calm)
    case None => r
    case Some(x) => Drained(z, Reader(r.buf[|x.data|..], r.removed + [x]), calm)
  }

  function Flatten(xs: seq<Removal>): bytes {
    if xs == [] then [] else Flatten(xs[..|xs| - 1]) + xs[|xs| - 1].data
  }

  function Concat(chunks: seq<bytes>): bytes {
    if chunks == [] then [] else Concat(chunks[..|chunks| - 1]) + chunks[|chunks| - 1]
  }

  /** The outer loop over the chunks the socket delivers. */
  function RunReader(z: Lz4, chunks: seq<bytes>, calm: Callback): Reader {
    if chunks == [] then Reader([], [])
    else
      var r := RunReader(z, chunks[..|chunks| - 1], calm);
      Drained(z, r.(buf := r.buf + chunks[|chunks| - 1]), calm)
  }

  // ---------------------------------------------------------------- conservation

  lemma RemovalConserves(r: Reader, x: Removal)
    requires x.data <= r.buf
    ensures var s := Reader(r.buf[|x.data|..], r.removed + [x]);
            Flatten(s.removed) + s.buf == Flatten(r.removed) + r.buf
  {
    var s := Reader(r.buf[|x.data|..], r.removed + [x]);
    assert s.removed[..|s.removed| - 1] == r.removed;
    assert r.buf == x.data + s.buf;
    assert Flatten(s.removed) + s.buf == Flatten(r.removed) + (x.data + s.buf);
  }

  /** Draining neither loses, adds nor reorders a byte, and stops below the packet limit. */
  lemma {:induction false} DrainConserves(z: Lz4, r: Reader, calm: Callback)
    ensures var r' := Drained(z, r, calm);
            && Flatten(r'.removed) + r'.buf == Flatten(r.removed) + r.buf
            && r.removed <= r'.removed
            && |r'.buf| < MAX_PACKET_SIZE
            && NextRemoval(z, r'.buf, |r'.removed|, calm).None?
    decreases |r.buf|
  {
    var next := NextRemoval(z, r.buf, |r.removed|, calm);
    if next.Some? {
      var x := next.value;
      RemovalConserves(r, x);
      DrainConserves(z, Reader(r.buf[|x.data|..], r.removed + [x]), calm);
    }
  }

  lemma ReadConserves(z: Lz4, r: Reader, chunk: bytes, received: bytes, calm: Callback)
    requires Flatten(r.removed) + r.buf == received
    ensures var r' := Drained(z, r.(buf := r.buf + chunk), calm);
            Flatten(r'.removed) + r'.buf == received + chunk && |r'.buf| < MAX_PACKET_SIZE
  {
    DrainConserves(z, r.(buf := r.buf + chunk), calm);
    assert Flatten(r.removed) + (r.buf + chunk) == Flatten(r.removed) + r.buf + chunk;
  }

  /**
    For every sequence of reads: everything received is, in order, what was removed and then what is buffered; the
    buffer is therefore a suffix of the stream, stays below 65536 bytes between chunks and below 65536 + 4096 always.
   */
  lemma {:induction false} ReaderRuns(z: Lz4, chunks: seq<bytes>, calm: Callback)
    requires forall i :: 0 <= i < |chunks| ==> |chunks[i]| <= READ_SIZE
    ensures var r := RunReader(z, chunks, calm);
            && Flatten(r.removed) + r.buf == Concat(chunks)
            && |r.buf| < MAX_PACKET_SIZE
            && (chunks != [] ==>
                  |RunReader(z, chunks[..|chunks| - 1], calm).buf + chunks[|chunks| - 1]|
                  < MAX_PACKET_SIZE + READ_SIZE)
  {
    if chunks != [] {
      var k := |chunks| - 1;
      ReaderRuns(z, chunks[..k], calm);
      var r := RunReader(z, chunks[..k], calm);
      ReadConserves(z, r, chunks[k], Concat(chunks[..k]), calm);
    }
  }

  // ---------------------------------------------------------------- what is erased, and what is handed on

  /** An erased frame has the size its own header announces, at most 64 KiB. */
  ghost predicate WholeFrame(x: Removal) {
    x.Frame? ==> |x.data| >= 21 && |x.data| == FrameSize(x.data) <= MAX_PACKET_SIZE
  }

  /** A packet handed on was decoded from the part of the stream that begins where the removal does. */
  ghost predicate HandedFrom(z: Lz4, x: Removal, before: bytes, stream: bytes) {
    x.Handed().Some? ==>
      var b := x.Handed().value.buffer;
      && |b| >= 21 && FrameSize(b) <= |b| && x.data <= b && before + b <= stream
      && Decoded(z, b) == Got(x.Handed().value.packet) && x.Handed().value.packet.version == 1
  }

  ghost predicate RemovalsOk(z: Lz4, xs: seq<Removal>, stream: bytes) {
    forall i :: 0 <= i < |xs| ==> WholeFrame(xs[i]) && HandedFrom(z, xs[i], Flatten(xs[..i]), stream)
  }

  lemma NextIsOk(z: Lz4, r: Reader, calm: Callback, x: Removal)
    requires NextRemoval(z, r.buf, |r.removed|, calm) == Some(x)
    ensures WholeFrame(x) && HandedFrom(z, x, Flatten(r.removed), Flatten(r.removed) + r.buf)
  {
    if x.Frame? {
      assert x.data[12..14] == r.buf[12..14];
    }
  }

  /** What one pass does to a complete packet of acceptable size: handing on, erasing, skipping, each exactly when. */
  ghost predicate PassedOn(z: Lz4, buf: bytes, done: nat, calm: Callback, x: Removal)
    requires |buf| >= 21
  {
    var d := Decoded(z, buf);
    var speaks := d.Got? && d.value.version == 1;
    && x.data <= buf
    && (x.Discarded? <==> Oversize(buf)) && (x.Discarded? ==> x.data == buf)
    && (!x.Discarded? ==>
          && FrameSize(buf) <= |buf|
          && x.Handed() == (if speaks then Some(Handing(d.value, buf)) else None)
          && (x.Frame? <==> speaks && calm(done, d.value))
          && |x.data| == if x.Frame? then FrameSize(buf) else 1)
  }

  /** The loop waits exactly while less than a header or less than the announced frame is there; else it passes on. */
  lemma NextIsPassedOn(z: Lz4, buf: bytes, done: nat, calm: Callback)
    ensures NextRemoval(z, buf, done, calm).None? <==> |buf| < 21 || (!Oversize(buf) && |buf| < FrameSize(buf))
    ensures var next := NextRemoval(z, buf, done, calm);
            next.Some? ==> PassedOn(z, buf, done, calm, next.value)
  {
  }

  /** A frame is too large exactly when its announced size is above 65536 bytes; the size counts flags and payload. */
  lemma OversizeInNumbers(buf: bytes)
    requires |buf| >= 21
    ensures var payload: int := 256 * (buf[12] as int) + buf[13] as int;
            var flags: int := buf[11];
            && FrameSize(buf)
               == 21 + payload + (if flags % 2 == 1 then 8 else 0) + (if flags / 2 % 2 == 1 then 64 else 0)
            && (Oversize(buf) <==> FrameSize(buf) > 65536 || payload > 65515)
  {
    assert buf[12..14] == [buf[12], buf[13]];
    TwoBytes(buf[12], buf[13]);
  }

  /** Each removal is what the loop does to some buffer that begins where the removal does. */
  ghost predicate AllPassedOn(z: Lz4, xs: seq<Removal>, calm: Callback, stream: bytes) {
    forall i :: 0 <= i < |xs| ==> PassedOnAt(z, xs, calm, stream, i)
  }

  ghost predicate PassedOnAt(z: Lz4, xs: seq<Removal>, calm: Callback, stream: bytes, i: nat)
    requires i < |xs|
  {
    exists buf :: PassedFrom(z, xs[i], i, calm, Flatten(xs[..i]), stream, buf)
  }

  ghost predicate PassedFrom(z: Lz4, x: Removal, i: nat, calm: Callback, before: bytes, stream: bytes, buf: bytes) {
    |buf| >= 21 && before + buf <= stream && PassedOn(z, buf, i, calm, x)
  }

  lemma PassedFromLonger(z: Lz4, x: Removal, i: nat, calm: Callback, before: bytes, stream: bytes, buf: bytes,
                         more: bytes)
    requires PassedFrom(z, x, i, calm, before, stream, buf)
    ensures PassedFrom(z, x, i, calm, before, stream + more, buf)
  {
  }

  lemma PassedOnLonger(z: Lz4, xs: seq<Removal>, calm: Callback, stream: bytes, more: bytes)
    requires AllPassedOn(z, xs, calm, stream)
    ensures AllPassedOn(z, xs, calm, stream + more)
  {
    forall i | 0 <= i < |xs| ensures PassedOnAt(z, xs, calm, stream + more, i) {
      assert PassedOnAt(z, xs, calm, stream, i);
      var buf :| PassedFrom(z, xs[i], i, calm, Flatten(xs[..i]), stream, buf);
      PassedFromLonger(z, xs[i], i, calm, Flatten(xs[..i]), stream, buf, more);
    }
  }

  lemma PassedOnStays(z: Lz4, xs: seq<Removal>, x: Removal, calm: Callback, stream: bytes, i: nat)
    requires i < |xs| && PassedOnAt(z, xs, calm, stream, i)
    ensures PassedOnAt(z, xs + [x], calm, stream, i)
  {
    assert (xs + [x])[..i] == xs[..i] && (xs + [x])[i] == xs[i];
  }

  lemma PassedOnAppends(z: Lz4, xs: seq<Removal>, calm: Callback, stream: bytes, buf: bytes, x: Removal)
    requires AllPassedOn(z, xs, calm, stream) && PassedFrom(z, x, |xs|, calm, Flatten(xs), stream, buf)
    ensures AllPassedOn(z, xs + [x], calm, stream)
  {
    var ys := xs + [x];
    forall i | 0 <= i < |ys| ensures PassedOnAt(z, ys, calm, stream, i) {
      if i < |xs| {
        PassedOnStays(z, xs, x, calm, stream, i);
      } else {
        assert ys[..i] == xs && ys[i] == x;
      }
    }
  }

  lemma {:induction false} DrainPassesOn(z: Lz4, r: Reader, calm: Callback, stream: bytes)
    requires AllPassedOn(z, r.removed, calm, stream) && Flatten(r.removed) + r.buf == stream
    ensures AllPassedOn(z, Drained(z, r, calm).removed, calm, stream)
    decreases |r.buf|
  {
    var next := NextRemoval(z, r.buf, |r.removed|, calm);
    if next.Some? {
      NextIsPassedOn(z, r.buf, |r.removed|, calm);
      PassedOnAppends(z, r.removed, calm, stream, r.buf, next.value);
      RemovalConserves(r, next.value);
      DrainPassesOn(z, Reader(r.buf[|next.value.data|..], r.removed + [next.value]), calm, stream);
    }
  }

  lemma ReadPassesOn(z: Lz4, r: Reader, chunk: bytes, received: bytes, calm: Callback)
    requires AllPassedOn(z, r.removed, calm, received) && Flatten(r.removed) + r.buf == received
    ensures AllPassedOn(z, Drained(z, r.(buf := r.buf + chunk), calm).removed, calm, received + chunk)
  {
    PassedOnLonger(z, r.removed, calm, received, chunk);
    assert Flatten(r.removed) + (r.buf + chunk) == received + chunk;
    DrainPassesOn(z, r.(buf := r.buf + chunk), calm, received + chunk);
  }

  /**
    In every run, for every removal there is a buffer, beginning in the stream where the removal does, such that: all
    of it was discarded exactly when its header is oversize; otherwise its packet was handed on exactly when it decodes
    with version 1, its frame was erased exactly when the callback also returned, and else a single byte was.
   */
  lemma {:induction false} EveryPacketIsPassedOn(z: Lz4, chunks: seq<bytes>, calm: Callback)
    ensures var r := RunReader(z, chunks, calm);
            AllPassedOn(z, r.removed, calm, Concat(chunks)) && Flatten(r.removed) + r.buf == Concat(chunks)
            && (|r.buf| < 21 || (!Oversize(r.buf) && |r.buf| < FrameSize(r.buf)))
  {
    if chunks != [] {
      var k := |chunks| - 1;
      EveryPacketIsPassedOn(z, chunks[..k], calm);
      var r := RunReader(z, chunks[..k], calm);
      ReadPassesOn(z, r, chunks[k], Concat(chunks[..k]), calm);
      ReadConserves(z, r, chunks[k], Concat(chunks[..k]), calm);
      RestWaits(z, r.(buf := r.buf + chunks[k]), calm);
    }
  }

  lemma RestWaits(z: Lz4, r: Reader, calm: Callback)
    ensures var b := Drained(z, r, calm).buf;
            |b| < 21 || (!Oversize(b) && |b| < FrameSize(b))
  {
    DrainConserves(z, r, calm);
    NextIsPassedOn(z, Drained(z, r, calm).buf, |Drained(z, r, calm).removed|, calm);
  }

  lemma LongerStream(z: Lz4, xs: seq<Removal>, stream: bytes, more: bytes)
    requires RemovalsOk(z, xs, stream)
    ensures RemovalsOk(z, xs, stream + more)
  {
    forall i | 0 <= i < |xs| ensures HandedFrom(z, xs[i], Flatten(xs[..i]), stream + more) {
      assert HandedFrom(z, xs[i], Flatten(xs[..i]), stream);
    }
  }

  lemma OneMoreIsOk(z: Lz4, xs: seq<Removal>, x: Removal, stream: bytes)
    requires RemovalsOk(z, xs, stream) && WholeFrame(x) && HandedFrom(z, x, Flatten(xs), stream)
    ensures RemovalsOk(z, xs + [x], stream)
  {
    var ys := xs + [x];
    forall i | 0 <= i < |ys| ensures WholeFrame(ys[i]) && HandedFrom(z, ys[i], Flatten(ys[..i]), stream) {
      if i < |xs| {
        assert ys[..i] == xs[..i];
      } else {
        assert ys[..i] == xs;
      }
    }
  }

  lemma {:induction false} DrainKeepsOk(z: Lz4, r: Reader, calm: Callback, stream: bytes)
    requires RemovalsOk(z, r.removed, stream) && stream == Flatten(r.removed) + r.buf
    ensures RemovalsOk(z, Drained(z, r, calm).removed, stream)
    decreases |r.buf|
  {
    var next := NextRemoval(z, r.buf, |r.removed|, calm);
    if next.Some? {
      NextIsOk(z, r, calm, next.value);
      OneMoreIsOk(z, r.removed, next.value, stream);
      RemovalConserves(r, next.value);
      DrainKeepsOk(z, Reader(r.buf[|next.value.data|..], r.removed + [next.value]), calm, stream);
    }
  }

  /**
    In every run each erased frame has the size its own header announces, and each packet handed on has version 1 and
    is decoded from all that was buffered from the first erased byte on.
   */
  lemma {:induction false} RemovalsAreOk(z: Lz4, chunks: seq<bytes>, calm: Callback)
    ensures var r := RunReader(z, chunks, calm);
            RemovalsOk(z, r.removed, Concat(chunks)) && Flatten(r.removed) + r.buf == Concat(chunks)
  {
    if chunks != [] {
      var k := |chunks| - 1;
      RemovalsAreOk(z, chunks[..k], calm);
      ReadKeepsOk(z, RunReader(z, chunks[..k], calm), chunks[k], Concat(chunks[..k]), calm);
    }
  }

  lemma ReadKeepsOk(z: Lz4, r: Reader, chunk: bytes, received: bytes, calm: Callback)
    requires RemovalsOk(z, r.removed, received) && Flatten(r.removed) + r.buf == received
    ensures var r' := Drained(z, r.(buf := r.buf + chunk), calm);
            RemovalsOk(z, r'.removed, received + chunk) && Flatten(r'.removed) + r'.buf == received + chunk
  {
    LongerStream(z, r.removed, received, chunk);
    assert Flatten(r.removed) + (r.buf + chunk) == received + chunk;
    DrainKeepsOk(z, r.(buf := r.buf + chunk), calm, received + chunk);
    ReadConserves(z, r, chunk, received, calm);
  }

  lemma FrameSizeOfHeader(buf: bytes, h: Packet)
    requires |buf| >= 21 && DecodedHeader(buf) == h
    ensures FrameSize(buf) == ExpectedSize(h)
  {
  }

  lemma HeaderOfPrefix(u: bytes, buf: bytes)
    requires |u| >= 21 && u <= buf
    ensures DecodedHeader(u) == DecodedHeader(buf) && FrameSize(u) == FrameSize(buf)
  {
    assert u[3..11] == buf[3..11] && u[12..14] == buf[12..14];
  }

  /** Decoding ignores what follows the last byte the header announces. */
  lemma PayloadIgnoresRest(z: Lz4, h: Packet, rest: bytes, more: bytes)
    requires |rest| == h.payloadLength + (if h.flags.signature then 64 else 0)
    ensures TakePayload(z, h, rest + more) == TakePayload(z, h, rest)
  {
    var n := h.payloadLength;
    assert (rest + more)[..n] == rest[..n];
    if n >= 2 {
      assert (rest + more)[2..n] == rest[2..n] && (rest + more)[..2] == rest[..2];
    }
    assert (rest + more)[n..] == rest[n..] + more;
    if h.flags.signature {
      assert (rest[n..] + more)[..64] == rest[n..][..64];
    }
  }

  lemma AddressesIgnoreRest(z: Lz4, h: Packet, rest: bytes, more: bytes)
    requires |rest| + 13 == ExpectedSize(h)
    ensures TakeAddresses(z, h, rest + more) == TakeAddresses(z, h, rest)
  {
    assert (rest + more)[..8] == rest[..8] && (rest + more)[8..] == rest[8..] + more;
    var h1 := h.(senderID := rest[..8]);
    if h.flags.recipient {
      var s := rest[8..];
      assert (s + more)[..8] == s[..8] && (s + more)[8..] == s[8..] + more;
      PayloadIgnoresRest(z, h1.(recipientID := s[..8]), s[8..], more);
    } else {
      PayloadIgnoresRest(z, h1, rest[8..], more);
    }
  }

  lemma DecodingIgnoresRest(z: Lz4, u: bytes)
    requires |u| >= 21 && |u| > FrameSize(u)
    ensures DecodeUnpadded(z, u) == DecodeUnpadded(z, u[..FrameSize(u) + 1])
  {
    var n := FrameSize(u) + 1;
    var v := u[..n];
    HeaderOfPrefix(v, u);
    FrameSizeOfHeader(u, DecodedHeader(u));
    assert u[14..] == v[14..] + u[n..];
    AddressesIgnoreRest(z, DecodedHeader(u), v[14..], u[n..]);
  }

  /**
    What the decoder makes of the whole buffer, by how much its unpadding leaves: the default packet with TTL 7 below
    21 bytes, the bare header below the frame size, and above it what the frame and the one byte after it decode to.
   */
  ghost predicate HandedAs(z: Lz4, buf: bytes, p: Packet)
    requires |buf| >= 21 && FrameSize(buf) <= |buf|
  {
    var left, size := |Unpadded(buf)|, FrameSize(buf);
    if left < 21 then p == DEFAULT_PACKET
    else if left < size then p == DecodedHeader(buf)
    else
      && SameHeader(DecodedHeader(buf), p)
      && DecodeUnpadded(z, buf[..if left == size then size else size + 1]) == Got(p)
  }

  lemma HandedPacket(z: Lz4, buf: bytes, p: Packet)
    requires |buf| >= 21 && FrameSize(buf) <= |buf| && Decoded(z, buf) == Got(p)
    ensures HandedAs(z, buf, p)
  {
    var u := Unpadded(buf);
    if |u| >= 21 {
      HeaderOfPrefix(u, buf);
      FrameSizeOfHeader(u, DecodedHeader(u));
      TakenParts(z, DecodedHeader(u), u[14..]);
      if |u| > FrameSize(u) {
        DecodingIgnoresRest(z, u);
        assert u[..FrameSize(u) + 1] == buf[..FrameSize(u) + 1];
      } else {
        assert u == buf[..|u|];
      }
    }
  }

  /** A packet passed to the callback is made in this way of the stream from the first erased byte on. */
  ghost predicate HandsRight(z: Lz4, x: Removal, before: bytes, stream: bytes) {
    x.Handed().Some? ==>
      var b, p := x.Handed().value.buffer, x.Handed().value.packet;
      && before + b <= stream && x.data <= b && |b| >= 21 && FrameSize(b) <= |b|
      && p.version == 1 && HandedAs(z, b, p)
  }

  /** So it is for every removal of every run. */
  lemma HandedInRun(z: Lz4, chunks: seq<bytes>, calm: Callback)
    ensures var xs := RunReader(z, chunks, calm).removed;
            forall i :: 0 <= i < |xs| ==> HandsRight(z, xs[i], Flatten(xs[..i]), Concat(chunks))
  {
    RemovalsAreOk(z, chunks, calm);
    var xs := RunReader(z, chunks, calm).removed;
    forall i | 0 <= i < |xs| ensures HandsRight(z, xs[i], Flatten(xs[..i]), Concat(chunks)) {
      assert HandedFrom(z, xs[i], Flatten(xs[..i]), Concat(chunks));
      if xs[i].Handed().Some? {
        HandedPacket(z, xs[i].Handed().value.buffer, xs[i].Handed().value.packet);
      }
    }
  }

  /** The frame size the reader computes is always one byte less than the unpadded wire image of the packet. */
  lemma FrameIsOneByteShort(z: Lz4, p: Packet)
    requires |WireBody(z, p.payload)| < 0x1_0000
    ensures |Encoding(z, p)| >= 22
    ensures FrameSize(Encoding(z, p)) == |Encoding(z, p)| - 1
  {
    HeaderOfEncoding(z, p, Encoding(z, p));
    FrameSizeOfHeader(Encoding(z, p), SentHeader(z, p));
  }

  // ---------------------------------------------------------------- the loop

  /** The try block of the inner loop. */
  method TryPacket(z: Lz4, accumulated: bytes, expectedSize: nat, done: nat, calm: Callback) returns (x: Removal)
    requires |accumulated| >= 21 && expectedSize == FrameSize(accumulated) <= |accumulated|
    ensures x == Attempt(z, accumulated, done, calm)
  {
    var packet := DeserializePacket(z, accumulated);
    if packet.OutOfBounds? {
      return Skipped(accumulated[..1], None);
    }
    if packet.value.version == 0 || packet.value.version > 1 {
      return Skipped(accumulated[..1], None);
    }
    if calm(done, packet.value) {
      x := Frame(accumulated[..expectedSize], packet.value, accumulated);
    } else {
      x := Skipped(accumulated[..1], Some(Handing(packet.value, accumulated)));
    }
  }

  lemma DrainUnfolds(z: Lz4, r: Reader, calm: Callback, x: Removal)
    requires NextRemoval(z, r.buf, |r.removed|, calm) == Some(x)
    ensures Drained(z, r, calm) == Drained(z, Reader(r.buf[|x.data|..], r.removed + [x]), calm)
  {
  }

  lemma DrainEnds(z: Lz4, r: Reader, calm: Callback)
    requires NextRemoval(z, r.buf, |r.removed|, calm).None?
    ensures Drained(z, r, calm) == r
  {
  }

  /** The size computation of the inner loop. */
  method ReadFrameSize(accumulated: bytes) returns (payloadLength: uint16, expectedSize: nat)
    requires |accumulated| >= 21
    ensures payloadLength == PayloadLength(accumulated) && expectedSize == FrameSize(accumulated)
  {
    var length, _ := ReadUint16(accumulated, 12);
    payloadLength := length;
    var flags := FlagsOf(accumulated[11]);
    expectedSize := 21;
    if flags.recipient {
      expectedSize := expectedSize + 8;
    }
    expectedSize := expectedSize + payloadLength;
    if flags.signature {
      expectedSize := expectedSize + 64;
    }
  }

  method DrainBuffer(z: Lz4, buf: bytes, removed: seq<Removal>, calm: Callback)
    returns (accumulated: bytes, out: seq<Removal>)
    ensures Reader(accumulated, out) == Drained(z, Reader(buf, removed), calm)
    ensures Flatten(out) + accumulated == Flatten(removed) + buf
  {
    DrainConserves(z, Reader(buf, removed), calm);
    accumulated, out := buf, removed;
    while |accumulated| >= 21
      invariant Drained(z, Reader(accumulated, out), calm) == Drained(z, Reader(buf, removed), calm)
      decreases |accumulated|
    {
      var payloadLength, expectedSize := ReadFrameSize(accumulated);
      if expectedSize > MAX_PACKET_SIZE || payloadLength > MAX_PACKET_SIZE - 21 {
        DrainUnfolds(z, Reader(accumulated, out), calm, Discarded(accumulated));
        out := out + [Discarded(accumulated)];
        accumulated := [];
        break;
      }
      if |accumulated| < expectedSize {
        break;
      }
      var x := TryPacket(z, accumulated, expectedSize, |out|, calm);
      DrainUnfolds(z, Reader(accumulated, out), calm, x);
      out := out + [x];
      accumulated := accumulated[|x.data|..];
    }
    DrainEnds(z, Reader(accumulated, out), calm);
  }
}
