/** message_service.cpp and network_service.cpp as an object over the shared data and the Noise service. */
module NodeService {
  import opened Bytes
  import opened Text
  import opened PacketCodec
  import opened MessageCodec
  import opened NodeData
  import opened Noise
  import opened MessageService
  import Mesh
  import VC = VersionCodec

  /** What one more peer adds to the targets. */
  function TargetOf(peer: Peer, sender: bytes, links: Mesh.Links): seq<bytes> {
    var link := Mesh.FiledUnder(links.reach, links.filed, peer.peerID);
    if peer.peerID != sender && link.Some? then [link.value] else []
  }

  lemma {:induction false} RelayTargetsAppend(peers: seq<Peer>, i: nat, sender: bytes, links: Mesh.Links)
    requires i < |peers|
    ensures Mesh.RelayTargets(peers[..i + 1], sender, links)
            == Mesh.RelayTargets(peers[..i], sender, links) + TargetOf(peers[i], sender, links)
  {
    if i == 0 {
      assert peers[..1] == [peers[0]];
    } else {
      RelayTargetsAppend(peers[1..], i - 1, sender, links);
      assert peers[..i + 1][1..] == peers[1..][..i] && peers[..i][1..] == peers[1..][..i - 1];
    }
  }

  class Service {
    ghost const identity: bytes
    const data: BitchatData
    const noise: NoiseService

    /** The shared peer ID is the printed identity, and the sessions are objects of their own. */
    ghost predicate Valid()
      reads this, data, noise, noise.sessions.Values
    {
      data.peerID == HexOf(identity) && noise.Valid()
    }

    /** The node of the mesh that the two objects make up. */
    ghost function View(): Node
      reads this, data, noise, noise.sessions.Values
    {
      Node(identity, data.nickname, data.currentChannel, data.peers, data.processedMessages, noise.View(),
           noise.localStaticKey)
    }

    constructor (ghost identity: bytes, data: BitchatData, noise: NoiseService)
      requires data.peerID == HexOf(identity) && noise.Valid()
      ensures Valid() && this.identity == identity && this.data == data && this.noise == noise
    {
      this.identity, this.data, this.noise := identity, data, noise;
    }

    /** A packet with this node as its sender, read back from the shared peer ID. */
    method OwnPacket(typ: byte, payload: bytes, clock: uint64) returns (p: Packet)
      requires Valid()
      ensures p == NoisePacket(View(), typ, payload, clock)
    {
      HexRoundTrip(identity);
      var sender := StringToVector(data.peerID);
      p := NewPacket(typ, payload, clock).(senderID := sender.value);
    }

    method SendVersionAck(ack: VC.Ack, peerID: bytes, clock: uint64, ghost p: Packet) returns (reply: Packet)
      requires Valid() && peerID == HexOf(p.senderID)
      ensures reply == HelloReply(View(), p, ack, clock)
    {
      var ackData := VC.MakeVersionAckPayload(ack);
      var own := OwnPacket(TYPE_VERSION_ACK, ackData, clock);
      HexRoundTrip(p.senderID);
      var recipient := StringToVector(peerID);
      reply := own.(recipientID := recipient.value, ttl := 1);
    }

    method AddIfMissing(peer: Peer)
      modifies data`peers
      ensures data.peers == if FindPeer(old(data.peers), peer.peerID).None? then PutPeer(old(data.peers), peer)
                            else old(data.peers)
    {
      var info := data.GetPeerInfo(peer.peerID);
      if info.None? {
        data.AddPeer(peer);
      }
    }

    method Greet(p: Packet, peerID: bytes, ack: VC.Ack, clientVersion: bytes, env: Env) returns (reply: Packet)
      requires Valid() && peerID == HexOf(p.senderID)
      modifies data`peers
      ensures Valid() && Replying(View(), reply) == Greeted(old(View()), p, ack, clientVersion, env)
    {
      reply := SendVersionAck(ack, peerID, env.clock, p);
      if !ack.rejected {
        AddIfMissing(Peer(peerID, [], clientVersion, [], env.now, -100, false));
      }
    }

    method HandleVersionHello(p: Packet, env: Env) returns (reply: Option<Packet>)
      requires Valid()
      modifies data`peers
      ensures Valid() && Outcome(View(), reply, None, false) == HelloOutcome(old(View()), p, env)
    {
      if p.payload == [] {
        return None;
      }
      var peerID := ToHex(p.senderID);
      var hello := VC.ParseVersionHelloPayload(p.payload, VC.Hello([], 0, [], [], []));
      var ack := VC.AnswerHello(hello);
      var packet := Greet(p, peerID, ack, hello.clientVersion, env);
      reply := Some(packet);
    }

    method HandleVersionAck(p: Packet, env: Env)
      requires Valid()
      modifies data`peers
      ensures Valid() && Quiet(View()) == AckOutcome(old(View()), p, env)
    {
      if p.payload == [] {
        return;
      }
      var peerID := ToHex(p.senderID);
      var ack := VC.ParseVersionAckPayload(p.payload, VC.Ack(0, [], [], env.garbage, []));
      if ack.rejected {
        data.RemovePeer(peerID);
      }
    }

    /** What a history entry does to the shared histories. */
    ghost function Remembered(h: Histories, recorded: Option<Entry>): Histories {
      match recorded
      case Some(entry) => StepHistory(h, Append(entry.message, entry.channel))
      case None => h
    }

    method ProcessMessage(sender: bytes, payload: bytes) returns (recorded: Option<Entry>, threw: bool)
      requires Valid()
      modifies data`messageHistory
      ensures Valid() && View() == old(View())
      ensures Outcome(View(), None, recorded, threw) == MessageOutcome(View(), sender, payload)
      ensures data.History() == Remembered(old(data.History()), recorded)
    {
      var parsed := ParseMessagePayload(payload);
      if parsed.OutOfBounds? {
        return None, true;
      }
      var message := parsed.value;
      recorded, threw := None, false;
      var senderID := ToHex(sender);
      if senderID == data.peerID {
        return;
      }
      var shouldAddToHistory := false;
      if message.channel == data.currentChannel {
        shouldAddToHistory := true;
      } else if message.channel == [] && data.currentChannel == [] {
        shouldAddToHistory := true;
      } else if message.isPrivate && message.recipientNickname == data.nickname {
        shouldAddToHistory := true;
      }
      if shouldAddToHistory {
        var channel := message.channel;
        if channel == [] && message.isPrivate {
          channel := Ascii("private");
        }
        data.AddMessageToHistory(message, channel);
        recorded := Some(Entry(channel, message));
      }
    }

    method ChangeChannel(peerID: bytes, channel: bytes)
      modifies data`peers
      ensures data.peers == WithChannel(old(data.peers), peerID, channel)
    {
      var info := data.GetPeerInfo(peerID);
      if info.Some? {
        data.AddPeer(info.value.(channel := channel));
      }
    }

    method ProcessChannelAnnounce(p: Packet, env: Env)
      requires Valid()
      modifies data`peers
      ensures Valid() && Quiet(View()) == ChannelOutcome(old(View()), p, env)
    {
      var news := VC.ParseChannelAnnouncePayload(p.payload, VC.ChannelAnnounce([], env.garbage));
      var peerID := ToHex(p.senderID);
      ChangeChannel(peerID, if news.joining then news.channel else []);
    }

    method SeePeer(peerID: bytes, nickname: bytes, env: Env)
      modifies data`peers
      ensures data.peers == WithAnnounced(old(data.peers), peerID, nickname, env)
    {
      var info := data.GetPeerInfo(peerID);
      if info.Some? {
        var updated := info.value.(lastSeen := env.now);
        if env.peripheralID != [] {
          updated := updated.(peripheralID := env.peripheralID);
        }
        data.AddPeer(updated);
      } else {
        data.AddPeer(Peer(peerID, env.peripheralID, nickname, [], env.now, -100, true));
      }
    }

    method ProcessAnnounce(p: Packet, env: Env)
      requires Valid()
      modifies data`peers
      ensures Valid() && Quiet(View()) == AnnounceOutcome(old(View()), p, env)
    {
      var peerID := ToHex(p.senderID);
      SeePeer(peerID, p.payload, env);
    }

    method ProcessLeave(p: Packet)
      requires Valid()
      modifies data`peers
      ensures Valid() && Quiet(View()) == LeaveOutcome(old(View()), p)
    {
      var peerID := ToHex(p.senderID);
      var info := data.GetPeerInfo(peerID);
      if info.Some? {
        data.RemovePeer(peerID);
      } else {
        DropAbsent(data.peers, peerID);
      }
    }

    /** handleIncomingHandshake as a change of the node; no value stands for the exception. */
    method Respond(peerID: bytes, payload: bytes) returns (response: Option<bytes>)
      requires Valid()
      modifies noise, noise.sessions.Values
      ensures Valid() && fresh(noise.sessions.Values - old(noise.sessions.Values))
      ensures match Incoming(old(View()).sessions, peerID, old(View()).PeerID())
              case Some(t) =>
                View() == old(View()).(sessions := t) && response == Some(ResponseMessage(View().staticKey))
              case None => View() == old(View()) && response == None
    {
      response := noise.HandleIncomingHandshake(peerID, payload, data.peerID);
    }

    method ProcessHandshake(p: Packet, env: Env) returns (reply: Option<Packet>, threw: bool)
      requires Valid()
      modifies noise, noise.sessions.Values
      ensures Valid() && fresh(noise.sessions.Values - old(noise.sessions.Values))
      ensures Outcome(View(), reply, None, threw) == HandshakeOutcome(old(View()), p, env)
    {
      reply, threw := None, false;
      var peerID := ToHex(p.senderID);
      if peerID == data.peerID {
        return;
      }
      var established := noise.HasEstablishedSession(peerID);
      if established {
        return;
      }
      var response := Respond(peerID, p.payload);
      if response.None? {
        return None, true;
      }
      if AnswersHandshake(p.typ, response.value) {
        var packet := OwnPacket(TYPE_NOISE_RESP, response.value, env.clock);
        reply := Some(packet);
      }
    }

    method ProcessEncrypted(p: Packet) returns (recorded: Option<Entry>, threw: bool)
      requires Valid()
      modifies noise.sessions.Values, data`messageHistory
      ensures Valid() && noise.sessions == old(noise.sessions)
      ensures Outcome(View(), None, recorded, threw) == EncryptedOutcome(old(View()), p)
      ensures data.History() == Remembered(old(data.History()), recorded)
    {
      recorded, threw := None, false;
      var peerID := ToHex(p.senderID);
      if peerID == data.peerID {
        return;
      }
      var decrypted := noise.Decrypt(p.payload, peerID);
      if decrypted.None? {
        return None, true;
      }
      if decrypted.value != [] {
        recorded, threw := ProcessMessage(p.senderID, decrypted.value);
      }
    }

    /** initiateHandshake as a change of the node; no value stands for the exception. */
    method Initiate(peerID: bytes) returns (handshake: Option<bytes>)
      requires Valid()
      modifies noise.sessions.Values
      ensures Valid() && noise.sessions == old(noise.sessions)
      ensures match Initiated(old(View()).sessions, peerID)
              case Some(t) =>
                View() == old(View()).(sessions := t) && handshake == Some(InitMessage(View().staticKey))
              case None => View() == old(View()) && handshake == None
    {
      handshake := noise.InitiateHandshake(peerID);
    }

    method ProcessIdentityAnnounce(p: Packet, env: Env) returns (reply: Option<Packet>, threw: bool)
      requires Valid()
      modifies noise.sessions.Values
      ensures Valid() && noise.sessions == old(noise.sessions)
      ensures Outcome(View(), reply, None, threw) == IdentityOutcome(old(View()), p, env)
    {
      reply, threw := None, false;
      var peerID := ToHex(p.senderID);
      if peerID == data.peerID {
        return;
      }
      if Less(data.peerID, peerID) {
        var handshake := Initiate(peerID);
        if handshake.None? {
          return None, true;
        }
        var packet := OwnPacket(TYPE_NOISE_INIT, handshake.value, env.clock);
        reply := Some(packet);
      }
    }

    method Dispatch(p: Packet, env: Env) returns (reply: Option<Packet>, recorded: Option<Entry>, threw: bool)
      requires Valid()
      modifies data`peers, data`messageHistory, noise, noise.sessions.Values
      ensures Valid() && fresh(noise.sessions.Values - old(noise.sessions.Values))
      ensures Outcome(View(), reply, recorded, threw) == Dispatched(old(View()), p, env)
      ensures data.History() == Remembered(old(data.History()), recorded)
    {
      reply, recorded, threw := None, None, false;
      if p.typ == TYPE_VERSION_HELLO {
        reply := HandleVersionHello(p, env);
      } else if p.typ == TYPE_VERSION_ACK {
        HandleVersionAck(p, env);
      } else if p.typ == TYPE_MESSAGE {
        recorded, threw := ProcessMessage(p.senderID, p.payload);
      } else if p.typ == TYPE_CHANNEL_ANNOUNCE {
        ProcessChannelAnnounce(p, env);
      } else if p.typ == TYPE_ANNOUNCE {
        ProcessAnnounce(p, env);
      } else if p.typ == TYPE_LEAVE {
        ProcessLeave(p);
      } else if p.typ == TYPE_NOISE_INIT || p.typ == TYPE_NOISE_RESP {
        reply, threw := ProcessHandshake(p, env);
      } else if p.typ == TYPE_NOISE_ENCRYPTED {
        recorded, threw := ProcessEncrypted(p);
      } else if p.typ == TYPE_NOISE_IDENTITY {
        reply, threw := ProcessIdentityAnnounce(p, env);
      }
    }

    /** shouldProcessPacket and markPacketProcessed. */
    method IsNew(p: Packet) returns (r: bool)
      requires Valid()
      modifies data`processedMessages
      ensures Valid() && r == (PacketKey(p.senderID, p.timestamp) !in old(data.processedMessages))
      ensures View() == old(View()).(processed :=
                          if r then Marked(old(data.processedMessages), PacketKey(p.senderID, p.timestamp))
                          else old(data.processedMessages))
    {
      var sender := ToHex(p.senderID);
      var messageID := sender + [UNDERSCORE] + Decimal(p.timestamp);
      var seen := data.WasMessageProcessed(messageID);
      if !seen {
        data.MarkMessageProcessed(messageID);
      }
      r := !seen;
    }

    method ProcessPacket(p: Packet, env: Env) returns (reply: Option<Packet>, recorded: Option<Entry>, threw: bool)
      requires Valid()
      modifies data`peers, data`messageHistory, data`processedMessages, noise, noise.sessions.Values
      ensures Valid() && fresh(noise.sessions.Values - old(noise.sessions.Values))
      ensures Outcome(View(), reply, recorded, threw) == Processed(old(View()), p, env)
      ensures OutcomeOk(old(View()), p, Outcome(View(), reply, recorded, threw))
      ensures data.History() == Remembered(old(data.History()), recorded)
    {
      ProcessingOk(View(), p, env);
      reply, recorded, threw := None, None, false;
      if !p.IsValid() {
        return;
      }
      var isNew := IsNew(p);
      if !isNew {
        return;
      }
      reply, recorded, threw := Dispatch(p, env);
    }

    /** relayPacket: the copy with the lowered TTL, and the connections it goes to, in the order of the peer list. */
    method RelayPacket(p: Packet, links: Mesh.Links) returns (relay: Packet, targets: seq<bytes>)
      requires p.ttl > 0
      ensures relay == p.(ttl := p.ttl - 1)
      ensures targets == Mesh.RelayTargets(data.peers, HexOf(p.senderID), links)
    {
      relay := p.(ttl := p.ttl - 1);
      var senderID := ToHex(p.senderID);
      var peers := data.peers;
      targets := [];
      for i := 0 to |peers|
        invariant targets == Mesh.RelayTargets(peers[..i], senderID, links)
      {
        RelayTargetsAppend(peers, i, senderID, links);
        if peers[i].peerID != senderID {
          var link := Mesh.FiledUnder(links.reach, links.filed, peers[i].peerID);
          if link.Some? {
            targets := targets + [link.value];
          }
        }
      }
      assert peers[..|peers|] == peers;
    }

    /** The copies a relay puts on the links, none without TTL. */
    method RelayIfNeeded(p: Packet, links: Mesh.Links, ghost f: Mesh.Flight)
      returns (relay: Packet, targets: seq<bytes>)
      ensures Mesh.Copies(targets, relay, true, links, f.origin, f.hops + 1)
              == Mesh.Relayed(f, p, data.peers, links)
    {
      relay, targets := p, [];
      if p.ttl > 0 {
        relay, targets := RelayPacket(p, links);
      }
    }

    /** onPacketReceived: an exception in the handler prevents the relay, a dropped duplicate does not. */
    method OnPacketReceived(p: Packet, env: Env, links: Mesh.Links, ghost f: Mesh.Flight)
      returns (reply: Option<Packet>, recorded: Option<Entry>, threw: bool, relay: Packet, targets: seq<bytes>)
      requires Valid()
      modifies data`peers, data`messageHistory, data`processedMessages, noise, noise.sessions.Values
      ensures Valid() && fresh(noise.sessions.Values - old(noise.sessions.Values))
      ensures Outcome(View(), reply, recorded, threw) == Processed(old(View()), p, env)
      ensures Mesh.Copies(targets, relay, true, links, f.origin, f.hops + 1)
              == if threw then [] else Mesh.Relayed(f, p, View().peers, links)
      ensures data.History() == Remembered(old(data.History()), recorded)
    {
      reply, recorded, threw := ProcessPacket(p, env);
      relay, targets := p, [];
      if !threw {
        relay, targets := RelayIfNeeded(p, links, f);
      }
    }
  }
}
