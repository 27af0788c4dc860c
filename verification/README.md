# Bitchat mesh messaging in Dafny

A model of the messaging pipeline of bitchatz-cpp, with proofs: how packets and messages become bytes and come back,
how packets flood a mesh of nodes, what a node's tables keep over every run, and how the relays' buffers behave.

| file | what it models |
|---|---|
| `Bytes.dfy`, `Text.dfy` | big-endian integers, hexadecimal and decimal text, the processed-packet key |
| `Padding.dfy` | padding to block sizes; the random filler is an arbitrary byte sequence |
| `PacketCodec.dfy` | packets, compression, wire image, decoding, transmission and repeated relaying |
| `MessageCodec.dfy`, `VersionCodec.dfy` | message, hello, ack and channel payloads; version negotiation |
| `NodeData.dfy` | peer list, bounded histories, processed-packet set, and the shared data object |
| `Noise.dfy` | session state machine, session table, roles |
| `MessageService.dfy`, `NodeService.dfy` | what a node does with a packet: as a function, and as a service over the shared data and Noise objects |
| `NodeEffects.dfy` | what each type of packet brings about, and the exchanges of two nodes |
| `Mesh.dfy` | nodes, copies under way, links and events as one step system |
| `MeshSafety.dfy`, `MeshQuiescence.dfy`, `MeshPlain.dfy` | what holds in every run of it |
| `MeshOrigins.dfy` | what requests send, and that everything recorded was typed somewhere and is for its node |
| `MeshDirect.dfy`, `MeshReach.dfy`, `MeshCoverage.dfy` | how far a message gets, with the shipped transports and with one that knows peer IDs |
| `RelayBuffers.dfy`, `StreamReader.dfy` | the ESP32 window and queue, the Linux reader's buffer |

How to read it. Imperative parts of the program are methods and classes proved equal to specification functions; the
parsers of the specification consume a remaining sequence, those of the methods move an offset. `dafny verify
dfyconfig.toml` checks everything. In the mesh every copy under way carries the packet its sender serialized and is
delivered through padding, unpadding and decoding, so the mesh theorems rest on the codec theorems and not on an ideal
channel. Links are chosen anew at every step, so the topology may change and copies may be lost. They carry the key
under which the transport files each connection, because a relay looks its peers up among those keys.

Terms. A packet is *representable* when its payload fits the 16-bit length and its compressed flag is true only if
compression shrinks the payload; it is *sturdy* when moreover its wire image survives padding. Its *canonical* form has
8-byte sender, full-size or absent optional fields, and the compressed flag the serializer writes.

Modelling choices:

- LZ4 is a pair of arbitrary functions; the theorems that need it assume that decompression undoes every compression
  that made the data smaller. Clocks, UUIDs, signatures and filler are parameters.
- Reading past the end of a vector, which the program does not check, is the result `OutOfBounds`; in a handler it ends
  processing as an exception does, and an undecodable copy is lost.
- Variables the program leaves uninitialised on short payloads are parameters of the parsers.
- A node's peer ID is the hexadecimal text of its 8-byte identity, and no identity is all zero, the value the wire
  gives to a missing sender.
- `processPacket` calls on one node do not overlap.
- The keys of a node's connections differ, and a key made of hexadecimal digits only, if there is one, is the peer ID of
  the node at the other end.

What the proofs show about the program as it is:

- Header and sender take 22 bytes where comments and size checks count 21 (`packet_serializer.cpp:101`, `:122`).
  `PacketCodec.DecoderBounds` gives exactly the inputs for which this matters, `StreamReader.FrameIsOneByteShort` the
  effect on the Linux reader.
- Data whose size lies between the padding windows is not padded, yet unpadded on arrival. When that leaves less than
  21 bytes the decoder returns a default packet, so the TTL can rise to 7 (`PacketCodec.TtlCanRise`,
  `PacketCodec.TtlIsKeptUnlessCollapsed`). This happens to a packet at most once, so flooding still ends.
- `relayPacket` passes 16-digit peer IDs to `sendPacketToPeer`, but the transports file their connections under device
  addresses (`src/platforms/linux/bluetooth.cpp:148`, `:255`, `:340`) and UUIDs (`src/platforms/apple/bluetooth.mm:287`,
  `:430`). So no relayed copy is ever sent, and a message reaches only the nodes its creator is connected to
  (`MeshDirect.NothingIsRelayed`, `MeshDirect.ShippedTransportsNeverRelay`). The results on multi-hop delivery
  (`MeshReach`, `MeshCoverage`) say what the relay does once connections are filed under peer IDs.
- A channel announce is sent without a sender ID (`message_service.cpp:841-850`), so it never changes the channel of the
  node that sent it in anyone's peer list (`MeshOrigins.ChannelNewsReachesNoOne`).
- A private message has an empty channel and goes to everyone; a node that is in no channel takes it for its current
  channel and keeps it, whoever it is for (`NodeEffects.PrivateIsKeptByAnyone`).
- The Linux reader decodes its whole buffer but erases one frame, so how much of a packet it hands on depends on the last
  byte buffered, which may belong to a later packet (`StreamReader.HandedInRun`).
- A session is only ever created by an incoming handshake packet, and initiating a handshake needs a session, so from
  empty tables none is ever made (`MeshPlain.EveryRunIsPlain`).
- With more than 255 mentions the count is cut but the list is not, and the channel is read from the 256th mention
  (`MessageCodec.MessageRoundTrip`).
- The documentation puts the compression threshold at 64 bytes (`extras/docs/protocol.md:121`); the code uses 100, and
  so does the model.

## Model

| member | source | states |
|---|---|---|
| `MeshSafety.EveryRunIsSafe` | src/bitchat/services/network_service.cpp:238-270 | every state of every run: TTL plus hops is the initial TTL of every copy that kept its content, a sturdy copy equals its original but for TTL and canonical form, no copy is addressed to its sender, no node lists itself, every record stems from a created message |
| `MeshSafety.NoCreation` | src/bitchat/services/message_service.cpp:340-407 | in every run a message recorded from the network was created by a node of the mesh; with a payload of at most 100 bytes it has identical fields and another node created it |
| `MeshOrigins.EveryMessageWasTyped` | src/bitchat/services/message_service.cpp:53-112 | in every run each message created was typed at its node: content, nickname, channel or recipient are those of a request at that moment |
| `MeshOrigins.EveryRecordWasTyped` | src/bitchat/services/message_service.cpp:340-407 | in every run, what a node records of a message of at most 100 payload bytes is what was typed at another node |
| `MeshOrigins.EveryRecordIsForItsNode` | src/bitchat/services/message_service.cpp:358-393 | in every run each recorded message was, on arrival, in the channel its receiver was in, or private and addressed to the nickname the receiver had, and is filed under its channel, or under private if it is private without one |
| `MeshSafety.NoSelfPeer` | src/bitchat/services/message_service.cpp:429-470 | in every run no peer table contains its own node, and no ID twice |
| `MeshSafety.CopiesAreIntact` | src/bitchat/services/network_service.cpp:253-270 | in every run a sturdy copy equals its original after its hops, and its TTL plus hops is the initial TTL |
| `MeshQuiescence.Quiescence` | src/bitchat/services/network_service.cpp:238-270 | for any number of nodes, any duplicate-free tables, any links, clocks and padding, and any run without new requests: deliveries plus remaining weight never exceed the initial weight, so flooding ends |
| `MeshQuiescence.DeliveryShrinks` | src/bitchat/services/network_service.cpp:238-251 | each delivery strictly lowers the total weight, even where a copy collapses into a packet that restarts at TTL 7 |
| `MeshReach.MessageCanReachTheEnd` | src/bitchat/services/network_service.cpp:253-270 | with a transport that files the nodes of the path under their peer IDs, which neither shipped one does: along every path of at most eight hops of listed peers there is a run that records at the last node, if it is in the channel the message goes to, the text typed at the first one, under its nickname; for the first hop any key will do |
| `MeshDirect.NothingIsRelayed` | src/platforms/linux/bluetooth.cpp:143-164 | in every run over connections none of which is filed under a text of hexadecimal digits: no copy makes a second hop, and every message recorded from the network was broadcast to that very node by its creator |
| `MeshDirect.ShippedTransportsNeverRelay` | src/platforms/linux/bluetooth.cpp:330-341 | the same for every run in which the keys are device addresses or UUIDs, as on Linux and on Apple systems |
| `MeshDirect.ShippedKeysAreNoPeerIDs` | src/platforms/apple/bluetooth.mm:425-431 | a device address or UUID is never a text of hexadecimal digits, as every listed peer ID is |
| `MeshCoverage.FloodingCovers` | src/bitchat/services/network_service.cpp:253-270 | in every run after which no copy of a chat message is left, each node of a path from its creator has received it, the i-th after i - 1 hops, up to eight hops, if each node of the path, whenever it got a copy, listed the next one and had it connected under its ID |
| `MeshCoverage.EveryoneInRangeHasTheMessage` | src/bitchat/services/message_service.cpp:340-407 | in such a run, each of these nodes that the message is for, that had not seen it before and gets no other packet with its sender and timestamp has in its history what was typed at the creator |
| `MeshCoverage.EdgeCarries` | src/bitchat/services/network_service.cpp:253-270 | in every run, once a node has received a chat copy with TTL left, a listed peer connected under its ID has received one or has one on its way, duplicates being relayed too |
| `MeshReach.Forwarded` | src/bitchat/services/network_service.cpp:253-270 | delivering a chat copy with TTL left puts a copy for every listed peer that the transport files under its ID on its way, and changes no other node |
| `MeshReach.RelayedExactly` | src/bitchat/services/network_service.cpp:253-270 | a relay of a packet of any type makes a copy for a connection iff TTL is left and the connection is filed under the ID of a listed peer other than the sender; each copy is the packet with the TTL lowered by one |
| `MeshReach.DeliveryRelays` | src/bitchat/services/network_service.cpp:238-251 | a delivered packet of any type, new or seen before, is relayed to the peers listed after handling it, unless handling threw |
| `MeshReach.RepliesAreBroadcast` | src/bitchat/services/network_service.cpp:141-149 | a reply is on its way to every connection of the node that makes it |
| `MeshReach.ArrivesInHistory` | src/bitchat/services/message_service.cpp:340-407 | delivering a chat copy to a node that has not seen it and accepts its channel records exactly the message sent |
| `MeshPlain.EveryRunIsPlain` | src/bitchat/services/message_service.cpp:695-745 | in every run from empty session tables no handshake or encrypted packet is created and no session made |
| `MeshPlain.IdentityAnnounceFails` | src/bitchat/services/noise_service.cpp:73-88 | with no session, an identity announce ends in an exception exactly when the receiver has the smaller ID |
| `PacketCodec.MultiHopStability` | src/bitchat/protocol/packet_serializer.cpp:15-193 | over any number of transmissions within the TTL, each with its own filler, a sturdy packet is its canonical form with the TTL lowered by the hops |
| `PacketCodec.RelayedPacketIsOriginal` | src/bitchat/services/network_service.cpp:253-270 | a well-formed surviving packet of at most 65534 payload bytes differs from the original after k hops only in TTL and, for k > 0, in the compressed flag, which is set iff compression shrinks the payload |
| `PacketCodec.TransmissionExact` | src/bitchat/protocol/packet_serializer.cpp:15-193 | a representable packet is received as its canonical form if and only if its wire image survives padding |
| `PacketCodec.TransmissionShape` | src/bitchat/protocol/packet_serializer.cpp:93-139 | whatever padding does, the received packet has the header sent or is the default packet, and the sender sent or none |
| `PacketCodec.TtlIsKeptUnlessCollapsed` | src/bitchat/protocol/packet_serializer.cpp:99-106 | the received TTL is the one sent, except exactly when unpadding leaves less than 21 bytes: then the default packet with TTL 7 is received |
| `PacketCodec.TtlCanRise` | src/bitchat/protocol/packet_serializer.cpp:99-106 | the exception occurs: a family of 241-byte images arrives with a TTL above the one sent |
| `PacketCodec.BlankTransmission` | src/bitchat/protocol/packet_serializer.cpp:93-106 | packets without content are always received as sent, so the exception happens to a packet at most once |
| `PacketCodec.DecoderBounds` | src/bitchat/protocol/packet_serializer.cpp:101-190 | on every byte sequence: the decoder reads past the end if and only if the image is exactly one byte short, has no signature, and has no payload or a compressed one |
| `PacketCodec.WireLayout` | src/bitchat/protocol/packet_serializer.cpp:36-59 | offsets of version, type, TTL, timestamp, flags, length and sender in the padded bytes |
| `PacketCodec.WireParts` | src/bitchat/protocol/packet_serializer.cpp:15-91 | offsets of recipient, payload and signature, the three flag bits, and the payload itself: compressed with its size in front iff it has at least 101 bytes and LZ4 shortens it |
| `PacketCodec.CompleteDataIsTaken` | src/bitchat/protocol/packet_serializer.cpp:93-193 | data longer than the size check asks for is taken apart in full, each part from its offset |
| `PacketCodec.IncompleteDataIsHeader` | src/bitchat/protocol/packet_serializer.cpp:99-124 | below 21 bytes the default packet, below the announced size the bare header |
| `PacketCodec.EncodingDecodes` | src/bitchat/protocol/packet_serializer.cpp:15-193 | an intact image of a representable packet decodes to the canonical packet |
| `PacketCodec.CutEncodingIsLost` | src/bitchat/protocol/packet_serializer.cpp:93-193 | an image cut by unpadding never decodes to the canonical packet |
| `PacketCodec.CanonicalStaysSturdy` | src/bitchat/protocol/packet_serializer.cpp:15-91 | transmission and TTL changes keep a packet sturdy, and canonical form is idempotent |
| `PacketCodec.FlagsRoundTrip` | include/bitchat/protocol/packet.h:38-41 | the flag byte and the flags determine each other |
| `PacketCodec.SerializePacket` | src/bitchat/protocol/packet_serializer.cpp:15-91 | the bytes built step by step are the padded encoding whose decoding the theorems describe |
| `PacketCodec.DeserializePacket` | src/bitchat/protocol/packet_serializer.cpp:93-193 | the parser reading by offset computes the decoding on every input |
| `Padding.PaddingRoundTrip` | src/bitchat/protocol/message_padding.cpp:9-94 | for all data and filler: unpadding undoes padding iff the size is in a window or the data is empty, ends in 0, or ends in a byte above its length; otherwise exactly the last-byte count is lost |
| `Padding.PadsExactlyInWindows` | src/bitchat/protocol/message_padding.cpp:77-94 | padding happens iff the size is in [1,240], [257,496], [769,1008] or [1793,2032], and then reaches exactly 256, 512, 1024 or 2048 |
| `Padding.Pad` | src/bitchat/protocol/message_padding.cpp:9-44 | the loop produces data, filler and count, or the data alone |
| `MessageCodec.MessageRoundTrip` | src/bitchat/protocol/packet_serializer.cpp:195-468 | for every message and every following bytes, parsing gives the message with each field clipped; beyond 255 mentions the 256th is read as the channel |
| `MessageCodec.MessageLossless` | src/bitchat/protocol/packet_serializer.cpp:195-468 | a message comes back unchanged if and only if it is within the format's limits |
| `MessageCodec.SmallPayloadIsCarried` | src/bitchat/protocol/packet_serializer.cpp:195-302 | a plain message whose payload has at most 100 bytes is within the limits |
| `MessageCodec.FlagByteIsSum` | src/bitchat/protocol/packet_serializer.cpp:199-242 | the flag byte is the sum of the bit weights of the flags |
| `MessageCodec.MessageFront` | src/bitchat/protocol/packet_serializer.cpp:195-302 | offsets of flags, time, identifier, sender, content and of the optional part |
| `MessageCodec.MessageFields` | src/bitchat/protocol/packet_serializer.cpp:258-299 | order and offsets of the optional fields |
| `MessageCodec.CutMessage` | src/bitchat/protocol/packet_serializer.cpp:304-400 | a payload cut anywhere before its content ends: where it is read past the end, and which fields are kept otherwise |
| `MessageCodec.MakeMessagePayload` | src/bitchat/protocol/packet_serializer.cpp:195-302 | the payload built by appending is the one the round trip is about |
| `MessageCodec.ParseMessagePayload` | src/bitchat/protocol/packet_serializer.cpp:304-468 | the parser reading by offset agrees, on every input, with the parser by remaining bytes, partial results and reads past the end included |
| `MessageCodec.WriteMentions` | src/bitchat/protocol/packet_serializer.cpp:282-292 | count cut at 255, then every mention |
| `MessageCodec.ReadMentions` | src/bitchat/protocol/packet_serializer.cpp:438-455 | the mention loop, which skips a length that does not fit |
| `MessageCodec.ReadHexPairs` | src/bitchat/protocol/packet_serializer.cpp:412-430 | the pair loop of the peer ID, which skips pairs that are not numbers |
| `VersionCodec.NegotiationAgreement` | src/bitchat/services/message_service.cpp:942-1036 | hello printed, parsed, answered, ack printed, parsed: the client learns the server's decision, rejected iff the lists are disjoint, a common version otherwise, the greatest one for ascending lists |
| `VersionCodec.HelloRoundTrip` | src/bitchat/protocol/packet_serializer.cpp:606-759 | the hello parser inverts the printer up to 255-byte clipping, whatever follows and whatever the variables held |
| `VersionCodec.AckRoundTrip` | src/bitchat/protocol/packet_serializer.cpp:761-875 | the same for the ack |
| `VersionCodec.ChannelRoundTrip` | src/bitchat/protocol/packet_serializer.cpp:563-604 | the channel announce parser inverts the printer iff the name has at most 255 bytes |
| `VersionCodec.HelloFields` | src/bitchat/protocol/packet_serializer.cpp:606-648 | offsets of the hello's fields |
| `VersionCodec.AckLayout` | src/bitchat/protocol/packet_serializer.cpp:761-796 | offsets of the ack's fields and its two flag bits |
| `VersionCodec.ChannelLayout` | src/bitchat/protocol/packet_serializer.cpp:563-577 | offsets of the channel announce's fields |
| `VersionCodec.CutHello` | src/bitchat/protocol/packet_serializer.cpp:650-759 | a hello cut anywhere before its capabilities keeps exactly what is complete |
| `VersionCodec.CutAck` | src/bitchat/protocol/packet_serializer.cpp:798-875 | an ack cut anywhere before its reason keeps exactly what is complete |
| `VersionCodec.NegotiationFailsIffDisjoint` | src/bitchat/helpers/protocol_helper.cpp:75-88 | no version is agreed iff none is shared |
| `VersionCodec.NegotiationIsMaximal` | src/bitchat/helpers/protocol_helper.cpp:75-88 | for an ascending client list the agreed version is at least every shared one |
| `VersionCodec.NegotiationIsSymmetric` | src/bitchat/helpers/protocol_helper.cpp:75-88 | for ascending lists the result does not depend on who is the client |
| `VersionCodec.NegotiationNeedsOrder` | src/bitchat/helpers/protocol_helper.cpp:75-88 | without the order it does |
| `VersionCodec.RejectionIsExplained` | src/bitchat/services/message_service.cpp:1011-1033 | the reason of a rejection lists the versions of both sides, by example |
| `VersionCodec.NegotiateVersion` | src/bitchat/helpers/protocol_helper.cpp:75-88 | the search from the back computes the negotiated version |
| `VersionCodec.JoinVersions` | src/bitchat/services/message_service.cpp:1011-1033 | the loop that lists versions for the rejection reason |
| `VersionCodec.MakeVersionHelloPayload` | src/bitchat/protocol/packet_serializer.cpp:606-648 | the loops append the hello payload |
| `VersionCodec.MakeVersionAckPayload` | src/bitchat/protocol/packet_serializer.cpp:761-796 | the ack payload |
| `VersionCodec.ParseVersionHelloPayload` | src/bitchat/protocol/packet_serializer.cpp:650-759 | every read is in bounds on every input, and the result is that of the parser by remaining bytes |
| `VersionCodec.ParseVersionAckPayload` | src/bitchat/protocol/packet_serializer.cpp:798-875 | the same for the ack |
| `VersionCodec.ParseChannelAnnouncePayload` | src/bitchat/protocol/packet_serializer.cpp:579-604 | in bounds on every input, and equal to the parser the round trip is about |
| `VersionCodec.ReadCapabilities` | src/bitchat/protocol/packet_serializer.cpp:736-757 | the capability loop stops at the first entry that does not fit |
| `Text.PacketKeyInjective` | src/bitchat/services/message_service.cpp:747-765 | hex(sender), underscore and decimal(timestamp) determine sender and timestamp |
| `Text.HexRoundTrip` | src/bitchat/helpers/string_helper.cpp:12-41 | decoding a printed ID gives its bytes back |
| `Text.ClippedHexRoundTrip` | src/bitchat/protocol/packet_serializer.cpp:274-280 | a printed ID cut at n characters reads back as its first n/2 bytes |
| `Text.HexInjective` | src/bitchat/helpers/string_helper.cpp:12-22 | different IDs print differently |
| `Text.LessTrichotomy` | src/bitchat/services/noise_service.cpp:223-226 | the order of IDs is strict and total |
| `Text.LessByFirstDifference` | src/bitchat/services/noise_service.cpp:223-226 | the order is by the first byte that differs, or a proper prefix |
| `Text.HexKeepsOrder` | src/bitchat/services/noise_service.cpp:223-226 | printed IDs are ordered as the bytes they stand for |
| `Text.ToHex` | src/bitchat/helpers/string_helper.cpp:12-22 | the loop prints two digits per byte |
| `Text.StringToVector` | src/bitchat/helpers/string_helper.cpp:24-41 | the loop parses pairs, odd lengths give the empty vector, a bad pair is an exception |
| `Bytes.BigEndianRoundTrip` | src/bitchat/protocol/packet_serializer.cpp:517-551 | reading back what was written |
| `Bytes.BigEndianOfRead` | src/bitchat/protocol/packet_serializer.cpp:517-551 | writing back what was read |
| `Bytes.WriteUint64` | src/bitchat/protocol/packet_serializer.cpp:517-523 | the shift-and-mask loop appends the big-endian bytes |
| `Bytes.ReadUint64` | src/bitchat/protocol/packet_serializer.cpp:536-544 | the accumulating loop reads them |
| `Bytes.WriteUint16` | src/bitchat/protocol/packet_serializer.cpp:525-529 | two bytes, most significant first |
| `Bytes.ReadUint16` | src/bitchat/protocol/packet_serializer.cpp:546-551 | two bytes, most significant first |
| `NodeData.PeerListRefinesMap` | src/bitchat/core/bitchat_data.cpp:88-184 | in every run of adds, updates, removals and cleanups the IDs are unique, every lookup answers as a map would, and the sizes agree |
| `NodeData.CleanupKeepsTheOnline` | src/bitchat/core/bitchat_data.cpp:150-166 | after any run, cleanup at a time keeps exactly the peers reported online at that time, unchanged |
| `NodeData.OnlineFor180Seconds` | src/bitchat/protocol/packet.cpp:165-168 | online means listed and seen at most 180 seconds ago |
| `NodeData.CleanupKeepsTheRecentlySeen` | src/bitchat/core/bitchat_data.cpp:279-288 | after any run, cleanup keeps a peer iff it was seen in the last 180 seconds and some operation stored it so, with no later one on its ID and no cleanup over 180 seconds after it was seen |
| `NodeData.PutKeepsOrder` | src/bitchat/core/bitchat_data.cpp:88-109 | storing keeps the order of the list; a new peer comes last |
| `NodeData.CleanupFilters` | src/bitchat/core/bitchat_data.cpp:279-288 | cleanup filters the list in order, by the 180 seconds |
| `NodeData.RemovalFilters` | src/bitchat/core/bitchat_data.cpp:111-120 | removal filters the list in order, by the ID |
| `NodeData.HistoryRefinesLog` | src/bitchat/core/bitchat_data.cpp:188-239 | after any interleaving, for the operations after the last one that clears a channel: its history is the last 1000 messages they append to it, by name or as the channel then in use, in order |
| `NodeData.DuplicatesSuppressedByEpoch` | src/bitchat/core/bitchat_data.cpp:243-261 | over every run the set holds what was accepted since it was emptied, its size is the accepted count modulo 1001, and within an epoch nothing is accepted twice |
| `NodeData.RepeatAfterEpoch` | src/bitchat/core/bitchat_data.cpp:249-261 | after the 1001st acceptance anything is accepted again |
| `NodeData.StringSetRefinesPairSet` | src/bitchat/services/message_service.cpp:747-765 | the set of strings behaves in every run as a set of (sender, timestamp) pairs |
| `NodeData.BitchatData.AddPeer` | src/bitchat/core/bitchat_data.cpp:88-109 | replaces the entry with the same ID or appends |
| `NodeData.BitchatData.RemovePeer` | src/bitchat/core/bitchat_data.cpp:111-120 | removes every entry with the ID and keeps the others in order |
| `NodeData.BitchatData.CleanupStalePeers` | src/bitchat/core/bitchat_data.cpp:279-288 | removes exactly the stale entries |
| `NodeData.BitchatData.GetPeerInfo` | src/bitchat/core/bitchat_data.cpp:168-184 | the first entry with the ID |
| `NodeData.BitchatData.IsPeerOnline` | src/bitchat/core/bitchat_data.cpp:150-166 | listed and not stale |
| `NodeData.BitchatData.AddMessageToHistory` | src/bitchat/core/bitchat_data.cpp:188-202 | the bounded append of the history run |
| `NodeData.BitchatData.ClearMessageHistory` | src/bitchat/core/bitchat_data.cpp:219-233 | the clear of the history run |
| `NodeData.BitchatData.MarkMessageProcessed` | src/bitchat/core/bitchat_data.cpp:249-261 | insertion, with everything forgotten above 1000 entries |
| `MessageService.ProcessingOk` | src/bitchat/services/message_service.cpp:250-306 | what every packet keeps: identity, unique peers that are old or the sender, established sessions, at most one reply and of lower rank, a record only for a parsed message from another node; an invalid packet does nothing |
| `MessageService.HandledOncePerEpoch` | src/bitchat/services/message_service.cpp:250-266 | whatever a fresh node receives, the handled packets are those the pair screening accepts, so none twice within an epoch |
| `MessageService.HelloExchange` | src/bitchat/services/message_service.cpp:915-1041 | a hello is always answered; the client reads a rejection iff it does not support version 1, and otherwise is in the peer list |
| `MessageService.AnnounceAndLeave` | src/bitchat/services/message_service.cpp:429-489 | an announce makes its sender a peer that is online, a leave removes it |
| `NodeEffects.MessageIsKept` | src/bitchat/services/message_service.cpp:340-407 | a message is recorded iff another node sent it and its channel is the current one or it is private and to this nickname; it is filed under private iff it is private without a channel; nothing else happens |
| `NodeEffects.PrivateIsKeptByAnyone` | src/bitchat/services/message_service.cpp:369-378 | a node that is in no channel keeps every private message without a channel, whoever it is for |
| `NodeEffects.EncryptedIsLikePlain` | src/bitchat/services/message_service.cpp:653-693 | an encrypted message throws iff the sender's session is not established; otherwise the session counts it and, unless empty, it is kept exactly when a plain one would be |
| `NodeEffects.UnreadableThrows` | src/bitchat/services/message_service.cpp:340-344 | a message payload read past its end ends in an exception, even from the node itself, and only the packet is noted |
| `NodeEffects.OwnNoiseIsIgnored` | src/bitchat/services/message_service.cpp:491-510 | a node's own Noise packets are only noted |
| `NodeEffects.AnnounceIsHeard` | src/bitchat/services/message_service.cpp:429-470 | after an announce its sender is online until 180 seconds later and not after; the whole entry of a new or known peer; no other entry changes |
| `NodeEffects.LeaveIsHeard` | src/bitchat/services/message_service.cpp:472-489 | a leave removes its sender and no one else |
| `NodeEffects.ChannelAnnounceIsHeard` | src/bitchat/services/message_service.cpp:409-427 | a channel announce sets the sender's channel when joining and clears it when leaving, if the sender is a peer |
| `NodeEffects.AckIsObeyed` | src/bitchat/services/message_service.cpp:1043-1096 | an ack removes its sender iff it is a rejection, and changes nothing otherwise |
| `NodeEffects.HelloIsAnswered` | src/bitchat/services/message_service.cpp:915-1041 | the answer is a version ack with TTL 1 from this node to the sender, rejecting iff version 1 is missing; the sender becomes a peer iff not rejected and not one already |
| `NodeEffects.VersionExchange` | src/bitchat/services/message_service.cpp:915-1096 | hello at the server, answer at the client: with version 1 in common the server lists the client and the client's list stays; without, the client loses the server and only it, and the server's list stays |
| `NodeEffects.InitEstablishes` | src/bitchat/services/message_service.cpp:491-538 | a handshake packet of another node establishes the session in its role and is answered with six known bytes, unless it was established |
| `NodeEffects.ResponseIsHeard` | src/bitchat/services/message_service.cpp:540-651 | a response establishes the session without an answer, and does nothing to an established one |
| `NodeEffects.IdentityIsAnswered` | src/bitchat/services/message_service.cpp:695-745 | an identity announce makes the smaller ID initiate iff a session is there and not established; it throws iff the ID is smaller and there is none such |
| `NodeEffects.HandshakeEstablishesBoth` | src/bitchat/services/message_service.cpp:491-745 | announce, init and response between two nodes: both end with an established session |
| `NodeEffects.OthersDoNothing` | src/bitchat/services/message_service.cpp:250-305 | packets of other types are only noted; invalid or repeated ones not even that; valid means version 1, matching length, non-zero time |
| `MessageService.DispatchOk` | src/bitchat/services/message_service.cpp:268-305 | every handler keeps the contract |
| `NodeService.Service.ProcessPacket` | src/bitchat/services/message_service.cpp:250-306 | on the shared data and the Noise service as objects: the node they make up changes as the mesh's does, the contract is kept, and the histories gain exactly the entry the mesh records |
| `NodeService.Service.IsNew` | src/bitchat/services/message_service.cpp:747-765 | the screening on the shared set of strings: new iff the key is not there, and then it is marked |
| `NodeService.Service.OnPacketReceived` | src/bitchat/services/network_service.cpp:238-251 | processing first, then the relay of the mesh unless an exception escaped, duplicates included |
| `NodeService.Service.RelayPacket` | src/bitchat/services/network_service.cpp:253-270 | the loop over the peers: TTL lowered, every listed peer but the sender that the transport finds under its ID, in order |
| `NodeService.Service.HandleVersionHello` | src/bitchat/services/message_service.cpp:915-1041 | parse by offset, negotiate by search, answer, add the peer if missing: the outcome the mesh uses |
| `NodeService.Service.HandleVersionAck` | src/bitchat/services/message_service.cpp:1043-1096 | a rejection removes the peer |
| `NodeService.Service.ProcessMessage` | src/bitchat/services/message_service.cpp:340-407 | own messages ignored; channel, default chat or private match appended to the shared history; nothing else of the node changes |
| `NodeService.Service.ProcessChannelAnnounce` | src/bitchat/services/message_service.cpp:409-427 | through the payload parser, the lookup and the update of the shared peer list: a known peer's channel is set or cleared |
| `NodeService.Service.ProcessAnnounce` | src/bitchat/services/message_service.cpp:429-470 | through the lookup and the update of the shared peer list: known peers are refreshed, new ones added |
| `NodeService.Service.ProcessLeave` | src/bitchat/services/message_service.cpp:472-489 | removing only when the lookup finds the peer is the same as filtering the list |
| `NodeService.Service.ProcessHandshake` | src/bitchat/services/message_service.cpp:491-651 | through the session objects: session on demand, handshake step, response packet by the size rules, other sessions untouched |
| `NodeService.Service.ProcessEncrypted` | src/bitchat/services/message_service.cpp:653-693 | the peer's session object decrypts and counts, or throws; then as a message |
| `NodeService.Service.ProcessIdentityAnnounce` | src/bitchat/services/message_service.cpp:695-745 | the smaller ID initiates through the peer's session object, or throws |
| `MeshSafety.CreatedOk` | src/bitchat/services/message_service.cpp:767-873 | what each request creates: the creator's ID or none, and a chat message exactly in message packets |
| `MeshOrigins.ChatSaysWhatWasTyped` | src/bitchat/services/message_service.cpp:53-112 | for nickname, text and channel or recipient within 100 payload bytes, the payload of the packet made parses to the text typed, the nickname, and the channel given or in use, or for a private message its recipient and no channel |
| `MeshOrigins.ShortIsSmall` | src/bitchat/protocol/packet_serializer.cpp:195-302 | these lengths: 49 bytes plus nickname, text and a counted channel or recipient |
| `MeshOrigins.MessagePacketIs` | src/bitchat/services/message_service.cpp:767-826 | TTL 7, the node as sender; a chat has the broadcast recipient and is encrypted iff a session is established, which counts it; a private message has no recipient and is not encrypted; both are signed |
| `MeshOrigins.AnnounceReaches` | src/bitchat/services/message_service.cpp:828-839 | an announce sent over the wire makes its creator a peer of the receiver, under its nickname if new, online for 180 seconds and no longer, and touches no other entry |
| `MeshOrigins.ChannelNewsReachesNoOne` | src/bitchat/services/message_service.cpp:841-850 | a channel announce says which channel is joined or left, but names no sender: over the wire it can change only the entry of the all-zero ID |
| `MeshOrigins.HelloSucceeds` | src/bitchat/services/message_service.cpp:852-873 | hello created, sent, answered, answer sent back: the server then lists the client, the client's list is as before |
| `MeshOrigins.IdentityIsSent` | src/bitchat/services/message_service.cpp:181-199 | an identity announce carries the node's ID as sender and as text |
| `MeshOrigins.DisconnectRemovesOne` | src/bitchat/services/message_service.cpp:225-248 | a lost link removes the first peer reached over it, and no other; without one nothing changes |
| `MeshOrigins.LocalSteps` | src/bitchat/core/bitchat_data.cpp:279-288 | cleanup keeps exactly the peers online; switching and renaming change channel and nickname and nothing else |
| `MeshSafety.SmallIsSturdy` | src/bitchat/services/message_service.cpp:767-826 | a chat packet of at most 100 payload bytes encodes to at most 194 bytes, is sturdy, and parses to the message |
| `MeshSafety.RelayTargetsExact` | src/bitchat/services/network_service.cpp:262-269 | a relay goes to a connection iff it is filed under the ID of a listed peer that is not the sender |
| `Noise.SessionRuns` | src/bitchat/noise/noise_session_default.cpp:19-133 | in every run at most one handshake succeeds, the session is established iff one was attempted, the hash is there iff established, the counter is the successful messages modulo 2^64 |
| `Noise.MessageSucceedsIffEstablished` | src/bitchat/noise/noise_session_default.cpp:19-41 | a message succeeds iff a handshake came before it, so establishment never reverts |
| `Noise.RolesAreOpposite` | src/bitchat/services/noise_service.cpp:223-226 | two different nodes resolve opposite roles for each other |
| `Noise.SmallerIdentityInitiates` | src/bitchat/services/noise_service.cpp:223-226 | the node whose identity has the smaller byte at the first difference is the initiator, the other the responder |
| `Noise.NoiseSession.Encrypt` | src/bitchat/noise/noise_session_default.cpp:19-29 | exception before establishment, then the data unchanged and counted |
| `Noise.NoiseSession.StartHandshake` | src/bitchat/noise/noise_session_default.cpp:63-80 | succeeds once, with its message |
| `Noise.NoiseSession.ProcessHandshakeMessage` | src/bitchat/noise/noise_session_default.cpp:116-133 | succeeds once, with its response |
| `Noise.NoiseService.CreateSession` | src/bitchat/services/noise_service.cpp:19-29 | a fresh session replaces the peer's entry, no other |
| `Noise.NoiseService.RemoveSession` | src/bitchat/services/noise_service.cpp:44-54 | the peer's entry goes, no other |
| `Noise.NoiseService.HandleIncomingHandshake` | src/bitchat/services/noise_service.cpp:90-100 | session on demand, then its handshake step; other sessions untouched |
| `Noise.NoiseService.InitiateHandshake` | src/bitchat/services/noise_service.cpp:73-88 | needs the peer's session, performs its handshake once, and leaves the other sessions alone |
| `Noise.NoiseService.Decrypt` | src/bitchat/services/noise_service.cpp:113-122 | needs the peer's established session, counts there and nowhere else |
| `Noise.NoiseService.GetEstablishedSessionIDs` | src/bitchat/services/noise_service.cpp:135-150 | exactly the established IDs, without duplicates |
| `RelayBuffers.WindowRuns` | extras/esp32/sketch/sketch.ino:134-146 | after any offers the history is the last 128 accepted IDs and any 129 consecutive accepted IDs are distinct |
| `RelayBuffers.QueueRuns` | extras/esp32/sketch/sketch.ino:108-132 | in every run at most 32 packets are queued, they are the newest pushed, popped ones keep their order, and each pushed packet is popped, dropped or queued, never two of these |
| `RelayBuffers.ForwardedTwiceOnlyFarApart` | extras/esp32/sketch/sketch.ino:238-273 | window and queue together: two forwarded packets share an ID only if more than 128 IDs were accepted from one to the other |
| `RelayBuffers.ReceivedIsQueued` | extras/esp32/sketch/sketch.ino:238-273 | in every run a non-empty packet is queued, as the newest, iff it is no version packet and its ID is not among the last 128 accepted; the oldest gives way at 32 |
| `RelayBuffers.OldestIsForwarded` | extras/esp32/sketch/sketch.ino:116-124 | in every run the main loop takes the oldest packet queued |
| `RelayBuffers.PacketDeduplicator.IsDuplicate` | extras/esp32/sketch/sketch.ino:136-142 | the search and update of the window run |
| `RelayBuffers.SafePacketQueue.PushPacket` | extras/esp32/sketch/sketch.ino:110-115 | drop-oldest push of the queue run |
| `RelayBuffers.SafePacketQueue.PopPacket` | extras/esp32/sketch/sketch.ino:116-124 | pop of the queue run, and what it returns |
| `StreamReader.ReaderRuns` | src/platforms/linux/bluetooth.cpp:371-439 | for every sequence of reads of at most 4096 bytes: what was received is, in order, what was removed and then the buffer; the buffer is below 65536 bytes between reads and below 65536 + 4096 always |
| `StreamReader.DrainConserves` | src/platforms/linux/bluetooth.cpp:376-438 | the inner loop loses, adds and reorders nothing, and stops only when nothing can be removed |
| `StreamReader.RemovalsAreOk` | src/platforms/linux/bluetooth.cpp:378-430 | in every run each erased frame has the size its own header announces, at most 64 KiB, and each packet passed to the callback has version 1 and is decoded from all that was buffered from the first erased byte on |
| `StreamReader.HandedInRun` | src/platforms/linux/bluetooth.cpp:413-425 | in every run the packet passed to the callback is, by what unpadding the whole buffer leaves: the default packet with TTL 7 below 21 bytes, the bare header below the frame size, and otherwise what the frame and one more byte decode to |
| `StreamReader.EveryPacketIsPassedOn` | src/platforms/linux/bluetooth.cpp:371-439 | in every run each removal is, of a buffer that begins there: everything iff the header is oversize; else the packet is handed on iff the buffer decodes with version 1, the frame erased iff the callback also returns, one byte otherwise; and between reads only an incomplete frame is left |
| `StreamReader.NextIsPassedOn` | src/platforms/linux/bluetooth.cpp:376-438 | the loop waits iff less than a header or than the announced frame is there, and passes on otherwise |
| `StreamReader.OversizeInNumbers` | src/platforms/linux/bluetooth.cpp:378-404 | the frame size and the oversize limits by the bytes at offsets 11 to 13 |
| `StreamReader.DecodingIgnoresRest` | src/platforms/linux/bluetooth.cpp:413-430 | decoding the whole buffer uses nothing beyond the frame and one byte |
| `StreamReader.FrameIsOneByteShort` | src/platforms/linux/bluetooth.cpp:383-393 | that size is one byte less than the packet's unpadded wire image |
| `StreamReader.DrainBuffer` | src/platforms/linux/bluetooth.cpp:376-438 | the inner loop with the real decoder, the version check and a callback that may throw: terminates, conserves the bytes, and removes what the run removes |

## Left out

- LZ4, OpenSSL, random generation, UUIDs and clocks: foreign code, present as parameters.
- Sockets, HCI, CoreBluetooth, the Apple bridge, runner threads, ESP32 BLE code, the user interface, logging and callbacks to it.
- `MeshSafety.NoCreation`: the identical-fields claim covers payloads of at most 100 bytes, because `createMessagePacket` compresses longer ones without recording their size and the receiver does not undo that layer.
- `PacketCodec.TransmissionExact`: needs a representable packet, because for others the outcome depends on what LZ4 makes of bytes that are not its own.
- `VersionCodec.NegotiationAgreement`: versions are positive and at most 255 in number, because 0 stands for no agreement and the count is one byte.
- `MeshReach.MessageCanReachTheEnd`: needs connections filed under peer IDs, which the shipped transports do not provide, and speaks of one schedule; `MeshCoverage.FloodingCovers` covers every run, under the same filing.
- `MeshCoverage.EveryoneInRangeHasTheMessage`: covers payloads of at most 100 bytes, sent in plain, for the reason given for `MeshSafety.NoCreation`.
- A node's own history entry for a message it sends, and the order of locks inside the shared data object.
- Any claim that the Linux reader recovers the packets sent: its frames ignore the padding. In the mesh a copy is decoded on its own.
- Packets sent to one connection only (the hello and announce after discovery): in the mesh a node's own packets go to all its connections of that step, which may be one.
- Rekeying, session timeouts, Noise migration, hybrid and post-quantum key exchange: wrappers, stubs or unreachable paths.
- The identity service and the validators of names: they would only add easy members.
- The counters and setters of packets and peers that only store a value, and `getTotalSize`.
- `joinChannel` and `leaveChannel` as single calls: in the mesh the switches and announces they consist of are events of their own.
