# Pipistrelle, modelled and verified

Pipistrelle is an MQTT 5.0 broker written in Rust. This project models the parts of it that carry state and
promises, and proves what they promise for all inputs and over all runs:

- **Router** (`Topics`, `Trie`, `Matching`, `Router`, `Subscribing`). The subscription trie, with its pruning, refines a
  flat table keyed by group, filter levels and client. Matching a topic is a linear scan of that table by the wildcard
  relation of section 4.7.1 of MQTT Version 5.0. What a filter string asks for is read off its bytes.
- **Access rules** (`Acl`). The index loop that matches topics refines the recursive relation, and the exact condition
  under which an accepted subscription stays inside the rule that admitted it.
- **Codec** (`Varint`, `Wire`, `Unicode`, `PropertyBlocks`, `PropertySizes`, `Properties`, `BlocksOnTheWire`, `Packets`,
  `PacketRoundTrip`, `PacketsOnTheWire`, `DecoderRange`, `Codec`). Seven property blocks as instances of one schema,
  whose laws carry the round trip, the decode loop and the sizes for all of them; nine packet types. Parser and printer
  undo each other, and the packets the parser can produce are exactly the ones that round-trip. Because parser and
  printer could agree on wrong bytes, UTF-8, the integers, the property blocks and the packets are also stated byte for
  byte. `Codec` holds the imperative decoder and encoder, proved equal to the functions.
- **Read loop and WebSocket adapter** (`Stream`, `WebSocket`). The packets of a connection and the way it ended depend
  on its bytes only, not on how reads or WebSocket frames cut them.
- **Sessions and delivery** (`PacketIds`, `Session`, `RoundRobin`, `PublishFrames`, `Delivery`, `Publishing`,
  `LoadSharing`, `FirstTurns`, `Broker`, `Dispatch`, `ClientRequests`). Packet ids as interleaved atomic steps,
  in-flight messages over whole runs, the frames one PUBLISH puts on every channel, how a shared group's members share a
  run of publishes; the packets a client may send and the answers it gets.
- **Restart** (`Persistence`, `Restart`). The tables as keyed maps over whole runs; when replaying them rebuilds the
  router and the in-flight maps.

Code that changes things step by step (the router's walks, the readers and writers, the read loop, the adapter, the
sessions, the broker, the database) is a class or a method with loops, proved against functions on values. The laws are
lemmas about those functions. Text is a sequence of bytes with a concrete UTF-8 predicate; integer widths and
wrap-around are written out.

Six places where the code does less than one might expect, each settled by an exact condition and an input:

- `subscribe` cuts a filter behind its first `#`, `unsubscribe` does not (src/router.rs:71-73, 99-172). Subscribing
  something new and unsubscribing it is a no-op exactly if `#` is only the last level
  (`Router.RunSubscribeUnsubscribe`).
- For the same reason two rows of the subscriptions table can be one router entry. A client that subscribes `#/a` and
  then `#/b` with another qos has its second subscription now and may have its first after a restart
  (`Persistence.FirstSubscriptionReturns`, `Persistence.TwoFiltersOneKey`). A restart is faithful after every step of a
  run exactly if the run is orderly in the sense of `Persistence.FaithfulExactlyWhenOrderly`.
- A persistent client that disconnects with a message in flight and connects again starts with nothing in flight, while
  the table keeps the message; a restart then brings it back (`Restart.ReconnectedClientGainsAMessage`). The in-flight
  table mirrors the sessions throughout a run exactly if clients connect only when it has nothing of theirs and no
  acknowledgement on a connection that was taken over hits a row of the new session (`Restart.MirroredExactlyInLine`).
- In-flight messages are conserved exactly while no message stays unacknowledged when its id comes round again, 65535
  sends later (`Session.ConservedExactlyWhenTimely`); after 65536 unacknowledged sends one is forgotten
  (`Session.OneSendTooMany`).
- An access rule `a/+` admits the subscription `a/#`, which then receives `a/b/c` (`Acl.AclLeak`); `Acl.AclIsTransitive`
  gives the exact condition under which that cannot happen.
- A shared filter is checked against the rules with its `$share/group/` prefix, but receives by what follows it
  (`Acl.SharedFiltersSlipThrough`). A rule lets its user read everything that a subscription receives, shared or not,
  exactly if it covers the filter proper (`Acl.RuleCoversExactly`).

## Model

| member | source | states |
|---|---|---|
| Topics.FilterIsRecoverable | src/router.rs:228-238 | the group and levels that the router files a filter under determine the filter string, so table rows and router keys correspond |
| Topics.ParseSharedExactly | src/router.rs:228-238 | on its bytes, a filter is parsed into group g and filter f iff it is "$share/" + g + "/" + f with no slash in g, and into no group and itself iff it is of no such form |
| Topics.Truncate | src/router.rs:68-74 | the levels that `subscribe` walks: the whole filter exactly when `#` is at most last, and otherwise the filter cut behind its first `#` |
| Acl.TopicMatchesFilter | src/config.rs:167-186 | the index loop decides the recursive wildcard relation, for every topic and filter |
| Acl.MatchesByIndex | src/config.rs:167-186 | the relation level by level: lengths, first `#`, and every level before it |
| Acl.TruncatedMatchesAlike | src/router.rs:68-74 | cutting a filter behind its first `#` does not change which topics it matches |
| Acl.AclIsTransitive | src/config.rs:119-141 | a subscription accepted under a rule receives only topics the rule matches, exactly when the rule's `#` is not behind the filter's |
| Acl.EscapingTopic | src/config.rs:167-186 | otherwise there is a topic the subscription receives and the rule does not match |
| Acl.AclLeak | src/config.rs:119-141 | the concrete case: the rule `a/+` authorises `a/#`, which receives `a/b/c`, which is not authorised |
| Acl.Authorize | src/config.rs:119-141 | allowed iff access is open or some rule of the user has the access mode and matches |
| Acl.MayWriteExactly | src/config.rs:119-141 | authorised to publish iff access is open or a rule of the user matches with "readwrite" or "write" |
| Acl.MayReadExactly | src/config.rs:119-141 | authorised to subscribe iff access is open or a rule of the user matches with "readwrite" or "read" |
| Acl.OtherModesGrantNothing | src/config.rs:127-132 | rules with any other access mode grant nothing |
| Acl.AclCoversExactly | src/config.rs:167-186 | everything a filter receives is inside another iff that matches it and has its `#` in order |
| Acl.RuleCoversExactly | src/config.rs:119-141 | a rule lets its user read every topic a subscription receives, shared or not, iff it reaches the filter proper with the `#`s in order |
| Acl.CoveredSubscriberMayReadWhatItGets | src/config.rs:119-141 | one covering rule is enough for the user to read whatever the subscription receives |
| Acl.SharedFiltersSlipThrough | src/config.rs:119-141 | the rule `$share/#` authorises every shared filter, and nothing of what it receives outside `$share` |
| Trie.InsertGoodTrie | src/router.rs:22-30 | inserting keeps: no empty child, `#` nodes are leaves, no `+` or `#` among the named children, group lists non-empty and without duplicate clients |
| Trie.RemoveGoodTrie | src/router.rs:99-172 | removing keeps the same, so pruning leaves no empty node |
| Trie.InsertRefines | src/router.rs:54-95 | inserting is one row written in the flat table, every other row unchanged |
| Trie.RemoveRefines | src/router.rs:99-172 | removing is one row taken from the flat table, and reports whether it was there |
| Trie.StoredAfterAdd | src/router.rs:76-95 | at a node: the client's earlier entry in the same group is replaced, no other entry changes |
| Trie.StoredAfterRemove | src/router.rs:111-135 | at a node: only that client's entry in that group goes, and an absent entry changes nothing |
| Trie.Canonical | src/router.rs:22-30 | two pruned tries that store the same, group order included, are equal |
| Trie.SubscribeThenUnsubscribe | src/router.rs:54-172 | adding something absent and removing it restores the trie exactly iff `#` is only last |
| Trie.NothingPastHash | src/router.rs:71-73 | nothing is ever stored beyond a `#` |
| Matching.FoundIsLinearScan | src/router.rs:176-226 | what the branching walk collects is, with multiplicity, a linear scan of the flat rows by the wildcard relation |
| Matching.PlacesAreMatches | src/router.rs:181-209 | the walk visits exactly the stored filters that match the topic |
| Matching.FoundCountsPlaces | src/router.rs:181-226 | and collects each stored subscription once per filter it is stored under |
| Matching.MembersAreFound | src/router.rs:216-226 | a group's ordered list holds exactly the group's matching members |
| Matching.GroupTakesPart | src/router.rs:216-226 | a group appears in the result iff some row of it matches |
| Matching.SameRowsSameMatches | src/router.rs:176-226 | tries with the same flat rows answer every topic alike |
| Router.TopicRouter.constructor | src/router.rs:46-50 | the empty router stands for the empty table |
| Router.TopicRouter.Subscribe | src/router.rs:54-95 | exactly one row written, under truncated levels, with the latest qos and identifier; invariant kept |
| Router.TopicRouter.WalkDown | src/router.rs:68-75 | the descent that creates missing nodes and stops behind `#` reaches the place where the insertion belongs |
| Router.TopicRouter.Unsubscribe | src/router.rs:99-172 | removes the row under untruncated levels, returns true iff it was there; invariant kept |
| Router.TopicRouter.UnsubscribeRecursive | src/router.rs:104-168 | in-place removal and bottom-up pruning, equal to the functional removal; reports emptiness |
| Router.TopicRouter.MatchTopic | src/router.rs:176-226 | each matching unshared subscription once, each shared one once under its group, a group present iff a member matches |
| Router.TopicRouter.MatchRecursive | src/router.rs:181-209 | each recursive call adds exactly the matches below its node |
| Router.RunRefines | src/router.rs:54-172 | over every run of subscribe and unsubscribe, the trie is pruned and holds exactly the flat table's rows |
| Router.RunMatchesLikeScan | src/router.rs:54-226 | after every run, matching is a linear scan of the flat table |
| Router.RunsAreCanonical | src/router.rs:22-172 | two runs that leave the same contents leave the same trie |
| Router.RunSubscribeUnsubscribe | src/router.rs:54-172 | after any run, subscribe-then-unsubscribe of an absent subscription is a no-op iff `#` is only last |
| Subscribing.FiledByWhatItReceives | src/router.rs:61-74 | the levels a subscription is stored under match exactly the topics that it is to receive |
| Subscribing.SubscriberIsFound | src/router.rs:54-226 | after any run that ends with a subscription, the client is found with it, in exactly the group that the filter's bytes ask for and for exactly the topics that what follows the prefix matches, in place of what was under the same key; nothing else changes |
| Subscribing.OnlySubscriberIsFound | src/router.rs:54-226 | in an otherwise empty router it is found iff the group is that one and the topic matches, and it is all that is found |
| Subscribing.UnsubscriberIsNotFound | src/router.rs:99-226 | after any run that ends with an unsubscription, what was under the untruncated key is no longer found, and nothing else changes |
| Subscribing.NoOpExactly | src/router.rs:54-172 | on the filter's bytes: subscribing something absent and unsubscribing it is a no-op iff no level but the last is "#" |
| Varint.VarintRoundTrip | src/codec.rs:80-118 | below 2^28 decoding undoes encoding whatever follows; from 2^28 on the encoding decodes to `InvalidVarint` |
| Varint.VarintCanonical | src/codec.rs:80-118 | every decoded value is below 2^28, its own encoding decodes to it again and no accepted sequence for it is shorter |
| Varint.VarintStable | src/codec.rs:82-103 | once the decoder has an answer other than `Incomplete`, further bytes do not change it |
| Varint.VarintPrefixIncomplete | src/codec.rs:82-103 | every strict prefix of an accepted integer is `Incomplete` |
| Varint.DecodeVarintLoop | src/codec.rs:82-103 | the value/multiplier loop computes the recursive decoder, with no 32-bit overflow in any iteration |
| Varint.EncodeVarintLoop | src/codec.rs:106-118 | the encoder loop appends the encoding |
| Varint.FourDigits | src/codec.rs:106-118 | the longest encoding digit by digit: low seven bits first, top bit on all but the last (`ThreeDigits`, `TwoDigits`, `FirstDigit` for the shorter ones) |
| Varint.DecodedByDigits | src/codec.rs:82-103 | the decoder digit by digit, on every buffer: which bytes give which value and length, when it is `InvalidVarint` and when `Incomplete` |
| Unicode.Utf8Exactly | src/codec.rs:63-64 | the texts that are accepted as UTF-8 are exactly the spellings, by the arithmetic of RFC 3629, of sequences of Unicode scalar values |
| Unicode.StringsExactly | src/codec.rs:58-67 | a string is read iff its big-endian length is followed by that many bytes that spell scalar values; too few bytes are `Incomplete` |
| Wire.Reader.Str | src/codec.rs:58-67 | a length-prefixed UTF-8 string off the cursor, with the error cases |
| Wire.Reader.Data | src/codec.rs:70-78 | length-prefixed bytes off the cursor |
| Wire.Reader.VarInt | src/codec.rs:82-103 | a variable byte integer off the cursor |
| Wire.BytesRoundTrip | src/codec.rs:58-78 | reading a length-prefixed field that was written gives it back with what follows, up to 65535 bytes |
| PropertyBlocks.ParseConcatenation | src/codec.rs:310-328 | the parse loop over a concatenation of printed entries gives those entries |
| PropertyBlocks.PrintedAgrees | src/codec.rs:332-374 | in what a block prints, the last value under each identifier is the field's, and the user properties come in order |
| PropertyBlocks.BlockRoundTrip | src/codec.rs:293-375 | for any lawful block, reading a printed well-formed block gives the block and what follows |
| PropertyBlocks.LoopStep | src/codec.rs:310-328 | for any lawful block, assigning fields one entry at a time builds the block with the last value under each identifier |
| PropertySizes.PrintedSizeOf | src/codec.rs:310-374 | for any lawful block, printing what was parsed takes no more bytes than the parsed entries, duplicates and order notwithstanding |
| PropertySizes.BlockRead | src/codec.rs:294-330 | for any lawful block, what the decoder accepts is well formed and prints in no more bytes than were read |
| Properties.ConnectLawful | src/codec.rs:293-375 | CONNECT, nine fields: the block accepts exactly the identifiers it prints, each once with the width it is read with, and is determined by their values |
| Properties.ConnAckLawful | src/codec.rs:377-499 | CONNACK, seventeen fields: the block accepts exactly the identifiers it prints, each once with the width it is read with, and is determined by their values |
| Properties.PublishLawful | src/codec.rs:501-582 | PUBLISH, eight fields: the block accepts exactly the identifiers it prints, each once with the width it is read with, and is determined by their values |
| Properties.PubAckLawful | src/codec.rs:584-631 | PUBACK, two fields: the block accepts exactly the identifiers it prints, each once with the width it is read with, and is determined by their values |
| Properties.SubscribeLawful | src/codec.rs:633-684 | SUBSCRIBE, two fields: the block accepts exactly the identifiers it prints, each once with the width it is read with, and is determined by their values |
| Properties.SubAckLawful | src/codec.rs:686-733 | SUBACK, two fields: the block accepts exactly the identifiers it prints, each once with the width it is read with, and is determined by their values |
| Properties.DisconnectLawful | src/codec.rs:735-792 | DISCONNECT, four fields: the block accepts exactly the identifiers it prints, each once with the width it is read with, and is determined by their values |
| BlocksOnTheWire.ConnectOnTheWire | src/codec.rs:332-374 | CONNECT properties byte for byte: identifiers, widths and order; nothing for an absent field |
| BlocksOnTheWire.ConnAckOnTheWire | src/codec.rs:424-498 | CONNACK properties byte for byte |
| BlocksOnTheWire.PublishOnTheWire | src/codec.rs:543-581 | PUBLISH properties byte for byte |
| BlocksOnTheWire.PubAckOnTheWire | src/codec.rs:616-630 | PUBACK properties byte for byte |
| BlocksOnTheWire.SubscribeOnTheWire | src/codec.rs:669-683 | SUBSCRIBE properties byte for byte |
| BlocksOnTheWire.SubAckOnTheWire | src/codec.rs:718-732 | SUBACK properties byte for byte |
| BlocksOnTheWire.DisconnectOnTheWire | src/codec.rs:769-791 | DISCONNECT properties byte for byte |
| BlocksOnTheWire.LastEntryCounts | src/codec.rs:310-328 | read from any good entries in any order, a field has the value of the last entry with its identifier |
| BlocksOnTheWire.AbsentWithoutEntry | src/codec.rs:294-330 | and is absent if there is none |
| BlocksOnTheWire.EveryUserPropertyCounts | src/codec.rs:310-328 | user properties are all kept, in order |
| BlocksOnTheWire.UnknownIdentifierRejected | src/codec.rs:310-328 | an identifier the block does not have makes the packet malformed, wherever it stands |
| BlocksOnTheWire.NoBlock | src/codec.rs:294-297 | a body that ends before the property length has no properties |
| PacketRoundTrip.ConnectRoundTrip | src/codec.rs:796-1142 | CONNECT bodies: decoding undoes encoding, Will absent |
| PacketRoundTrip.ConnAckRoundTrip | src/codec.rs:796-1142 | CONNACK bodies |
| PacketRoundTrip.PublishRoundTrip | src/codec.rs:796-1142 | PUBLISH bodies, with flags, packet id iff qos > 0, and payload |
| PacketRoundTrip.PubAckRoundTrip | src/codec.rs:796-1142 | PUBACK bodies, in the short and the long form |
| PacketRoundTrip.SubscribeRoundTrip | src/codec.rs:796-1142 | SUBSCRIBE bodies with any number of entries |
| PacketRoundTrip.SubAckRoundTrip | src/codec.rs:796-1142 | SUBACK bodies |
| PacketRoundTrip.DisconnectRoundTrip | src/codec.rs:796-1142 | DISCONNECT bodies, in the short and the long form |
| PacketRoundTrip.FrameRoundTrip | src/codec.rs:796-814 | a fixed header and body that were framed come back, whatever follows |
| PacketRoundTrip.RoundTrip | src/codec.rs:796-1142 | for all nine packet types: decode(encode(p) + rest) is p and the encoding's length |
| PacketsOnTheWire.EncodedOnTheWire | src/codec.rs:1034-1142 | what is written for each of the nine types, byte for byte, from the first byte on |
| PacketsOnTheWire.FrameDecodes | src/codec.rs:796-814 | a first byte, a length and that many bytes decode to what the body decodes to, whatever follows |
| PacketsOnTheWire.ConnectDecodes | src/codec.rs:816-878 | CONNECT byte for byte: name, level, flags, keep-alive, properties, client id, a Will that is passed over, user name and password as the flags say |
| PacketsOnTheWire.SessionExpiryDecodes | src/codec.rs:310-328 | the property block 5, 0x11, a, b, c, d is a session expiry of 2^24 a + 2^16 b + 2^8 c + d and nothing else |
| PacketsOnTheWire.ConnectRefused | src/codec.rs:822-829 | another protocol name is malformed; another level is reported as unsupported, with its number |
| PacketsOnTheWire.WillPropertiesPastTheEnd | src/codec.rs:845-849 | Will properties that reach past the packet: where the source panics |
| PacketsOnTheWire.WillTopicPastTheEnd | src/codec.rs:850-852 | so for the Will topic |
| PacketsOnTheWire.WillPayloadPastTheEnd | src/codec.rs:853-855 | and the Will payload |
| PacketsOnTheWire.RefusedByHeader | src/codec.rs:796-1030 | malformed by the first byte: flags on CONNECT and the pings, qos 3, SUBSCRIBE flags other than 2, a ping with a body, seven unknown types |
| PacketsOnTheWire.ConnAckDecodes | src/codec.rs:879-893 | CONNACK byte for byte |
| PacketsOnTheWire.PublishDecodes | src/codec.rs:894-925 | PUBLISH byte for byte: flags, topic, packet id iff qos > 0, properties, payload |
| PacketsOnTheWire.ShortPubAckDecodes | src/codec.rs:926-947 | a PUBACK that stops behind its id or its reason |
| PacketsOnTheWire.PubAckDecodes | src/codec.rs:926-947 | a PUBACK with reason and properties |
| PacketsOnTheWire.SubscribeDecodes | src/codec.rs:948-978 | SUBSCRIBE byte for byte; without entries it is malformed |
| PacketsOnTheWire.SubAckDecodes | src/codec.rs:979-995 | SUBACK byte for byte |
| PacketsOnTheWire.PingsDecode | src/codec.rs:996-1009 | the pings are C0 00 and D0 00 |
| PacketsOnTheWire.DisconnectDecodes | src/codec.rs:1010-1027 | DISCONNECT: nothing, a reason, or a reason and properties |
| PacketsOnTheWire.CutInFixedFields | src/codec.rs:816-1027 | a body that ends inside its fixed fields is `Incomplete` |
| PacketsOnTheWire.CutInProperties | src/codec.rs:294-330 | so is one that ends inside its properties |
| DecoderRange.DecodedInRange | src/codec.rs:796-1030 | every packet the decoder can produce is well formed and its own encoding fits a frame |
| DecoderRange.ReencodeRoundTrip | src/codec.rs:796-1142 | a decoded packet, re-encoded and decoded, is itself again, whatever the order, duplicates or integer lengths of the first bytes |
| DecoderRange.DecoderRange | src/codec.rs:796-1142 | a packet can come out of the decoder iff it is well formed and fits |
| DecoderRange.RoundTripExactly | src/codec.rs:796-1142 | encoding then decoding gives the packet back iff it is well formed and fits |
| Codec.DecodeEntries | src/codec.rs:310-328 | the property loop on a cursor, generic in the block, equals the recursive parse with fields assigned in turn |
| Codec.DecodeProperties | src/codec.rs:294-330 | property length, slice and loop equal the functional block reader, errors included |
| Codec.Decode | src/codec.rs:796-1030 | the imperative decoder returns exactly what the functional one does, on every input |
| Codec.EncodeProperties | src/codec.rs:332-374 | the fields one after the other in print order to a temporary buffer, then length and contents: the block as printed, for all seven |
| Codec.Encode | src/codec.rs:1034-1142 | the imperative encoder appends exactly the functional encoding |
| Stream.FrameDeterminism | src/codec.rs:796-814 | once a frame is there further bytes never change the result, Ok or Err; every strict prefix of it is `Incomplete` |
| Stream.DecodeIsDecided | src/codec.rs:796-814 | a result other than `Incomplete` is final, and takes between 2 and all bytes |
| Stream.Connection.OnRead | src/main.rs:394-414 | one read: append, decode while possible, advance, stop on `Incomplete`, a decode error or a second CONNECT |
| Stream.Connection.OnReads | src/main.rs:381-427 | the outer loop over all reads |
| Stream.DrainMore | src/main.rs:394-414 | decoding a longer buffer continues where decoding the shorter one stopped |
| Stream.Connection.OnReadError | src/main.rs:416-419 | a failed read ends the connection, unless it had ended |
| Stream.ChunkingDoesNotMatter | src/main.rs:394-414 | any two ways of cutting a byte stream into reads give the same packets, order and verdict |
| Stream.ChunkingDoesNotMatterToTheEnd | src/main.rs:381-427 | and so up to and including the read that closed or broke the connection |
| Stream.EncodedStream | src/main.rs:394-414 | a stream of encodings of well-formed packets, cut anywhere, yields those packets and an empty buffer, and ends as the reads end |
| Stream.StreamStops | src/main.rs:381-427 | whole packets, however encoded, then any bytes, cut anywhere: exactly those packets are handled; then the loop fails with the decoder's error, or refuses a second CONNECT, or waits with the bytes in its buffer until an empty read closes or a failed one breaks the connection |
| Stream.EncodedStreamStops | src/main.rs:394-414 | the same behind encoded packets: a malformed packet fails the connection with its error, the encoding of a CONNECT is a duplicate |
| WebSocket.Adapter.Read | src/websocket.rs:34-88 | the loop over frames does what the specification of one poll says |
| WebSocket.Adapter.Write | src/websocket.rs:96-104 | everything written is buffered and reported written |
| WebSocket.Adapter.Flush | src/websocket.rs:106-132 | unless the sink refused a frame, frames sent plus the write buffer are all bytes written; a flush that is done has sent them |
| WebSocket.PollIsLossless | src/websocket.rs:34-88 | one poll loses nothing; an empty read with room happens only at Close or end of stream |
| WebSocket.PollByFrame | src/websocket.rs:34-88 | one poll frame by frame: unread bytes first; pings, pongs, raw and empty frames are passed over; a binary or text frame delivers its data as far as there is room; Close or the end give an empty read, an error a reset, nothing at all "later" |
| WebSocket.RunEndsAsItsLastFrame | src/websocket.rs:34-88 | over every run, the stream was closed iff the last frame taken is a Close or the end, and broken iff it is an error |
| WebSocket.AdapterIsLossless | src/websocket.rs:34-88 | over every run of polls, bytes read plus unread bytes are the accepted frames' payloads |
| WebSocket.FrameBoundariesDoNotMatter | src/websocket.rs:34-88 | through the read loop, up to and including a Close, an end of stream or a reset, the outcome does not depend on frame boundaries or read sizes |
| WebSocket.FramedPacketsArrive | src/websocket.rs:34-88 | frames carrying encoded packets, cut anywhere, deliver exactly those packets, however the connection ends |
| PacketIds.SequentialIds | src/session.rs:69-76 | on a fresh session call n (from 0) returns 1 + n mod 65535 |
| PacketIds.RunInvariant | src/session.rs:69-76 | the counter and all returned ids follow the number of atomic increments, under every interleaving |
| PacketIds.ZeroExactlyAfterFullTurn | src/session.rs:69-76 | a caller is handed 0 exactly when its two steps lie a multiple of 65536 increments apart, so never with fewer than 65535 between them |
| PacketIds.IdsDistinctInWindow | src/session.rs:60-76 | ids from any 65536 consecutive increments are pairwise distinct |
| Session.ClientSession.GetNextPacketId | src/session.rs:69-76 | one or two atomic increments: the next id, never 0 |
| Session.SendTracksExactly | src/session.rs:312-328 | a send keeps the in-flight map exact iff its id is not in flight |
| Session.ConservedExactlyWhenTimely | src/session.rs:69-91 | over every run of sends and PUBACKs with arbitrary ids, `in_flight` holds exactly the unacknowledged messages throughout iff none is still open 65535 sends later |
| Session.InFlightCount | src/session.rs:69-91 | then its size is sends minus effective acknowledgements |
| Session.OneSendTooMany | src/session.rs:69-91 | 65536 sends without an acknowledgement are not timely, and the map then holds one message fewer than are open |
| PublishFrames.DeliveredRoundTrips | src/session.rs:332-348 | a frame that fits decodes to a PUBLISH with the published topic, payload, qos and retain, the subscription's identifier, and an id iff qos > 0 |
| PublishFrames.DeliverableExactly | src/session.rs:332-348 | it fits iff the topic is text, qos at most 2, the identifier below 2^28 and the body, byte for byte, below 2^28 |
| PublishFrames.DeliveredOnTheWire | src/codec.rs:1074-1090 | the frame byte for byte: type and flags, remaining length, topic, id, property 0x0B with the identifier, payload |
| Delivery.SentFrameIsTracked | src/session.rs:312-348 | the id in the frame is the one, never 0, that the message is in flight under |
| Delivery.DeliveredFrames | src/session.rs:301-350 | a session's channel gains one frame for each of its targets, in order, and keeps what it had |
| Delivery.DeliveriesAreSends | src/session.rs:301-350 | on a session's ids and in-flight map a publish is a run of sends, so the conservation law applies to the broker's sessions |
| Delivery.NormalTargetsCounted | src/session.rs:267-272 | of the unshared targets, a client's are the subscriptions of its matching rows, identifiers included, each as often as rows carry it |
| Delivery.SharedTargetsCounted | src/session.rs:274-297 | of the shared targets, a client's are the selected members of the groups that select it |
| Delivery.PublishDeliversExactly | src/session.rs:257-350 | one publish: a frame for each of the client's matching unshared rows with that row's identifier, and one for each group that selects it with that member's |
| Publishing.PublishedByTargets | src/session.rs:257-298 | a publish is a delivery to the unshared matches and the selected member of each group that takes part, and a step of those groups' counters |
| Publishing.CountersAfterPublish | src/session.rs:280-286 | groups that take part advance their counter by one, others not at all |
| Publishing.RoutedPublishReachesEveryone | src/session.rs:257-350 | end to end, for the states before and after `route_publish`: every registered client's frames, with their identifiers, and every group's counter |
| LoadSharing.EachTurnSelectsTheNext | src/session.rs:274-297 | in a run of publishes, the j-th that reaches a group selects position (start + j) of its list, wrapping, modulo the list |
| LoadSharing.RoundRobinIsFair | src/session.rs:274-297 | of n publishes in a run that reach a group with lists of k members, each position is selected floor(n/k) or ceil(n/k) times, until the counter wraps |
| LoadSharing.MembersShareFairly | src/session.rs:274-297 | so a client that gets frames only as one member of the group has floor(n/k) or ceil(n/k) more frames on its channel after the run |
| FirstTurns.MembersOfOneFilter | src/router.rs:176-226 | a group with members under one filter has them, in their stored order, for exactly the topics it matches |
| FirstTurns.MembersInOrder | src/router.rs:76-90 | clients that subscribe one after the other to a shared filter are its members in that order |
| FirstTurns.FirstComeFirstServed | src/session.rs:274-297 | from no counters, publish p (from 0) that matches goes to client (p mod 2^64) mod k of the k that subscribed, in the order in which they came |
| Broker.BrokerState.constructor | src/session.rs:113-124 | no sessions, counters or subscriptions yet, over the tables that are there |
| Broker.BrokerState.RegisterSession | src/session.rs:187-206 | the client's session replaced; a table row iff the expiry is positive |
| Broker.BrokerState.RemoveSession | src/session.rs:209-223 | the session gone; its table rows go iff it does not persist, and no other client's do |
| Broker.BrokerState.Subscribe | src/session.rs:226-238 | router row and table row written together |
| Broker.BrokerState.Unsubscribe | src/session.rs:241-255 | table row deleted iff the router had the row |
| Broker.BrokerState.SendToSession | src/session.rs:311-348 | one delivery to a session: id, in-flight entry, in-flight table row, frame |
| Broker.BrokerState.SendPublishToClient | src/session.rs:301-350 | the addressed client's session and the in-flight table change, nothing else; nothing at all without a session |
| Broker.BrokerState.DeliverToGroup | src/session.rs:280-297 | the member at the old counter gets the message, and the counter steps |
| Broker.BrokerState.RoutePublish | src/session.rs:257-298 | all matching unshared subscribers, then the selected member of each matching group, each group once, in any order |
| Dispatch.LastAdmittedWins | src/main.rs:485-494 | after a SUBSCRIBE each key of the flat table has its last authorised entry, or what it had before |
| Dispatch.ProcessSubscribe | src/main.rs:480-504 | exactly the authorised entries' operations in order on router and table, and one SUBACK |
| Dispatch.SubscribeAdmitted | src/main.rs:485-494 | the loop: one code per entry, `options & 3` or 0x87 |
| Dispatch.SubAckDecodes | src/main.rs:496-503 | the SUBACK decodes to the SUBSCRIBE's id with one code per entry in order |
| Dispatch.SubscribeExtendsTheRun | src/main.rs:485-494 | a SUBSCRIBE lengthens the run of router operations, so the laws about runs hold after it |
| Dispatch.SubscribeKeepsGoodIds | src/main.rs:485-494 | stored subscription identifiers stay encodable |
| Dispatch.ProcessPublish | src/main.rs:442-479 | without write access nothing is routed and a qos 1 PUBLISH is refused with 0x87; otherwise it is routed, then acknowledged |
| Dispatch.AnsweredOnce | src/main.rs:447-477 | a qos 1 PUBLISH is answered by exactly one PUBACK that decodes to its id and code, others by none |
| Dispatch.PubAckOnTheWire | src/codec.rs:1091-1102 | the PUBACK byte for byte: two bytes of id alone on success, else reason code and an empty property block |
| Dispatch.SubAckOnTheWire | src/codec.rs:1112-1117 | the SUBACK byte for byte: id, empty property block, codes |
| Dispatch.PingRespOnTheWire | src/codec.rs:1121-1123 | the PINGRESP byte for byte |
| Dispatch.ProcessPubAck | src/main.rs:505-516 | the message leaves the session's map and the in-flight table; unknown ids change nothing |
| Dispatch.ProcessClientPacket | src/main.rs:436-537 | which packet changes what, and, by its frame, what it cannot touch; only a second CONNECT is an error |
| ClientRequests.PublishRequest | src/main.rs:442-479 | a PUBLISH, from the packet's own fields: with a rule for it every registered client gains frames as `AllowedPublishIsRouted` says and the publisher its PUBACK; without, a qos 1 publisher gains 40 04 id 87 00 and nothing else changes |
| ClientRequests.AllowedPublishIsRouted | src/main.rs:464 | one frame for each of a client's rows that match the packet's topic and one for each group that selects it, each decoding to this topic, payload, qos and retain flag, with an id iff qos > 0 and the subscription's identifier; the counters of the groups with a matching row step by one |
| ClientRequests.SubscribeRequest | src/main.rs:480-504 | a SUBSCRIBE, from the packet's own fields: every entry with a rule for it that no later entry writes over is found afterwards and saved, nobody else's subscriptions change, and the SUBACK byte for byte has `options & 3` or 0x87 for each entry |
| ClientRequests.DecidingEntryIsFound | src/main.rs:485-490 | such an entry is found in the group its bytes ask for, for every topic that what follows the prefix matches, with this client, `options & 3` and the packet's identifier |
| ClientRequests.LastEntryIsSaved | src/main.rs:485-490 | the last admitted entry with a filter string is the table's row under it |
| Persistence.SelectAll | src/persistence.rs:181-199 | a load returns each row once, in some order |
| Persistence.Database.DeleteSession | src/persistence.rs:90-98 | the client's rows go from all three tables, no other client's do |
| Persistence.Restore | src/session.rs:155-160 | the replay loop subscribes each row of the table once |
| Persistence.ReplayedExactlyWhenOrderly | src/session.rs:226-255 | over a run, each table row is the router's row under its key and there are no others, after every step, iff each subscribe meets no other row of its key with other contents and each removal leaves none |
| Persistence.HashLastIsOrderly | src/session.rs:226-255 | a run with `#` only last in every filter is orderly |
| Persistence.ReplayOrderMattersExactly | src/session.rs:155-160 | replaying is independent of the row order iff no two rows with different contents share a router key |
| Persistence.RestartFaithfulExactly | src/session.rs:155-160 | every replay gives the live router's rows iff each table row is the router's row under the key it subscribes to and there are no others |
| Persistence.FaithfulExactlyWhenOrderly | src/session.rs:155-160 | every replay after every step of a run gives the live router's rows iff the run is orderly |
| Persistence.RestartIsFaithful | src/session.rs:155-160 | after every orderly run, and every run with `#` only last, every replay answers every topic and group as before |
| Persistence.FirstSubscriptionReturns | src/session.rs:226-238 | two SUBSCRIBEs by one client to filters with one key: the second holds, and some replay restores the first |
| Persistence.TwoFiltersOneKey | src/router.rs:68-74 | such filters are `#/a` and `#/b` |
| Persistence.DeletedSubscriptionReturns | src/session.rs:226-255 | at the level of `unsubscribe`, which no packet reaches: with `#` earlier, a subscription that was removed is back after a restart |
| Persistence.SuchAFilter | src/router.rs:68-74 | such filters exist: `#/b` |
| Restart.StepMirrors | src/session.rs:187-223 | one step (a client connects or leaves, a publish, a PUBACK, one on a connection that was taken over, a boot) keeps the in-flight table in line with the sessions iff it is not a connection of a client with rows or a late PUBACK for a row of the new session |
| Restart.MirroredExactlyInLine | src/session.rs:187-223 | from an empty start and over every run of such steps, the table mirrors the sessions throughout iff every step is of that kind |
| Restart.SurvivesExactly | src/session.rs:167-184 | a restored session has in flight what the live one had iff the table mirrored the live one, in any row order |
| Restart.InFlightSurvivesRestart | src/session.rs:167-184 | so after every run in line a restart gives each restored session exactly what it had in flight |
| Restart.ReconnectedClientGainsAMessage | src/main.rs:332-341 | publish, disconnect, connect: the live session has nothing in flight, the table has the message that a restart brings back |
| Restart.ClientConnects | src/main.rs:332-341 | registering a new session takes the step of a connecting client |
| Restart.ClientLeaves | src/main.rs:430 | the cleanup takes the step of a leaving client: rows go iff the session does not persist |
| Restart.ClientComesAndGoes | src/main.rs:332-430 | a connection from beginning to end, in the fields of the rows: without clean start and with an expiry its session row stays and nothing else changes; otherwise all three tables keep exactly the rows of the others |
| Restart.PublishIsRouted | src/session.rs:257-350 | `route_publish` takes a publish step |
| Restart.MessageIsAcknowledged | src/main.rs:505-516 | a PUBACK takes an acknowledgement step, a late one if its session is no longer registered |
| Restart.RestoreSessions | src/session.rs:131-152 | a session for each row, with that row's username, clean start flag and expiry, nothing in flight and ids from 1 |
| Restart.RestoreInFlight | src/session.rs:167-184 | each in-flight row added to its session, if there is one |
| Restart.BootRebuilds | src/session.rs:167-184 | in any row order, each session then has exactly the client's messages of the table |
| Restart.RestoreFromDb | src/session.rs:127-184 | the whole boot: sessions as their rows say, their messages, and the subscriptions replayed |

## Left out

- Trie nodes are a tree value in the router's `root` field, changed by path copying: nodes are owned and never shared in the source, so only allocation and in-place mutation of a node are not captured.
- Codec.EncodeProperties: one loop over each block's table of identifiers, where the source has seven functions that write their fields in line; order, identifiers and widths are the table's (`Properties`). `Codec.DecodeEntries` likewise stands for the seven decode loops.
- Locks: each operation of the router, the sessions map and the counters is one step; interleaving is modelled for the packet id allocator only.
- Database writes run as spawned tasks without an ordering guarantee (src/session.rs:235, 250, 321); the model applies them in call order and does not model failures of SQLite.
- Channels are append-only sequences: a closed channel or a failed send, and the writer that moves the channel to the socket, are not modelled.
- Connection set-up (src/main.rs:277-375), which must find CONNECT whole in the first read, authentication, session takeover and the cleanup after the loop; the read loop starts with whatever bytes are left behind CONNECT. Because the rest of the loop only hands packets on, a connection's packets are recorded and `Dispatch` processes one packet at a time.
- Keep-alive timeouts, and timestamps of in-flight messages and sessions.
- Dispatch.ProcessClientPacket: does not say what follows the error of a second CONNECT, which ends the connection.
- Delivery.PublishDeliversExactly: for publications whose frame to every matching row fits (`PublishFrames.DeliverableExactly`); beyond that the frame's length field is cut.
- LoadSharing.RoundRobinIsFair: until the counter wraps at 2^64, which is when the source's fairness ends; and while the trie is not changed.
- Restart.InFlightSurvivesRestart: says what is in flight, not that the restored session avoids those ids: its counter starts at 1 again, as in the source.
- Persistence.RestartIsFaithful: about runs without `delete_session`, which clears the table but not the router; `Restart` has it, for the sessions and in-flight tables.
- The Will branch of CONNECT is decoded as the source does, by skipping; a length that points outside the packet makes the source panic, which the model shows as the error `SliceOutOfRange`.
- Metrics counters, the bridge (including the copy of each publish that `route_publish` hands to it, and its own read loop), TLS, password hashing, the metrics page, configuration loading and graceful shutdown.
- Retained messages, QoS 2 handshakes, topic aliases and UNSUBSCRIBE packets, which the source does not support.
