# A verified model of a delay-tolerant networking stack

A Dafny model of the three parts of this stack that carry its promises, with proofs of those promises:

1. **The TCPCLv4 session** (RFC 9174). The wire codec, the 18-state session machine and the driver loop, first as one
   endpoint against any peer, then as two endpoints joined by two channels. Main results: end-to-end delivery, clean
   conversations, no panics, every log keeps a rulebook that knows messages only, the exact end of a session, exact
   segmentation, termination discipline, the layout of every message, stream round trip, independence of chunking.
2. **Bundles** (RFC 9171). Their CBOR form, fragmentation under a size limit, reassembly, and the hop limit. Main
   results: the layout of a bundle, the exact condition for its round trip and for all fragments to fit, the check accepts
   exactly the covers, reassembly inverts any tree of fragmentations, the exact reach of a hop limit.
3. **The agents of the daemon**. Bundle storage, the protocol agent and the routing agent. Main results: the payload
   bytes held are conserved, no bundle is lost or duplicated, what every event does to the queues and every request to
   the store, the way of a bundle through both agents, routes by their history, published routing tables are closed.

## How it is written

* Code that changes things in place is a class whose methods are proved to do what a function on values says
  (`StateMachine`, `TCPCLSession`, `Codec`, `OwnedBundle`, `BundleStore`, `ProtocolDaemon`, `RoutingDaemon`), or a method
  with loops (`FragmentBundle`, `ReassembleBundles`, `DeliverQueue`, `DeliverClientQueue`). The theorems speak about the functions.
* A panic of the original is an explicit outcome of the functions (`...Panics`, or `None` where a comment says so). A
  method demands that its function does not panic; when it does is a theorem.
* What the environment decides is an argument: the events of a `select!`, the outcome of the certificate check, the
  answers to a `try_send`, the order of iteration of a hash map. Theorems hold for all of them.
* Integers are unbounded, with the widths of the original written out. An overflow is a panic, as in a build with
  overflow checks; the hop count, where it matters, is modelled with and without.
* A session value carries a history (transfers started, passed up and reported; messages read and written) that the
  original does not keep, so that properties of whole runs can be stated.

Where a promise does not hold of the code as it is, the model keeps the code and states exactly when it holds:

* A checksum is written as an array and read as a byte string, so the bundle round trip holds if and only if there is
  none (`BundleRoundTripIff`, `ChecksumIsLost`).
* Later fragments copy the blocks without the replicate flag, but the minimum size counts those with it. The first
  fragment always fits; all fit if and only if `LaterFit` holds (`FragmentSizeBound`). `SlackSuffices` and
  `LaterFragmentTooLarge` give a simple sufficient condition and a bundle that fails. A limit of exactly the minimum
  panics (`MinimumPanics`).
* Some message decoders read beyond the bytes they checked for. `BodyPanicsIff` says from the bytes when: if and only if
  `Overreads`. Reading in chunks panics if and only if what has arrived with some chunk overruns, and else the chunks do
  not matter (`FeedDiesIff`, `ChunkingDoesNotMatter`; for conforming conversations `ConformingFeed`).
  `CutAcknowledgement` is a cut that panics, and `ShortExtensionList` a complete message that does.
* A transfer extension with a value does not survive its round trip (`XferSegmentRoundTripIff`).
* The storage agent takes a bundle out of the store before it fragments it, so a request that makes `fragment` panic
  loses it. `FragmentRequestSucceedsIff` says exactly when the handler goes through; `RequestThatPanics` is a store and a
  request where it does not.
* Without overflow checks the hop limit bounds a chain if and only if limit and count are at most 254
  (`BoundHoldsIffCountable`); with them, a longer chain then panics instead (`ChainPanicsIff`).
* A segment limit of 0 makes no progress (`ZeroLimitMakesNoProgress`).
* The recorded size of a stored bundle is not recomputed when its data is replaced (`SizeIsNotRecomputed`).

## Model

| member | source | states |
|---|---|---|
| `Messages.BodyRoundTrip` | tcpcl/src/v4/messages/mod.rs:153-190 | decoding the body of any sendable message, whatever follows it, gives that message and uses exactly its bytes |
| `Messages.ContactHeaderRoundTrip` | tcpcl/src/v4/messages/contact_header.rs:54-79 | the contact header decodes back to version and TLS flag, using exactly its bytes |
| `Messages.SessInitRoundTripIff` | tcpcl/src/v4/messages/sess_init.rs:87-155 | a session initialisation comes back, extensions included, if and only if its node id is UTF-8 and no extension is critical |
| `Messages.XferSegmentRoundTripIff` | tcpcl/src/v4/messages/xfer_segment.rs:105-187 | of all segments exactly those come back that are within the size limit and whose extensions are uncritical and empty, or absent without START |
| `Messages.XferAckRoundTrip` | tcpcl/src/v4/messages/xfer_ack.rs:38-60 | every acknowledgement comes back, flags, id and length |
| `Messages.XferRefuseRoundTrip` | tcpcl/src/v4/messages/xfer_refuse.rs:50-69 | every refusal comes back |
| `Messages.DecodeBodyStable` | tcpcl/src/v4/messages/mod.rs:126-150 | once a body decodes or fails, no bytes behind it change that |
| `Messages.IncompleteBody` | tcpcl/src/v4/messages/xfer_segment.rs:105-134 | with only a part of a body, the decoder asks for more, except for the lengths where it reads beyond what it checked for, and exactly there it panics |
| `WireFormat.EncodingLayout` | tcpcl/src/v4/messages/mod.rs:153-190 | the bytes of every message, field by field: its type number, then each field at its place, in its width and big-endian, flags by their bits, counted lists by their lengths, with no byte over |
| `WireFormat.FirstByteDecides` | tcpcl/src/v4/messages/mod.rs:73-82 | whatever else a buffer holds, the kind of the message that is read is the one with the number of its first byte, 1 to 7 |
| `WireFormat.ReadsByCode` | tcpcl/src/v4/messages/mod.rs:112-150 | any buffer that starts with the number of a message of fixed size is read as that message, each field from its place, with undefined reasons read as 0; a number outside 1 to 7 is refused |
| `WireFormat.ReadsSegment` | tcpcl/src/v4/messages/xfer_segment.rs:105-169 | any buffer that starts like a segment without START within the size limit is read as the segment with the flags, id and data at their places |
| `WireFormat.ReadsContactHeader` | tcpcl/src/v4/messages/contact_header.rs:54-71 | any six bytes are read as a contact header with the version and TLS bit at their places, if and only if they start with "dtn!" |
| `Overreads.WalkFollowsDecoder` | tcpcl/src/v4/messages/xfer_segment.rs:40-54 | a walk over the item lengths alone tells where the extension loop ends, fails or reads too far |
| `Overreads.BodyPanicsIff` | tcpcl/src/v4/messages/mod.rs:134-144 | for every message type and all bytes: the decoder panics if and only if `Overreads` holds of the bytes |
| `Overreads.CallPanicsIff` | tcpcl/src/v4/messages/mod.rs:112-150 | the same for a call of the codec in any state |
| `Overreads.ShortExtensionList` | tcpcl/src/v4/messages/sess_init.rs:119-130 | a complete message that panics |
| `Codec.ReadExtensions` | tcpcl/src/v4/messages/xfer_segment.rs:139-156 | the extension loop reads the list the function describes and stops where it says, or at its error |
| `Codec.ReadSessInit` | tcpcl/src/v4/messages/sess_init.rs:87-139 | the cursor-advancing decoder gives the answer of the function and consumes exactly the bytes it says |
| `Codec.ReadSegment` | tcpcl/src/v4/messages/xfer_segment.rs:105-169 | the same for segments |
| `Codec.ReadAck` | tcpcl/src/v4/messages/xfer_ack.rs:38-52 | the same for acknowledgements |
| `Codec.ReadShort` | tcpcl/src/v4/messages/msg_reject.rs:49-61 | the same for the messages of fixed size |
| `Codec.Codec.Decode` | tcpcl/src/v4/messages/mod.rs:107-151 | a call of the stateful codec answers, changes its two fields and consumes as the function says |
| `Codec.Codec.EncodeTo` | tcpcl/src/v4/messages/mod.rs:153-190 | encoding appends exactly the encoding of the message |
| `Stream.AnswerStable` | tcpcl/src/v4/messages/mod.rs:112-150 | an item or an error of a call does not depend on the bytes that follow |
| `Stream.NeedMoreResumes` | tcpcl/src/v4/messages/mod.rs:112-150 | "need more" consumes nothing but the remembered type byte, and decoding resumes as if all bytes had come together |
| `Stream.DrainThenMore` | tcpcl/src/v4/messages/mod.rs:107-151 | draining a prefix and then the rest is draining the whole |
| `Stream.DrainDiesIff` | tcpcl/src/v4/messages/mod.rs:107-151 | draining any bytes panics if and only if those behind the last complete message overread |
| `Stream.FeedDiesIff` | tcpcl/src/v4/messages/mod.rs:107-151 | reading any bytes in any chunks panics if and only if what has arrived with some chunk overruns |
| `Stream.ChunkingDoesNotMatter` | tcpcl/src/v4/messages/mod.rs:107-151 | any bytes in any chunks give the same messages, the same end and the same leftover as in one piece if no cut overruns, and, where the whole does not, only if |
| `Stream.CutAcknowledgement` | tcpcl/src/v4/messages/xfer_ack.rs:38-52 | every acknowledgement cut inside its length field panics, though in one piece it decodes |
| `Stream.DrainPrefix` | tcpcl/src/v4/messages/mod.rs:107-151 | any prefix of a conforming conversation decodes to the messages that are complete in it, or panics exactly at a bad cut |
| `Stream.StreamRoundTrip` | tcpcl/src/v4/messages/mod.rs:107-190 | the concatenated encodings of any conforming list of messages decode to exactly that list and leave no byte |
| `Stream.ConformingFeed` | tcpcl/src/v4/messages/mod.rs:107-190 | a conforming conversation in any chunks decodes to exactly its messages if and only if no chunk ends at a bad cut |
| `StateMachine.StateMachine.constructor` | tcpcl/src/v4/statemachine.rs:99-124 | the two initial machines |
| `StateMachine.StateMachine.CompleteSend` | tcpcl/src/v4/statemachine.rs:356-396 | the transition after a send, with no placeholder state left behind |
| `StateMachine.StateMachine.Send` | tcpcl/src/v4/statemachine.rs:126-198 | which message each state writes, and the machine after it |
| `StateMachine.StateMachine.Decode` | tcpcl/src/v4/statemachine.rs:200-322 | the verdict on each incoming message or error in each state, and the machine after it |
| `StateMachine.StateMachine.StartTransfer` | tcpcl/src/v4/statemachine.rs:398-422 | a transfer is refused as too large, or gets the next id and a tracker at position 0 |
| `StateMachine.StateMachine.QueueAck` | tcpcl/src/v4/statemachine.rs:424-433 | queueing an acknowledgement |
| `StateMachine.StateMachine.QueueKeepalive` | tcpcl/src/v4/statemachine.rs:435-438 | queueing a keepalive on top of any state |
| `StateMachine.StateMachine.Close` | tcpcl/src/v4/statemachine.rs:440-446 | closing an established session |
| `Session.TCPCLSession.AcceptSegment` | tcpcl/src/session.rs:459-513 | a segment is accumulated, a finished transfer passed up, and the acknowledgement queued |
| `Session.TCPCLSession.ReadMessage` | tcpcl/src/session.rs:427-575 | reading one message changes the session as the function says |
| `Session.TCPCLSession.PrepareIteration` | tcpcl/src/session.rs:314-373 | the head of the loop: TLS, announcement, keepalive, report to the requester, orderly end |
| `Session.TCPCLSession.Select` | tcpcl/src/session.rs:375-424 | each branch of the `select!` |
| `Session.TCPCLSession.FeedMessage` | tcpcl/src/v4/statemachine.rs:148-180 | a segment write cancelled between feed and flush has moved the position and nothing else |
| `Session.TCPCLSession.Drive` | tcpcl/src/session.rs:298-425 | the loop on any schedule of events reaches exactly the session of the run |
| `SessionSafety.CodecYieldsFromCodec` | tcpcl/src/v4/messages/mod.rs:107-151 | the codec produces only the results the driver is proved against, and its header flag moves like the session's |
| `SessionSafety.DecodePanicsIff` | tcpcl/src/v4/statemachine.rs:200-322 | in a readable state decoding panics exactly on an I/O error before the header and an acknowledgement of another transfer |
| `SessionSafety.SendKeepsFit` | tcpcl/src/v4/statemachine.rs:126-198 | a writable state sends and completes, and every state keeps the data it relies on |
| `SessionSafety.FeedKeepsFit` | tcpcl/src/v4/statemachine.rs:148-180 | position plus segment limit never overflows 64 bits when the driver sends |
| `SessionSafety.StepKeepsGood` | tcpcl/src/session.rs:298-425 | from every good session an enabled event panics exactly on a bad input, and else leads to a good session |
| `SessionSafety.RunStaysGood` | tcpcl/src/session.rs:298-425 | against any peer, every run stays good, and can panic only at a bad input |
| `SessionSafety.RunsPanicOnlyOnBadInput` | tcpcl/src/session.rs:298-425 | the same for every run of a new session |
| `SessionSafety.NewSessionIsGood` | tcpcl/src/session.rs:158-196 | new sessions are good |
| `SessionTermination.TerminationDiscipline` | tcpcl/src/v4/statemachine.rs:378-391 | over every run of a new session at most one SESS_TERM is sent, with REPLY exactly if one was received before; no segment follows it and the session is never established again |
| `SessionTermination.StepKeepsTerminates` | tcpcl/src/v4/statemachine.rs:241-251 | every step keeps that discipline |
| `RuledSessions.SessionsKeepTheRules` | tcpcl/src/v4/statemachine.rs:126-322 | over every run of a new session against any peer, what is read and written keeps the rules of `Rulebook`, which know messages only: each message read is answered as they say and nothing is read before that, nothing else is written but what they allow, transfers are passed up from exactly their segments, and a log that is over ends the session |
| `RuledSessions.ReadRuled` | tcpcl/src/session.rs:427-575 | reading a message or a decoding error keeps the rules |
| `RuledSessions.SendRuled` | tcpcl/src/v4/statemachine.rs:126-198 | what a state writes is what the log owes, or what may be said of one's own accord |
| `Rulebook.OwedIsWritten` | tcpcl/src/v4/statemachine.rs:324-354 | in a log that keeps the rules an owed message comes next, but for keepalives |
| `Answers.SessTermIsAnswered` | tcpcl/src/v4/statemachine.rs:241-251 | over every run: a SESS_TERM read after both introductions and before one was sent is answered with REPLY and its own reason, with only keepalives in between; until then the session can write and does not read |
| `Answers.SegmentIsAcknowledged` | tcpcl/src/session.rs:459-513 | over every run: a segment of the transfer arriving, or of a new one, is acknowledged with its flags, its id and the length so far |
| `Answers.OutOfPlaceIsRejected` | tcpcl/src/v4/statemachine.rs:232-322 | over every run: a refusal, a second introduction, and anything about transfers or termination outside an open session is rejected as unexpected, by its type number |
| `SessionEvents.SessionEndsExactly` | tcpcl/src/session.rs:514-575 | over every run: a session ends if and only if the connection is lost, the log is over, what was read makes no sense, the certificate does not fit, or more was acknowledged than written |
| `SessionEvents.RequestsRespectThePeer` | tcpcl/src/v4/statemachine.rs:398-422 | over every run: a transfer is started if and only if it is within the limit the peer announced |
| `SessionEvents.KeepalivesAsAgreed` | tcpcl/src/v4/statemachine.rs:471-483 | over every run: the timer ticks if and only if the peer asked for keepalives, with the smaller of both intervals |
| `SessionEvents.TicksSendKeepalives` | tcpcl/src/session.rs:412-419 | a tick sends one keepalive and leaves the session where it was |
| `SessionEvents.ClosesWhenIdle` | tcpcl/src/session.rs:412-419 | an established session whose peer is silent sends a keepalive and ends with reason 1 |
| `SessionEvents.ClosesOnRequest` | tcpcl/src/session.rs:420-422 | an established session that is told to close says so with reason 5 |
| `SessionEvents.UnknownTypeIsRejected` | tcpcl/src/v4/statemachine.rs:218-231 | an unknown message type is rejected by its number, and ends the session |
| `SessionOpening.ActiveOpens` | tcpcl/src/session.rs:298-425 | whatever the peer announces, the active end comes to an established session by exactly these four messages |
| `SessionOpening.PassiveOpens` | tcpcl/src/session.rs:298-425 | so does the passive end |
| `SessionSegmentation.SegmentationIsExact` | tcpcl/src/v4/statemachine.rs:148-180 | for any data and limit, the segments concatenate to the data, are non-empty and within the limit, carry START only on the first and END only on the last, and are ceil(n/m) in number |
| `SessionSegmentation.RunsSegmentExactly` | tcpcl/src/v4/statemachine.rs:148-180 | over every run of a new session against any peer with a limit of at least 1, the segments written are a prefix of the exact segmentation of all transfers, and all of it once the session is established again |
| `SessionSegmentation.ZeroLimitMakesNoProgress` | tcpcl/src/v4/statemachine.rs:148-180 | with the limit 0 a send writes an empty segment and changes nothing |
| `SessionTransfers.TransferIsSent` | tcpcl/src/session.rs:398-411 | from an idle session, a request within the limits is written in its exact segments, reported once all is acknowledged, and leaves the session idle |
| `SessionTransfers.TransferIsReceived` | tcpcl/src/session.rs:459-513 | the segments of a transfer are acknowledged one by one, and the whole is passed up with the last |
| `SessionTransfers.TransferCrosses` | tcpcl/src/session.rs:298-425 | what one idle session writes another idle one passes up, byte for byte, and its last acknowledgement lets the first report it |
| `TransferLink.SegmentKeepsInv` | tcpcl/src/v4/statemachine.rs:148-180 | sending a segment keeps the one-direction invariant: receiver plus flight equals what was sent, outstanding acknowledgements increase and lie within it |
| `TransferLink.ReceiveKeepsInv` | tcpcl/src/session.rs:459-513 | so does receiving one |
| `TransferLink.AckKeepsInv` | tcpcl/src/v4/statemachine.rs:256-287 | an acknowledgement that arrives names the transfer being sent, covers more than the last and no more than was sent, and finishes the transfer only when all of it has been delivered |
| `TransferLink.StartKeepsInv` | tcpcl/src/v4/statemachine.rs:398-422 | a new transfer can start when nothing is under way |
| `TransferLink.SenderStopKeepsInv` | tcpcl/src/v4/statemachine.rs:440-446 | a sender may stop in the middle: what was delivered stays a prefix |
| `Delivery.AckIsExpected` | tcpcl/src/v4/statemachine.rs:256-287 | between two endpoints an acknowledgement never trips the id assertion |
| `Delivery.MoveKeepsSystem` | tcpcl/src/session.rs:298-425 | no move of two joined endpoints panics, and every move keeps them joined |
| `Delivery.EndToEndDelivery` | tcpcl/src/session.rs:362-367 | in every run of two endpoints, a transfer reported as sent has been passed up by the other side exactly once, under its id, with exactly its bytes |
| `Exchange.MoveKeepsFifo` | tcpcl/src/session.rs:380-397 | what a side has sent is what the other has received and then what is in flight |
| `Exchange.WireCarriesMessages` | tcpcl/src/v4/messages/mod.rs:107-190 | in every run the bytes a side has written decode to exactly the messages received and in flight, so the channels of messages stand for byte streams |
| `CleanRuns.ReadPhase` | tcpcl/src/v4/statemachine.rs:200-322 | the message expected at a point of the conversation is accepted and leads to the next point |
| `CleanRuns.SendPhase` | tcpcl/src/v4/statemachine.rs:126-198 | a session sends what is expected at its point of the conversation |
| `CleanRuns.ConformingRunsStayClean` | tcpcl/src/v4/statemachine.rs:200-322 | until a side starts to terminate: no MSG_REJECT, every readable message is accepted, acknowledgements match and advance, no segment exceeds the limit |
| `Cbor.HeadRoundTrip` | bp7/src/bundle.rs:144-150 | a head of any kind and argument reads back, and its size is `HeadSize` |
| `Cbor.BytesRoundTrip` | bp7/src/block/payload_block.rs:37-44 | byte strings read back |
| `Bundle.BundleFlagsRoundTrip` | bp7/src/bundleflags.rs:50-81 | every combination of known flags survives |
| `Bundle.BlockFlagsRoundTrip` | bp7/src/blockflags.rs:40-71 | the same for block flags |
| `BundleRoundTrip.EndpointRoundTrip` | bp7/src/endpoint.rs:187-240 | every DTN endpoint comes back, the null endpoint included |
| `BundleRoundTrip.CrcReads` | bp7/src/crc.rs:78-115 | reading back a checksum succeeds if and only if there is none |
| `BundleRoundTrip.PrimaryReads` | bp7/src/primaryblock.rs:38-160 | a primary block of 8 to 11 fields comes back, but for a total length without an offset, or is refused if it has a checksum |
| `BundleRoundTrip.ContentReads` | bp7/src/block/mod.rs:175-198 | block content comes back, nested CBOR included; an unknown block with a known type does not |
| `BundleRoundTrip.BlockReads` | bp7/src/block/mod.rs:88-216 | a canonical block comes back exactly if it has no checksum and its type fits its kind |
| `BundleRoundTrip.BlocksRead` | bp7/src/bundle.rs:83-106 | a list of blocks up to the break comes back exactly if each of them does |
| `BundleRoundTrip.BundleRoundTripIff` | bp7/src/bundle.rs:54-112 | decoding the encoding of a bundle gives it back if and only if it is well-formed |
| `BundleRoundTrip.ChecksumIsLost` | bp7/src/block/mod.rs:123-129 | no bundle with a checksum anywhere survives its round trip |
| `BundleLayout.HeadForm` | bp7/src/bundle.rs:144-150 | the bytes of a head: major type in the top bits, then the argument in 0, 1, 2, 4 or 8 bytes, the fewest that hold it |
| `BundleLayout.BundleFlagsAre` | bp7/src/bundleflags.rs:23-48 | the number of a set of bundle flags is the sum of their weights |
| `BundleLayout.PrimaryIsItem` | bp7/src/primaryblock.rs:38-74 | a reader of CBOR that knows nothing of bundles finds the fields of the primary block in their order, offset and total length only in fragments, the checksum last |
| `BundleLayout.BlockIsItem` | bp7/src/block/mod.rs:88-132 | it finds type number, block number, flags, checksum type and content of a block, and reads the content as the one item its kind prescribes |
| `BundleLayout.BundleIsItem` | bp7/src/bundle.rs:54-66 | it finds the primary block and then the blocks in an array that ends with the encoding |
| `SampleBundle.SampleRoundTrip` | bp7/tests/serialization_test.rs:33-85 | the 103 bytes of a bundle with a hop count and a payload are what it is written as and read from |
| `Fragmentation.MeasureBlocks` | bp7/src/bundle.rs:250-267 | the loop over the blocks computes the two minimum sizes |
| `Fragmentation.CutPayload` | bp7/src/bundle.rs:322-368 | the cutting loop builds exactly the fragments of the function |
| `Fragmentation.FragmentBundle` | bp7/src/bundle.rs:225-375 | `fragment` as a whole, refusals included |
| `FragmentSize.PieceSize` | bp7/src/bundle.rs:322-365 | the encoded size of any fragment, in closed form |
| `FragmentSize.FirstFits` | bp7/src/bundle.rs:43-46 | the 128 reserved bytes always suffice for the first fragment |
| `FragmentSize.FirstTakesPart` | bp7/src/bundle.rs:229-232 | a bundle over the limit has more payload than its first fragment takes |
| `FragmentSize.LaterCut` | bp7/src/bundle.rs:335-364 | the cut goes through exactly if the last full and the last fragment fit |
| `FragmentSize.CutTiles` | bp7/src/bundle.rs:322-368 | the fragments are consecutive, non-empty slices that end with the payload |
| `FragmentSize.FragmentSizeBound` | bp7/src/bundle.rs:250-272 | for a bundle over the limit and a limit over the minimum: the first fragment fits, all fit if and only if `LaterFit`, there are at least two, none is empty and none over the limit |
| `FragmentSize.MinimumPanics` | bp7/src/bundle.rs:346-349 | a limit of exactly the minimum is not refused but panics |
| `FragmentSize.SlackSuffices` | bp7/src/bundle.rs:299-309 | 78 bytes of slack: copies that exceed the counted blocks by no more always fit |
| `FragmentSize.IntendedSelectionFits` | bp7/src/bundle.rs:261-266 | with the blocks chosen by the replicate flag every later fragment would fit |
| `FragmentSize.LaterFragmentTooLarge` | bp7/src/bundle.rs:299-309 | a bundle whose later fragments come out too large |
| `FragmentSize.RefusalNamesLeastSize` | bp7/src/bundle.rs:268-272 | the size in a refusal is more than was asked for, below it no fragmentation succeeds, and from it on none is refused for its size |
| `FragmentSize.RefusedIff` | bp7/src/bundle.rs:250-272 | a bundle over the limit that may be fragmented is refused if and only if the limit is below its size without payload and 128 bytes, which is the size the refusal names |
| `FragmentSize.MinimumSizes` | bp7/src/bundle.rs:250-267 | the two minimum sizes are the sizes of the bundle without payload and with only the blocks that have the replicate flag, and 128 bytes |
| `Reassembly.SortSorts` | bp7/src/bundle.rs:402-407 | the sort orders by offset |
| `Reassembly.SortIsStable` | bp7/src/bundle.rs:402-407 | and keeps the order of equal offsets |
| `Reassembly.Reach` | bp7/src/bundle.rs:411-432 | the fold as a loop |
| `Reassembly.CanReassembleBundles` | bp7/src/bundle.rs:377-433 | the check answers, and leaves the list, as the function says |
| `Reassembly.BuildData` | bp7/src/bundle.rs:450-462 | the builder as a loop |
| `Reassembly.ReassembleBundles` | bp7/src/bundle.rs:435-470 | reassembly as a whole |
| `Reassembly.CheckIffCovers` | bp7/src/bundle.rs:377-433 | for consistent fragments the check never panics and accepts if and only if they cover the payload |
| `Reassembly.BuilderFollowsFold` | bp7/src/bundle.rs:450-462 | at every fragment of an accepted list the fold's accumulator is the length built so far, and no index is out of range |
| `Reassembly.AcceptedListsBuild` | bp7/src/bundle.rs:435-462 | for every list the check accepts, whatever is in it, the builder goes through and builds exactly the total length |
| `RejoinFragments.DescendantIsPiece` | bp7/src/bundle.rs:274-358 | everything that comes out of any tree of fragmentations is a slice of the original under its primary block |
| `RejoinFragments.BuilderBuildsPrefixes` | bp7/src/bundle.rs:450-462 | whatever the order and overlaps, the builder only ever holds a prefix of the payload |
| `RejoinFragments.PiecesRejoin` | bp7/src/bundle.rs:435-470 | pieces that cover rejoin to the original with its payload last, and others are handed back |
| `RejoinFragments.ReassemblyInvertsFragmentation` | bp7/src/bundle.rs:225-470 | the same for any pieces of any tree of fragmentations; the result decodes to the original primary block, its other blocks in order, and its payload block |
| `Forwarding.OwnedBundle.SetNode` | bp7/src/bundle.rs:187-203 | the first previous-node block is replaced, or one is added with the next number |
| `Forwarding.OwnedBundle.CountHop` | bp7/src/bundle.rs:205-223 | the first hop count is increased and compared, or one is added |
| `Forwarding.PreviousNodeIsThisNode` | bp7/src/bundle.rs:187-203 | after a hop of a foreign bundle the first previous node block names this node; other blocks but hop counts stay |
| `Forwarding.OwnedBundle.HighestNumber` | bp7/src/bundle.rs:162-169 | the largest block number in use |
| `Forwarding.OwnedBundle.Pass` | dtrd/src/bundleprotocolagent/agent.rs:615-625 | what `forward_bundle` does between decoding and encoding |
| `StoredForwarding.ForwardBundle` | dtrd/src/bundleprotocolagent/agent.rs:609-627 | `forward_bundle` from bytes to bytes |
| `StoredForwarding.ForwardedIsRenewed` | dtrd/src/bundleprotocolagent/agent.rs:609-627 | forwarding a sound stored bundle gives data of the same bundle with the same payload |
| `StoredForwarding.ForwardedNamesThisNode` | dtrd/src/bundleprotocolagent/agent.rs:615-626 | the new bytes decode to the bundle with this node as the previous one if its source is elsewhere; all blocks but that and hop counts stay |
| `StoredForwarding.ForwardingIsProper` | dtrd/src/bundleprotocolagent/agent.rs:115-128 | so the update that queues it for forwarding is one the conservation of coverage covers |
| `Forwarding.HopTakesOne` | bp7/src/bundle.rs:205-223 | counting a hop takes one from the hops left, or refuses when there is none; all else stays |
| `Forwarding.HopLimitBoundsChains` | dtrd/src/bundleprotocolagent/agent.rs:609-627 | over every chain of nodes exactly the hops left are accepted (17 without a hop count, limit minus count with one) and the next drops the bundle; payload and other blocks stay and block numbers stay distinct |
| `Forwarding.LargestLimitIsNone` | bp7/src/bundle.rs:208-209 | without overflow checks a limit of 255 never refuses |
| `Forwarding.BoundHoldsIffCountable` | bp7/src/bundle.rs:208-209 | without overflow checks the bound holds for every chain if and only if limit and count are at most 254 |
| `Forwarding.ChainPanicsIff` | bp7/src/bundle.rs:208-209 | with overflow checks a chain panics if and only if limit or count is 255 and it is longer than the hops left |
| `Storage.BundleStore.Find` | dtrd/src/bundlestorageagent/agent.rs:206-211 | the first stored bundle with the primary block |
| `Storage.BundleStore.StoreBundle` | dtrd/src/bundlestorageagent/agent.rs:365-391 | storing a bundle and notifying the protocol agent |
| `Storage.BundleStore.FragmentBundle` | dtrd/src/bundlestorageagent/agent.rs:198-260 | a bundle is replaced by its fragments, or put back with the minimum size found |
| `Storage.BundleStore.TakeMatching` | dtrd/src/bundlestorageagent/agent.rs:432-444 | the index loop takes out exactly the matching bundles, both lists in order |
| `Storage.BundleStore.TryDefragment` | dtrd/src/bundlestorageagent/agent.rs:429-459 | the matching fragments are replaced by the bundle, or put back |
| `Storage.BundleStore.UpdateBundle` | dtrd/src/bundlestorageagent/agent.rs:262-312 | the new state of the store for each new state of a bundle |
| `StoreEffects.UpdateMovesOn` | dtrd/src/bundlestorageagent/agent.rs:271-295 | a bundle that goes on is last, in exactly the new state and with the new data if there is any, all others stay in order, and the protocol agent is told of it and of nothing else |
| `StoreEffects.UpdateRemoves` | dtrd/src/bundlestorageagent/agent.rs:304-307 | a bundle that is done is gone, all others stay in order, and nobody is told |
| `StoreEffects.UnknownIsIgnored` | dtrd/src/bundlestorageagent/agent.rs:206-211 | a request about a bundle that is not stored changes nothing |
| `StoreEffects.FragmentingReplaces` | dtrd/src/bundlestorageagent/agent.rs:213-238 | a bundle is replaced by its fragments in order, valid, the first with its own minimum size, and the protocol agent is told of each |
| `StoreEffects.RefusalRecordsMinimum` | dtrd/src/bundlestorageagent/agent.rs:244-250 | a bundle that cannot become small enough stays, with that size |
| `StoreEffects.DefragmentingReplaces` | dtrd/src/bundlestorageagent/agent.rs:296-303 | pieces that complete a bundle are replaced by it, valid and announced; otherwise all stay and nobody is told |
| `Lifecycle.ReceivedBecomesValid` | dtrd/src/bundleprotocolagent/agent.rs:91-105 | a received bundle becomes valid |
| `Lifecycle.LocalBundleWaits` | dtrd/src/bundleprotocolagent/agent.rs:106-136 | a valid whole bundle for this node is queued for delivery in the storage, and then waits in the protocol agent under its destination, unchanged |
| `Lifecycle.ForeignBundleWaits` | dtrd/src/bundleprotocolagent/agent.rs:106-143 | a valid bundle for another node has its forwarded bytes in the storage, and then waits under the node of its destination, whatever the channels answer |
| `Lifecycle.ExhaustedBundleIsDropped` | dtrd/src/bundleprotocolagent/agent.rs:114-129 | one without hops left is dropped, and nothing else changes |
| `Lifecycle.LocalFragmentIsJoined` | dtrd/src/bundleprotocolagent/agent.rs:106-129 | a valid fragment for this node goes to defragmentation |
| `StoreCoverage.FragmentRequestSucceedsIff` | dtrd/src/bundlestorageagent/agent.rs:198-260 | on a store of sound bundles the handler goes through if and only if the bundle is over the target, may be fragmented, and the target is below the minimum, or above it with room for the later fragments |
| `StoreCoverage.RequestThatPanics` | dtrd/src/bundlestorageagent/agent.rs:206-213 | a consistent store and a request on which it panics, the bundle already taken out |
| `StoreCoverage.FragmentRequestKeepsCoverage` | dtrd/src/bundlestorageagent/agent.rs:198-260 | a fragment request that fits goes through and keeps the payload bytes held for each bundle, also when it is refused as too small |
| `StoreCoverage.DefragmentKeepsCoverage` | dtrd/src/bundlestorageagent/agent.rs:429-459 | on a consistent store a defragmentation attempt never panics and keeps the bytes held, whether it succeeds or not |
| `StoreCoverage.RejoinedBytes` | bp7/src/bundle.rs:435-470 | for consistent fragments that cover, every byte of the result is held at its place by a fragment |
| `StoreCoverage.CoverageIsConserved` | dtrd/src/bundlestorageagent/agent.rs:198-312 | every run of fitting fragment requests, defragmentation attempts and requeueing goes through, and exactly the same payload bytes are held for each bundle |
| `StoreCoverage.SizeIsNotRecomputed` | dtrd/src/bundlestorageagent/agent.rs:285-295 | after new data the recorded size is right exactly if the length is the same |
| `ProtocolAgent.NodeOfNode` | bp7/src/endpoint.rs:171-184 | the node part of a node endpoint is itself |
| `ProtocolAgent.NodeOfService` | bp7/src/endpoint.rs:171-184 | the node of "//name/path" is "//name" |
| `ProtocolAgent.RotationIsProgress` | dtrd/src/bundleprotocolagent/agent.rs:386-411 | putting an unfragmentable bundle to the back and marking it leaves fewer unvisited entries, so the loop ends |
| `ProtocolAgent.DeliverQueue` | dtrd/src/bundleprotocolagent/agent.rs:385-459 | the loop moves the queue as the function says, for any answers |
| `ProtocolAgent.DeliverClientQueue` | dtrd/src/bundleprotocolagent/agent.rs:318-355 | the loop for a client, which panics on a fragment |
| `ProtocolAgent.ForwardingPartitions` | dtrd/src/bundleprotocolagent/agent.rs:385-459 | with distinct ids and accepted sends the queue is partitioned in order: fitting sent, oversized fragmentable requested, the rest kept |
| `ProtocolAgent.ProtocolDaemon.DeliverLocalBundles` | dtrd/src/bundleprotocolagent/agent.rs:313-356 | delivery to a client |
| `ProtocolAgent.ProtocolDaemon.DeliverRemoteBundles` | dtrd/src/bundleprotocolagent/agent.rs:358-460 | forwarding over the table, with the smaller size limit of route and next hop |
| `ProtocolAgent.ProtocolDaemon.Handle` | dtrd/src/bundleprotocolagent/agent.rs:130-310 | all event handlers, with their assertions as panics |
| `AgentEffects.LoopTakesAll` | dtrd/src/bundleprotocolagent/agent.rs:385-459 | the same partition for any answers that take what is sent |
| `AgentEffects.DeliverySends` | dtrd/src/bundleprotocolagent/agent.rs:358-437 | what is within the limits of route and next hop goes out in order, what is not but may be cut is requested with the limit that binds, the rest stays, and other queues do not change |
| `AgentEffects.DeliveryBounces` | dtrd/src/bundleprotocolagent/agent.rs:429-457 | a send that is not taken puts its bundle last and what was not looked at first; a closed channel costs the connection kept under the destination |
| `AgentEffects.ForwardingIsQueued` | dtrd/src/bundleprotocolagent/agent.rs:137-143 | a bundle to be forwarded joins the end of the queue of its node, which is then served |
| `AgentEffects.PeerIsServed` | dtrd/src/bundleprotocolagent/agent.rs:218-232 | a node that connects is served |
| `AgentEffects.ForwardedIsFinished` | dtrd/src/bundleprotocolagent/agent.rs:244-263 | a forwarded bundle is no longer pending and reported, and the queue goes on |
| `AgentEffects.FailureRequeues` | dtrd/src/bundleprotocolagent/agent.rs:265-287 | a failed delivery is no longer pending and first in its queue, for nodes and clients |
| `AgentEffects.NewRoutesServe` | dtrd/src/bundleprotocolagent/agent.rs:289-310 | after a new table every named node to which there is a way is served, each with its own limits, and no other queue changes |
| `AgentEffects.DeliveryIsQueued` | dtrd/src/bundleprotocolagent/agent.rs:130-136 | a bundle for a client joins the end of its queue, and a client that is there has been handed all of it; only a fragment panics |
| `AgentEffects.ClientIsServed` | dtrd/src/bundleprotocolagent/agent.rs:194-207 | a client that connects is handed its queue |
| `AgentEffects.DeliveredIsFinished` | dtrd/src/bundleprotocolagent/agent.rs:155-173 | a delivered bundle is no longer pending and reported, and the queue goes on |
| `AgentEffects.HandoverBounces` | dtrd/src/bundleprotocolagent/agent.rs:329-353 | a client that does not take a bundle: it goes to the back, and a closed channel costs the connection |
| `AgentEffects.DisconnectedIsNoWay` | dtrd/src/bundleprotocolagent/agent.rs:209-242 | a node that disconnects is no next hop any more, and that is all |
| `AgentConservation.LoopConserves` | dtrd/src/bundleprotocolagent/agent.rs:385-459 | whatever the answers, the loop only moves bundles |
| `AgentConservation.RetainOne` | dtrd/src/bundleprotocolagent/agent.rs:250-252 | among distinct primary blocks `retain` removes exactly the one bundle |
| `AgentConservation.ClientQueuesAreWhole` | dtrd/src/bundleprotocolagent/agent.rs:324-327 | no queue of a client ever holds a fragment, so the assertion holds |
| `AgentConservation.EventKeepsInv` | dtrd/src/bundleprotocolagent/agent.rs:130-310 | no admissible event panics, and each keeps every reference accounted for |
| `AgentConservation.NothingLostOrDuplicated` | dtrd/src/bundleprotocolagent/agent.rs:130-460 | no admissible run panics, and over each of them every reference is in exactly as many of queue, pending, fragment requests and finished as it was handed in |
| `Routing.RoutingDaemon.PreferredRoutes` | dtrd/src/routingagent/agent.rs:152-192 | the table holds for each target a first route by type, exactly if it is available |
| `Routing.RoutingDaemon.Handle` | dtrd/src/routingagent/agent.rs:65-150 | additions and removals change the routes, and publish a table exactly when something changed |
| `Routing.ConnectedEntry` | dtrd/src/nodeagent/agent.rs:124-129 | a connected node is in every table and leads to itself |
| `Routing.RoutingTableClosure` | dtrd/src/routingagent/agent.rs:122-192 | over every run with direct connected routes, each table is closed under next hops, so the branch for a hop that is not directly connected is never taken |
| `Routing.RoutesByHistory` | dtrd/src/routingagent/agent.rs:65-113 | over every run of additions and removals a route is known if and only if an addition of it still counts, with the limit of that addition |
| `Routing.TableServes` | dtrd/src/routingagent/agent.rs:152-192 | an entry of a table is a route to its target with its limit over an attached hop, connected if there is a connected one; a target is missing only if a route to it leads over a hop that is not attached |

## Left out

- TLS upgrade, certificate checks and sockets: calls into other libraries. The outcome of the certificate check is an
  argument of a read event.
- Cancellation of a write other than of a segment: writes are single steps. The `select!` could also drop another
  message between feed and flush, and then write it twice.
- The channel to the consumer of received transfers is taken to be open; a closed channel of transfer requests is the same
  as one without requests.
- Session.Enabled: a transfer request has less than 2^63 bytes of data, as any buffer in memory has.
- TwoSessions.CanMove: a side starts fewer than 2^64 - 1 transfers.
- XFER_REFUSE: it is decoded and answered as unexpected, as in the source; no side sends it.
- IPN endpoints: `ReadEndpoint` answers `Unmodelled` for them.
- CBOR beyond what bundles use: tags, maps, floats and chunked strings are refused, as the field types refuse them;
  the allocation for a declared array length is not modelled.
- Checksum values: they are stored and written, but not computed, as in the source.
- SessionTransfers.TransferIsSent: for a peer with a segment limit of at least 1 and data that is not empty; with the limit 0
  a send makes no progress, and of an empty transfer nothing is written.
- AgentEffects.DeliverySends: for queues in which no two bundles share an id, as the loop tells bundles apart by it.
- Lifecycle.LocalBundleWaits: the store is taken to hold no second bundle with the same primary block; the agent panics
  only on a fragment in the queue of that client (`AgentEffects.DeliveryIsQueued`).
- Administrative records, status reports and time conversion: easy members that the main results do not need.
- Bundle files, startup loading and `StoreNewBundle`: input and output, and a counter.
- Fragmentation.Fragment: an offset beyond 64 bits is a panic; a build without overflow checks wraps.
- StoreCoverage.CoverageIsConserved: for stores whose bundles have no checksum (with one, storing a fragment panics), and
  for fragment requests on which the handler does not panic, which is exactly `RequestFits`.
- ProtocolAgent.NodeOf: a URI shorter than two bytes, on which the source panics, has an empty node name.
- AgentConservation.NothingLostOrDuplicated: a result event is taken to belong to a bundle that is pending for that
  destination, a bundle handed in not to be queued or pending already nor, for a client, to be a fragment, and a peer to be
  a node.
- Actors, mailboxes and futures: a handler is one step.
- The gRPC interface, the command line and client crates, settings, and the replicated store.
