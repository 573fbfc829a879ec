# A model of the Cardano networking stack

This project models how the crate turns the bytes of one connection into what its callers get, and proves the
layers and their composition correct. From the bottom up:

| layer | modules |
|---|---|
| octets, the CBOR subset in use, a stream of messages | `Bytes`, `Cbor`, `MessageStream` |
| the driver every mini-protocol shares: reassembly and the send/receive loop | `Driver` |
| the field cursor, points, tips, block headers | `Values`, `Headers` |
| Block-Fetch: messages and client; safety over every run; delivery of a range while it arrives | `BlockFetch`, `BlockFetchRuns`, `BlockFetchCalls`, `BlockFetchDelivery` |
| Chain-Sync: messages and client; every call gets its own answer | `ChainSync`, `ChainSyncClient`, `ChainSyncRuns` |
| Handshake: versions and their sorted map, messages, the client-server product | `Versions`, `Handshake`, `HandshakePair` |
| the multiplexer: frames, one connection, any number of concurrent senders | `Mux`, `MuxSystem` |
| the octets of values, frames, headers and messages, written out | `WireFormat` |
| what ties the layers together: message sizes, any client on its connection, the whole stack | `FrameSizes`, `ConnectedClient`, `EndToEnd` |

The strongest statement is `EndToEnd.BlocksArrive`: whatever the server's concurrent senders, the byte transport and
the scheduler do, and whenever the caller of `run` calls `next`, it gets exactly the blocks the server sent, in order,
and then the end of the stream; `EndToEnd.AllBlocksArrive` adds that it gets all of them once everything has arrived.

How the source's notions appear here:

- A mini-protocol is a record of functions (`Driver.Protocol`): role, agency, send, recv and the two message
  conversions. Its session is a value; the driver loops are methods of the class `MiniProtocol` that replace it in
  place, each proved equal to a function of the old state, about which the lemmas are stated. The calls of the three
  clients are methods of the classes `Fetcher`, `Follower` and `Negotiator` in the same way.
- An error that the driver unwraps, a failed assertion and a panic are one outcome, `None` or `Crashed`, from which
  nothing goes on.
- An await on an empty queue suspends the loop (`Suspended`). A suspended loop goes on from where it stopped once
  more frames have arrived; `Driver.ArrivalsCommute` says that the moment of arrival makes no difference.
- The peers of Block-Fetch and Chain-Sync are arbitrary servers that keep to the state machines of "The Shelley
  Networking Protocol" (named in the repository's README, line 42); they may encode and cut their messages as they
  like. The peer of a handshake is the crate's own server.
- A channel's frames are lists of octets, cut anywhere and possibly empty; integers are unbounded, and every cast
  and 16-bit field of the source is written out.
- The hash of block headers is a parameter `H`; time stamps are arbitrary 32-bit numbers.

Properties that turned out false of the code are stated as such, with their exact condition:

- `Mux.FrameExact`: a frame is read back exactly if its payload has at most 65535 octets; `FrameSizes.FindIntersectArrives`
  shows a message of the library that has more.
- `BlockFetch.CodecExact`, `ChainSync.CodecExact`: accepted fields re-encode to themselves exactly if no cast
  truncated anything (and, for Chain-Sync, no ignored field was there); `BlockFetch.DecodingTruncates` and
  `ChainSync.DecodingForgets` show examples.
- `Versions.ProposalRoundTrip`: a proposal comes back unchanged exactly if it was strictly sorted;
  `Versions.UnsortedProposal` is one that does not.
- `Handshake.AcceptanceRoundTrip`: a refusal never comes back.
- `BlockFetchCalls.FinishCloses`: `done` ends the protocol exactly if it is called in Idle;
  `BlockFetchDelivery.DoneMidwayNeverCloses` shows a client on which it does not.

## Model

| member | source | states |
|---|---|---|
| Cbor.DecodeStable | src/protocols.rs:84-104 | A decided outcome of the decoder, value or error, never changes when octets are appended, for nested values of any depth. |
| Cbor.RoundTrip | src/protocols.rs:150-153 | Decoding an encoded value followed by anything gives the value and takes exactly its octets. |
| Cbor.ProperPrefixIncomplete | src/protocols.rs:98-101 | No proper prefix of an encoded value decodes, not even to an error: it is always the end-of-file case. |
| Cbor.EncodeInjective | src/protocols.rs:150-153 | The encoding is a prefix code: equal octets mean equal values and equal rests. |
| Cbor.EncodeShortest | src/protocols.rs:150-153 | Of all encodings of a value that the decoder accepts the encoder writes the shortest, heads included; and whatever is decoded can be written again. |
| WireFormat.HeadOctets | src/protocols.rs:150-153 | The head of every item octet by octet: major type, then the argument in the fewest octets that hold it, high octet first. |
| WireFormat.Integers | src/protocols.rs:150-153 | The octets of integers at the values of RFC 8949, Appendix A, and at the limits of the short widths. |
| WireFormat.WideIntegers | src/protocols.rs:150-153 | The same for the wide ones. |
| WireFormat.Others | src/protocols.rs:150-153 | The octets of booleans, null, strings and empty containers. |
| WireFormat.Containers | src/protocols.rs:150-153 | The octets of a list and of a map. |
| WireFormat.LongerHeads | src/protocols.rs:84-97 | Longer heads than the shortest are read, and undefined is read as null. |
| WireFormat.Unfinished | src/protocols.rs:98-102 | Heads without a meaning are errors at once; octets that stop early are the end-of-file case. |
| WireFormat.NoMessages | src/protocols.rs:84-102 | An item that is not a list is not a message. |
| MessageStream.MessageStable | src/protocols.rs:84-104 | The same stability for whole messages, arrays at the top level. |
| MessageStream.MessageRoundTrip | src/protocols.rs:150-153 | An encoded message is read back from the front of any stream. |
| MessageStream.ScanAppend | src/protocols.rs:84-107 | Cutting a stream anywhere changes neither the messages found nor the octets taken. |
| MessageStream.LeftoverSettled | src/protocols.rs:98-101 | What is kept for the next frame never contains a complete message. |
| MessageStream.ScanPrefix | src/protocols.rs:84-107 | Every prefix of an encoded stream is sound and gives a prefix of its messages; the rest gives the others. |
| Driver.FeedAppend | src/protocols.rs:79-107 | Feeding a and then b delivers the same messages, keeps the same rest or panics exactly as feeding a and b at once, for all octets. |
| Driver.EveryCutAgrees | src/protocols.rs:79-107 | So feeding frame after frame, each with what the previous ones left, agrees with feeding all octets at once, for every cut. |
| Driver.FeedInTwoPhases | src/protocols.rs:87-106 | Delivering message by message is the same as cutting all data into messages first and delivering them after. |
| Driver.FeedSettles | src/protocols.rs:98-101 | A feed that did not panic keeps only octets in which no message is complete. |
| Driver.MiniProtocol.ReceiveBytes | src/protocols.rs:79-108 | The loop over the data computes Feed: same session, same messages, same rest, and a panic in the same cases. |
| Driver.MiniProtocol.Execute | src/protocols.rs:110-133 | The driver loop computes Drive: it ends, waits or panics as Drive does, and in the same state. |
| Driver.TurnTakesShortestPrefix | src/protocols.rs:119-130 | While the peer has the turn the loop's state is that of feeding all frames taken at once, empty frames included; it takes the shortest prefix that ends the turn and panics only on one that cannot be digested. |
| Driver.TurnEnds | src/protocols.rs:110-133 | If some prefix of the queue ends the turn, the loop gets past the turn without waiting after the least such prefix. |
| Driver.WaitsOnlyForThePeer | src/protocols.rs:119-122 | If no prefix of the queue ends the turn, the loop takes all of it and then waits. |
| Driver.ArrivalsCommute | src/protocols.rs:119-123 | Frames that arrive while the loop is suspended and frames that were there before lead to the same end. |
| Driver.DriveTwice | src/protocols.rs:110-133 | Going on without news changes nothing. |
| Driver.DriveInvariant | src/protocols.rs:110-133 | What every round keeps without panicking holds at the end of the loop, which ends only without agency and waits only for the peer. |
| Driver.OutboxFollowsLog | src/protocols.rs:68-77 | The payloads handed to the connection are, one for one and in order, the encodings of the messages the log says were sent. |
| Driver.EmptyFramesOnly | src/protocols.rs:119-130 | Frames without octets keep a waiting side waiting. |
| Driver.OneMessageDecides | src/protocols.rs:87-130 | A waiting side whose octets are one message, in any encoding and any cut, panics if the message means nothing or is refused, and otherwise has received exactly that message and ends or waits as its new state says. |
| Values.Cursor.Next | src/protocols.rs:170-176 | Taking a field returns the front of what is left and moves past it. |
| Values.Cursor.Integer | src/protocols.rs:196-201 | Returns the integer at the front or an error, and moves past the field in both cases. |
| Values.Cursor.ByteString | src/protocols.rs:210-215 | The same for byte strings. |
| Values.Cursor.Items | src/protocols.rs:182-187 | The same for lists. |
| Values.Cursor.Boolean | src/protocols.rs:203-208 | The same for booleans. |
| Values.Cursor.Entries | src/protocols.rs:189-194 | The same for maps. |
| Values.Cursor.End | src/protocols.rs:217-222 | Succeeds exactly if nothing is left. |
| Values.PointExact | src/protocols.rs:225-241 | Points come back from their fields; fields come back from their point exactly if the slot was not truncated. |
| Values.ReadPoint | src/protocols.rs:232-241 | Reading a point with the cursor accepts exactly an integer, a byte string and the end. |
| Values.ReadTip | src/protocols.rs:253-269 | Reading a tip with the cursor accepts exactly its nested shape. |
| Values.TipRoundTrip | src/protocols.rs:243-269 | Tips come back over the whole range of slots and signed block numbers. |
| Values.CastsTruncate | src/protocols.rs:236-261 | The casts to 16, 32 and 64 bits keep the number up to a multiple of 2 to the width, for negative and large numbers too. |
| Headers.ReadHeader | src/protocols.rs:306-351 | Reading the fifteen items with the cursor accepts exactly the shape of a header, nothing after it, and takes each item to its place. |
| Headers.ReadPair | src/protocols.rs:313-316 | Reading one of the two nested lists accepts exactly two byte strings. |
| Headers.HeaderRoundTrip | src/protocols.rs:300-384 | Wrapping and unwrapping gives the header back with its hash replaced by that of the octets. |
| Headers.WrapFixpoint | src/protocols.rs:300-384 | Wrapping ignores the incoming hash, and wrap-unwrap-wrap is wrap. |
| Headers.WrapSucceeds | src/protocols.rs:354-383 | Every header whose byte strings have 64-bit lengths can be wrapped. |
| Headers.HeaderExact | src/protocols.rs:303-352 | Octets read as a header hold its fifteen items and nothing after them, and would be written as the same fields exactly if no integer was truncated. |
| WireFormat.HeaderOctets | src/protocols.rs:357-383 | The octets of a header, item after item. |
| BlockFetch.FromIter | src/protocols/blockfetch.rs:41-53 | Reading field by field accepts exactly the six message shapes, each with its tag. |
| BlockFetch.CodecExact | src/protocols/blockfetch.rs:41-68 | Every message comes back from its fields; accepted fields come back from their message exactly if the slots fit 64 bits. |
| BlockFetch.DecodingTruncates | src/protocols/blockfetch.rs:41-54 | A range request with a slot of -1 is accepted and does not come back. |
| WireFormat.BlockFetchMessages | src/protocols/blockfetch.rs:55-68 | The octets of all six messages. |
| BlockFetch.Fetcher.Run | src/protocols/blockfetch.rs:127-134 | run is the driver on the resumed session. |
| BlockFetch.Fetcher.Next | src/protocols/blockfetch.rs:149-165 | next hands out the oldest block, or resumes the driver first, or ends the stream, or panics, as NextCall says. |
| BlockFetch.Fetcher.Finish | src/protocols/blockfetch.rs:136-141 | done is the driver on the closing session. |
| BlockFetchRuns.RecvMatchesSpec | src/protocols/blockfetch.rs:219-238 | recv accepts exactly what the specification lets a server send, follows its state and keeps every block. |
| BlockFetchRuns.ConformingSplit | src/protocols.rs:84-107 | Cutting a conforming server's octets anywhere leaves both parts conforming. |
| BlockFetchRuns.DeliverConforming | src/protocols/blockfetch.rs:219-238 | Delivering any messages the specification allows never panics, also after running became false, and stops only with a block or at the end of the batch. |
| BlockFetchRuns.DeliverQueuesBlocks | src/protocols/blockfetch.rs:227-231 | Every block delivered is queued, in order and once. |
| BlockFetchRuns.DeliveredTrace | src/protocols/blockfetch.rs:219-238 | The log of what was delivered is a trace of the specification and brings exactly the blocks of the messages. |
| BlockFetchRuns.FrameKeeps | src/protocols.rs:119-130 | One frame of a conforming server, ending in whatever part of a message, keeps state, trace, books and what is still to come. |
| BlockFetchRuns.ReceivingKeepsOutlook | src/protocols/blockfetch.rs:219-238 | A call that ends while the batch goes on has a block to hand out. |
| BlockFetchRuns.DriveKeeps | src/protocols.rs:110-133 | Against a conforming server the driver never panics, keeps the trace, the books of blocks and the states, and never ends in Busy. |
| BlockFetchCalls.EveryRunIsSafe | src/protocols/blockfetch.rs:126-238 | Over every sequence of calls, polls and arrivals, dropped streams included: no panic; blocks returned and queued are the blocks received; the trace is one of the specification; no call, done included, ends in Busy. |
| BlockFetchCalls.NoneMeansOver | src/protocols/blockfetch.rs:149-165 | At any time, frames still arriving or not, next answers None only when the batch is over and every block received has been handed out. |
| BlockFetchCalls.FinishCloses | src/protocols/blockfetch.rs:136-141 | Over everything that can happen after done was called: the protocol ends exactly if it was called in Idle and is polled, with one ClientDone and nothing else sent; from a stream midway it never ends and nothing at all is sent. |
| BlockFetchCalls.CallsAreMethods | src/protocols/blockfetch.rs:127-165 | Starting a call and polling it is the call the method computes, for run, next and done. |
| BlockFetchCalls.OnlyItsRange | src/protocols/blockfetch.rs:97-109 | Over all calls and whatever the server does, a client requests no other range than the one it was built for. |
| BlockFetchDelivery.RunAsks | src/protocols/blockfetch.rs:196-207 | run sends one range request and then waits for the server. |
| BlockFetchDelivery.FetchingNext | src/protocols/blockfetch.rs:150-155 | A next that has to wait for the network does not wait once the batch has arrived. |
| BlockFetchDelivery.FreshIsReady | src/protocols/blockfetch.rs:97-109 | A new client is at rest, Idle and empty, as a client must be that is to be delivered a range. |
| BlockFetchDelivery.FreshAsks | src/protocols/blockfetch.rs:97-134 | A new client that is run sends exactly the request for its first and last point, in this order, and waits. |
| BlockFetchDelivery.FrameSupplies | src/protocols.rs:119-130 | What a frame does to a client does not depend on the octets still to come. |
| BlockFetchDelivery.ReplyCarries | src/protocols/blockfetch.rs:55-68 | The octets of a reply, NoBlocks or StartBatch, any Blocks and BatchDone, are an answer in this sense and carry exactly its blocks. |
| BlockFetchDelivery.DeliveredAsItArrives | src/protocols/blockfetch.rs:127-166 | For every answer of a conforming server in any encoding, every cut into frames and every interleaving of arrivals, calls of next and polls, at every moment: no panic, what next returned is the first blocks of the answer in order, and a client idle with an empty queue has returned all of it, has nothing pending or to come, and may ask again. |
| BlockFetchDelivery.EverythingIsDelivered | src/protocols/blockfetch.rs:127-166 | Once the answer has arrived, however many blocks were returned by then, the active call ends and calls of next return exactly the others in order and then None. |
| BlockFetchDelivery.FreshClientDelivers | src/protocols/blockfetch.rs:97-166 | So a new client, which has asked for its range only, returns first blocks of the answer at every moment and all of it in the end. |
| BlockFetchDelivery.DoneMidwayNeverCloses | src/protocols/blockfetch.rs:136-141 | There is a stream midway, that of a new client after its first block, and done called on it never closes the link. |
| ChainSync.ReadPoints | src/protocols/chainsync.rs:59-67 | The loop over the points accepts lists of points, and one item at the end that is not a list. |
| ChainSync.ReadHeader | src/protocols.rs:288-297 | Reading a wrapped header accepts exactly an integer, which is dropped, a byte string and the end. |
| ChainSync.FromIter | src/protocols/chainsync.rs:53-75 | Reading field by field accepts exactly the eight message shapes, each with its tag. |
| ChainSync.CodecRoundTrip | src/protocols/chainsync.rs:53-115 | All eight messages come back from their fields, with lists of any length. |
| ChainSync.CodecExact | src/protocols/chainsync.rs:53-115 | Accepted fields come back from their message exactly if nothing in them was truncated or ignored. |
| ChainSync.DecodingForgets | src/protocols/chainsync.rs:62-65 | Two accepted lists of fields that do not come back. |
| ChainSync.OctetsRoundTrip | src/protocols/chainsync.rs:53-115 | All eight messages survive the way through their octets, whatever follows. |
| WireFormat.ChainSyncMessages | src/protocols/chainsync.rs:77-115 | The octets of the messages without a tip. |
| WireFormat.ChainSyncAnswers | src/protocols/chainsync.rs:77-115 | The octets of the messages with a tip only, and with a header. |
| WireFormat.ChainSyncPoints | src/protocols/chainsync.rs:77-115 | The octets of the messages with a point and a tip. |
| ChainSync.FindIntersectLength | src/protocols/chainsync.rs:91-104 | The exact length of a question for any list of points, slots and hashes. |
| ChainSync.FrameBound | src/protocols/chainsync.rs:91-104 | Up to 1489 points with 32-octet hashes fit a frame whatever their slots; longer lists with large slots do not, however long. |
| ChainSyncClient.Follower.FindIntersect | src/protocols/chainsync.rs:169-173 | The call is the driver on the question, and then takes the answer out of the session. |
| ChainSyncClient.Follower.RequestNext | src/protocols/chainsync.rs:175-179 | The same for the next roll. |
| ChainSyncRuns.CallsAreMethods | src/protocols/chainsync.rs:168-180 | Asking and polling is the call that the two methods compute, whether it completes, waits or panics. |
| ChainSyncRuns.FindIntersectAsks | src/protocols/chainsync.rs:169-218 | find_intersect sends exactly one message, asking for exactly the points it was given, and waits. |
| ChainSyncRuns.RequestNextAsks | src/protocols/chainsync.rs:175-221 | request_next sends exactly one RequestNext, and waits. |
| ChainSyncRuns.MessageDecides | src/protocols/chainsync.rs:227-261 | What a waiting call makes of any one message of any server, conforming or not: an answer to its kind of question ends it with that answer; one to the other kind, and Done, make it panic for want of an answer; a bad header or a client message is a panic; the others change what it waits for. |
| ChainSyncRuns.RecvTracks | src/protocols/chainsync.rs:227-261 | recv accepts what the specification allows a server, and what it stores is the answer to the open question. |
| ChainSyncRuns.CallKeeps | src/protocols/chainsync.rs:168-180 | A call against a conforming server never panics and ends only with the answer to its own question. |
| ChainSyncRuns.AnswerEndsCall | src/protocols/chainsync.rs:194-261 | A call whose answer has arrived in full, in whatever frames, ends with that answer. |
| ChainSyncRuns.EveryCallIsAnswered | src/protocols/chainsync.rs:168-261 | Over every sequence of calls, polls and arrivals: no panic; the calls and what they returned are exactly the questions and answers of the trace; between calls the session is idle and empty. |
| Versions.NumberExact | src/protocols/handshake.rs:194-206 | Exactly the versions of 16 bits have a number; every 16-bit number is that of one version; a version comes back exactly if it is below 0x8000. |
| Versions.PairRoundTrip | src/protocols/handshake.rs:135-190 | Exactly the supported versions can be proposed, they come back with their magic, and only supported versions are ever read. |
| Versions.PairExact | src/protocols/handshake.rs:152-190 | An entry that is understood is the one that would be written, exactly if no cast changed anything in it and nothing further was ignored; so a set or missing flag is refused. |
| Versions.EntryForms | src/protocols/handshake.rs:135-150 | The form of an entry at the limits of each kind of version, and which numbers are refused. |
| Versions.NumbersNeverCollide | src/protocols/handshake.rs:135-150 | The two families share no wire number, and a version is proposed under the number it is accepted by. |
| Versions.CollectSorts | src/protocols/handshake.rs:82-87 | The map is strictly sorted and holds exactly the last pair of every key. |
| Versions.KeyOrder | src/protocols/handshake.rs:82-87 | The order of the integer keys of a map is strict and total: non-negative ones first, then by magnitude. |
| Versions.ForeignKeys | src/protocols/handshake.rs:52-57 | A foreign proposal with keys that the cast makes 6 and 7: the entries come in the order of the keys as they were, so the negative one last. |
| Versions.SortedUnique | src/protocols/handshake.rs:82-87 | A strictly sorted map is determined by its pairs. |
| Versions.ProposalRoundTrip | src/protocols/handshake.rs:50-88 | A proposal of any length and order, with repetitions, comes back sorted by wire number with the last of every version; unchanged exactly if strictly sorted. |
| Versions.UnsortedProposal | src/protocols/handshake.rs:50-88 | The two versions of a node listed in descending order do not come back as listed. |
| Versions.MapEncodable | src/protocols/handshake.rs:80-88 | However long the list, its map has at most 16 entries and can be written in at most 329 octets. |
| Handshake.FromIter | src/protocols/handshake.rs:50-76 | Reading field by field accepts exactly the three shapes; further fields are ignored. |
| Handshake.AcceptanceRoundTrip | src/protocols/handshake.rs:60-103 | An acceptance comes back exactly if its version is below 0x8000, as all are that the library makes; a refusal is written so that it cannot be read. |
| Handshake.AcceptanceExact | src/protocols/handshake.rs:60-68 | An acceptance that is understood is the one that would be written, exactly if no cast changed anything in it and nothing further was ignored. |
| WireFormat.HandshakeMessages | src/protocols/handshake.rs:78-93 | The octets of the proposal and of the acceptance of a node. |
| WireFormat.RefusalOctets | src/protocols/handshake.rs:94-102 | The octets of the refusal this library writes, with its text. |
| WireFormat.ClientToNodeProposal | src/protocols/handshake.rs:145-148 | The octets of the proposal of a client to a node, with the high bit in its number. |
| Handshake.ProposalArrives | src/protocols/handshake.rs:50-88 | A proposal of supported versions is always written and understood as the sorted list it stands for. |
| Handshake.Negotiator.Negotiate | src/protocols/handshake.rs:270-276 | negotiate is the driver, and then the session's version with the magic, or an error. |
| Handshake.AnswerDecides | src/protocols/handshake.rs:333-358 | What negotiate makes of the one message of any server, in any encoding and any cut: a version, an error or a panic. |
| Handshake.RefusalFails | src/protocols/handshake.rs:350-352 | After a refusal, whatever its reason, negotiate fails: there is no version. |
| Handshake.AcceptanceDecides | src/protocols/handshake.rs:340-349 | After an acceptance negotiate returns exactly the version of that number if the client has it, fails if not, and panics on another magic or a set flag. |
| Handshake.OwnRefusalPanics | src/protocols/handshake.rs:94-102 | A client panics on the refusal this library writes. |
| Handshake.NothingAfterTheEnd | src/protocols/handshake.rs:355 | A second message in the frame that ends the handshake is a panic. |
| HandshakePair.AtMostOneActs | src/protocols/handshake.rs:296-302 | In every reachable state of client, server and octets under way, at most one side can act, and then nothing is under way. |
| HandshakePair.TakesFrame | src/protocols.rs:119-130 | One frame of the other side's message is kept, or completes the message and nothing is expected any more. |
| HandshakePair.AgreementIsMutual | src/protocols/handshake.rs:269-358 | A version the client has was recorded by the server, is the last of the server's and one of the client's, and both magics are equal. |
| HandshakePair.EveryEnd | src/protocols/handshake.rs:308-358 | How a handshake ends is a function of the two lists and the two magics, error and panic cases included. |
| HandshakePair.NeverStuck | src/protocols.rs:110-133 | From every reachable state the handshake can be brought to such an end. |
| HandshakePair.NegotiateIsMutual | src/protocols/handshake.rs:270-276 | negotiate, called in any reachable state, panics only between different networks and returns a version exactly if the server's last one is among the client's. |
| Mux.PartsSplit | src/mux.rs:157-163 | At every stage of the four writes, what is written and what is to come make the frame. |
| Mux.HeaderFields | src/mux.rs:178-183 | The reader finds the channel and the length modulo 2^16 in the header and the payload behind it. |
| Mux.ReadStable | src/mux.rs:177-187 | A frame that has arrived is read the same whatever follows it. |
| Mux.FrameExact | src/mux.rs:154-187 | A frame is read back with its payload, on the other direction of its channel, exactly if the payload fits 16 bits of length. |
| WireFormat.Frames | src/mux.rs:154-187 | The octets of a frame, with its time stamp, and what the reader makes of them. |
| Mux.UnpackAppend | src/mux.rs:177-190 | Where the byte stream is cut into chunks makes no difference to the frames read. |
| Mux.RoutingIsFifo | src/mux.rs:187-190 | Every registered channel gets its own payloads in order; frames for other channels, registered or not, do not touch it. |
| Mux.Connection.Send | src/mux.rs:154-164 | A send appends one whole frame. |
| Mux.Connection.RunDemux | src/mux.rs:168-196 | The read loop routes all whole frames that arrived, and keeps the rest. |
| MuxSystem.FramesAreAtomic | src/mux.rs:154-164 | Under any number of senders writing payloads of any length in four steps, the wire is whole frames in the order of the lock plus the first parts of the lock holder's, and of every sender's calls exactly those that got the lock, in its order. |
| MuxSystem.OrderKeeps | src/mux.rs:154-164 | No step loses, repeats or reorders the calls of a sender. |
| MuxSystem.DemuxIsFifo | src/mux.rs:144-190 | In every schedule in which a channel is registered, after anything, and left registered, it is registered, and what its owner received and has queued is all the peer sent on its other direction in the frames routed since, in the order of the wire. |
| MuxSystem.UnregisteredIsGone | src/mux.rs:150-153 | After a channel is unregistered it has no queue and its frames are dropped, until it is registered again. |
| MuxSystem.NoFrameIsKept | src/mux.rs:177-190 | No whole frame is left unrouted when the reader waits. |
| MuxSystem.RouteKeepsChannel | src/mux.rs:187-190 | Routing a frame extends the queue of its channel by its payload and leaves every other channel as it was. |
| MuxSystem.SendIsFourWrites | src/mux.rs:154-164 | A call of send with the lock free is recorded, gets the lock, and does in four writes what Mux.Connection.Send does. |
| MuxSystem.RunDemuxIsRouting | src/mux.rs:177-190 | Routing frame after frame while one is whole is what Mux.Connection.RunDemux does: same queues, same octets left. |
| FrameSizes.ShortMessageArrives | src/mux.rs:162 | A message is found whole in its frame exactly if it has at most 65535 octets. |
| FrameSizes.HandshakeArrives | src/protocols/handshake.rs:308-331 | Every message a handshake sends arrives whole. |
| FrameSizes.RangeRequestArrives | src/protocols/blockfetch.rs:196-206 | A range request arrives whole exactly if its two points take at most 65533 octets. |
| FrameSizes.FindIntersectArrives | src/protocols/chainsync.rs:213-217 | A question arrives whole exactly if its list takes at most 65533 octets; so up to 1489 points with 32-octet hashes always do, and longer lists with large slots never. |
| ConnectedClient.InputsDecide | src/mux.rs:213-219 | A client is determined by its own actions and the frames it takes, whatever else the connection does. |
| ConnectedClient.TakenIsSent | src/mux.rs:154-190 | In every schedule the frames a client takes are the first of the payloads its peer sent it, in the order of the wire; when the network is calm they are all of them. |
| ConnectedClient.CanCalm | src/mux.rs:154-190 | From every network a calm one can be reached without any action of the client: writing, transporting, routing and taking come to an end. |
| EndToEnd.BlocksArrive | src/protocols/blockfetch.rs:127-166 | At every moment of every schedule of the server's concurrent senders on all channels, every chunking of the bytes and every interleaving with the driver and with calls of next: as long as the server has sent an answer or part of it, nothing panics and next has returned the first blocks of the answer in order; and a client idle with an empty queue has returned all of it, with no octet left over, and may ask again. |
| EndToEnd.AllBlocksArrive | src/protocols/blockfetch.rs:127-166 | Once the answer was sent and the network is calm, the active call ends and calls of next return exactly the blocks not yet returned, in order, and then None. |
| EndToEnd.NextRange | src/protocols/blockfetch.rs:97-134 | A client that asks for its next range on the same connection and registration is where the two statements above start, so they hold for every range. |
| EndToEnd.CanComeToRest | src/mux.rs:154-190 | From every state they speak of the network can come to rest. |
| EndToEnd.ReachedExists | src/protocols/blockfetch.rs:97-134 | There are such states: that of a new client on a new connection, for one. |
| EndToEnd.Channels | src/mux.rs:182 | The two protocols listen on channels 3 and 2, and their servers send on 0x8003 and 0x8002. |
| EndToEnd.AnswersArrive | src/protocols/chainsync.rs:168-261 | A Chain-Sync client on its connection, in every schedule: as long as its server conforms, no call panics and every call gets the answer to its own question. |

## Left out

- Sockets, connection timeouts, tasks and their abortion, logging and clocks.
- Partial results of the payload write: `src/mux.rs:163` ignores how much was written; the model writes all of it.
- The end of a connection: a failed read or write panics in the source and does not happen here; so does a frame for a channel whose receiver is gone while it is still registered.
- Calls that are dropped while they wait, and a channel dropped with octets kept for its next frame; every call is polled to its end or not polled again.
- The transaction submission protocol: its agency is always none, so its driver never runs.
- The calls and the loops hold their session as one value that they replace; aliasing between a block stream and its client is the rule that a call can start only when none is active.
- CBOR tags, floats, indefinite lengths, the recursion limit and UTF-8 validity of text; inputs with the first three are malformed in the model.
- Maps are kept in wire order as values; the sorted map with the last duplicate kept is modelled where one is read, in the handshake. A proposal with a key that is not an integer is an error whatever else it holds.
- The order in which recv of a handshake records its result before it checks the magic: a panic has no session afterwards.
- That the server picks a common version: the code does not look at the proposal.
- That `done` always tells the server: it does so from Idle only, see `BlockFetchCalls.FinishCloses`.
- blake2b: `H` is any function on octets.
- Builders beyond the initial sessions, the examples, hexadecimal conversion and `src/lib.rs`.
- BlockFetchCalls.EveryRunIsSafe: asks that the range's hashes have lengths below 2^64, which CBOR cannot exceed.
- ChainSyncRuns.EveryCallIsAnswered: asks the same of the points of the questions, and that the server sends headers the header decoder accepts.
- The handshake is not composed with the multiplexer: its two sides exchange octets that may be cut and delayed anywhere.
- EndToEnd.BlocksArrive: takes the server's answer as octets handed to the multiplexer in any cut; the server program that produces them is not part of this model.
