# BRN0 wire connection: a Dafny model

The three BrainDB SDKs (Rust, Python, TypeScript) talk to the server over one socket that carries
checksummed frames for many concurrent requests. This project models that connection from bytes to
answers, and three smaller cores beside it, and proves what they guarantee.

* **Checksum** (`crc32c.dfy`). CRC32C at three levels: the generator's long division of RFC 3720
  section 12.1, a bit-serial register, and the table-driven byte loop. The loop equals the register,
  the register is the remainder of the division, and one step of it is invertible, which gives the
  error-detection theorems.
* **Frames** (`frame.dfy`, `frame_errors.dfy`). `Encode` fills a buffer, `Decode` branches over slices.
  They undo each other both ways; corrupted frames are refused with a known error.
* **Reading** (`stream.dfy`, `session.dfy`, `pump.dfy`, `channel.dfy`, `channel_runs.dfy`, `sink.dfy`).
  `FrameStream.ParseAll` is the ideal parse of a byte stream. The pull loops of Rust and Python, the
  handshake followed by the reader task, the TypeScript `data` pump and its `FrameChannel` compute
  it, however the bytes are split.
* **Multiplexer** (`answers.dfy`, `mux*.dfy`). A machine whose events are the atomic steps under the
  connection's locks; every interleaving of callers, reader, timers and failures is a run. `Eager`
  mode is Rust, `Lazy` mode is Python and TypeScript. `MuxConnection.Connection` is the same machine
  as an object whose methods update its fields; `MuxEffects` says what each event does for its client,
  and `MuxCases` holds whole runs, those in which requests on one id get in each other's way among them.
* **Change feed** (`sse.dfy`, `sse_resume.dfy`, `sse_standard.dfy`, `sse_bom.dfy`, `sse_print.dfy`). The Rust
  parser, the id to resume from, the event stream interpretation of WHATWG HTML section 9.2.6
  written from the standard, and a printer.
* **Retry** (`retry.dfy`, `retry_outcomes.dfy`). Rust's saturating durations beside the uncapped schedule
  of the others, both loops, and which endings of a request each client retries.
* **Pool** (`pool_spec.dfy`, `pool_locked.dfy`, `pool_shared.dfy`, `pool_object.dfy`, `pool_progress.dfy`,
  `pool_tickets.dfy`). One specification of what a pool may do to its slots; the lock-and-look-again pool and the
  shared-promise pool both follow it step by step, and serve their callers.

Sockets, TLS, timers, clocks and randomness are events or parameters: a chunk arrives, a read fails,
a timeout fires, a write fails, a random draw is made.

## Where the code does less than one might expect

Each of these is a theorem with a concrete input or the exact condition under which the code does meet
the expectation.

* A request keeps its route while the connection is open and (Rust) its stream has not ended, except when
  another client registers on its id or removes that id: `MuxRoutes.RoutedIff` is the exact statement,
  in every run. Requests on stream 0 can do that to each other. A second ping takes the first one's
  route and its answer (`MuxCases.OverlappingPings`); the first one's timeout removes the second one's
  route, whose answer is then dropped (`MuxCases.TimeoutTakesRoute`). A Rust request so displaced is
  told the connection closed although it is open (`MuxTheorems.ToldClosedIff`, exactly then); a Python
  or TypeScript one waits for its timeout (`MuxTheorems.DisplacedStarves`). What was answered is right
  either way: a response and a server error are the stream's own in every run
  (`MuxTheorems.OutcomeIsTheStream`).
* Stream ids come round again after 2^31 allocations (`MuxTheorems.IdsRepeat`), so a client that lives
  that long can be displaced too; `MuxTheorems.YoungRunIsAlone` is what rules it out.
* A Rust request whose future is dropped leaves its route behind (`MuxCases.DroppedFuture`), exactly until
  its EOS, the end of the connection, or another request on the same id
  (`MuxTheorems.DroppedFutureIff`, `MuxCases.DroppedThenOvertaken`).
* After a fatal codec error the TypeScript pump keeps its buffer, so heartbeats in it are answered
  again by every later chunk (`FramePump.AnsweredOnceIff`, `FramePump.AnsweredTwice`).
* In `FrameChannel`, a frame completed after a failure, when more had been read than had arrived, is missed
  by the read it belongs to, exactly then (`FrameChannelRuns.InOrderIff`, `FrameChannelRuns.LateFrame`).
  It takes an event source that delivers data after its failure, which a socket does not do
  (`FrameChannelRuns.QuietIsNeverLate`).
* A `StreamSink` serves one waiter. A caller that asks again before the first promise settles takes its
  frame (`FrameSink.AskedTwice`, `FrameSink.StrandedForever`); calls and frames match up exactly as
  `FrameSink.InOrderIff` says.
* The change feed drops empty leading `data` lines, does not know CR alone as a line end, and takes a
  byte order mark for text (`SseStandard.AgreesWithStandard`, `SseStandard.LoneCrDiffers`,
  `SseBom.MarkedAgrees`, `SseBom.BomDiffers`).
* The feed's documentation calls the remembered id that of the most recent event. It is that of the newest
  `id` line, which can belong to an event never delivered (`SseResume.RunsAhead`); it is the delivered
  event's exactly when no newer `id` line with another value follows
  (`SseResume.RememberedIsDeliveredIff`, `SseResume.ReadOut`).
* The Rust backoff stops doubling after 31 doublings (`Retry.BackoffIsIdeal`). The documentation of
  `jittered` says a client never retries sooner than the server asked; a hint above `max_delay` is cut
  to `max_delay`, so that holds exactly when the hint is within the cap (`Retry.HintHonored`). The code
  is what is modelled.
* The retry documentation says a transport drop is reported retryable. A Rust request that finds the
  connection broken gets a protocol error, which is not retried, and the three clients differ
  (`RetryOutcomes.BrokenConnectionRetriedIff`, `RetryOutcomes.SdksAgreeIff`).
* Round-robin visits each slot once in any window of tickets that does not straddle the counter's wrap,
  and in a straddling one exactly when the pool size divides 2^64 (`PoolTickets.EachSlotOnce`).

## Model

| member | source | states |
|---|---|---|
| Crc32c.BuildTable | typescript/src/wire/crc32c.ts:19-29 | every entry `n` is the register `n` run eight places, bit by bit |
| Crc32c.ComputeCrc32c | typescript/src/wire/crc32c.ts:32-38 | the table loop returns the bit-serial CRC32C of any byte sequence |
| Crc32c.TableStep | typescript/src/wire/crc32c.ts:35 | one lookup is eight register steps |
| Crc32c.AbsorbAppend | typescript/src/wire/crc32c.ts:32-38 | absorbing a concatenation is absorbing its parts in turn |
| Crc32c.CrcIsPolynomialRemainder | typescript/src/wire/crc32c.ts:16-38 | the checksum is the complemented remainder of the complemented, extended message under long division by 0x11EDC6F41 (RFC 3720 section 12.1) |
| Crc32c.RegisterIsRemainder | typescript/src/wire/crc32c.ts:24 | the register after a message is the remainder of the extended message |
| Crc32c.AbsorbBitsInjective | typescript/src/wire/crc32c.ts:24-35 | every message acts on registers one to one |
| Crc32c.BurstDetected | typescript/src/wire/crc32c.ts:32-38 | messages that differ only in a window of at most 32 bits, at any bit offset, have different checksums |
| Crc32c.WindowDetected | typescript/src/wire/crc32c.ts:32-38 | so do messages that differ only within four consecutive bytes, at any length and position |
| Crc32c.CrcParity | typescript/src/wire/crc32c.ts:16-38 | the checksum has as many ones as the message, modulo two |
| Crc32c.OddFlipsDetected | typescript/src/wire/crc32c.ts:32-38 | flipping any odd number of bits anywhere changes the checksum |
| FrameCodec.ComputeHeaderCrc | rust/src/wire/frame.rs:112-117 | the checksum of the header without its own field, computed into a copy |
| FrameCodec.Encode | rust/src/wire/frame.rs:152-191 | fills the buffer with exactly the wire form of a frame that fits, whatever its flags, and reports an oversize payload with its length cut to 32 bits |
| FrameCodec.NeverOversize | rust/src/wire/frame.rs:243-257 | the oversize branch of decoding is unreachable |
| FrameCodec.OpensWith | rust/src/wire/frame.rs:152-191 | the first eight bytes of a frame: the magic, version 1, the opcode high byte first, the flags |
| FrameCodec.FlagsMean | rust/src/wire/frame.rs:40-43 | EOS is the bit 0x80, and a frame's flags are defined exactly if only 0x80, 0x40 and 0x20 are set |
| FrameCodec.HeaderFields | rust/src/wire/frame.rs:204-262 | reading the header of a frame gives its fields back and passes every check |
| FrameCodec.DecodeEncoded | rust/src/wire/frame.rs:152-291 | decoding an encoded frame followed by any bytes gives the frame and those bytes back exactly when its flags are defined ones, and otherwise the reserved-bits error |
| FrameCodec.EncodeDecoded | rust/src/wire/frame.rs:204-291 | whatever decodes is the encoding of the frame it decodes to, followed by the rest |
| FrameCodec.EncodeInjective | rust/src/wire/frame.rs:152-191 | no two frames share an encoding, not even as prefixes of longer streams |
| FrameCodec.PrefixTruncated | rust/src/wire/frame.rs:204-267 | every strict prefix of a frame is reported truncated, with what is needed and what is there |
| FrameCodec.DecodeAppend | rust/src/wire/frame.rs:204-291 | a verdict other than truncated does not change when bytes arrive behind it |
| FrameErrors.CorruptedHeader | rust/src/wire/frame.rs:204-262 | a header with one changed byte is refused, and with which error |
| FrameErrors.CorruptedByte | rust/src/wire/frame.rs:204-291 | changing any one byte of an encoded frame, header or payload, is refused with a known error that is not truncation |
| FrameErrors.CorruptedWindow | rust/src/wire/frame.rs:268-276 | any payload change confined to four consecutive bytes is a payload checksum error |
| FrameErrors.OddPayloadFlips | rust/src/wire/frame.rs:268-276 | so is any odd number of flipped payload bits |
| FrameErrors.CorruptedHeaderWindow | rust/src/wire/frame.rs:204-262 | any change confined to four consecutive header bytes, all covered by the header checksum or all in its field, is refused on the header alone and never as truncated |
| FrameErrors.AcceptedHeaderIsEven | rust/src/wire/frame.rs:204-262 | every accepted header has an even number of one bits |
| FrameErrors.OddHeaderFlips | rust/src/wire/frame.rs:204-262 | so flipping an odd number of header bits, the checksum field included, is refused |
| FrameStream.ParseSound | rust/src/transport.rs:42-69 | frames parsed, re-encoded and followed by the bytes left over are the stream |
| FrameStream.ParseAppend | rust/src/transport.rs:42-69 | parsing may stop anywhere and go on with the left-over bytes when more arrive |
| FrameStream.ParseWire | rust/src/transport.rs:24-69 | a stream of written frames parses to those frames, then goes on with what follows |
| FrameStream.ParseTornWrite | rust/src/transport.rs:24-33 | a write torn inside a frame leaves a stream that parses to the frames before it and waits for the rest |
| FrameStream.CorruptedStream | rust/src/transport.rs:42-69 | with one damaged byte in a stream, exactly the frames before the damaged one come out and the reader stops with its error instead of waiting |
| FrameStream.PullReader.ReadFrameRust | rust/src/transport.rs:42-69 | for every split of the bytes, the next frame of the concatenation or its final error, leaving the rest ahead; a socket error leaves the buffer with its zeroed growth |
| FrameStream.PullReader.ReadFramePython | python/src/brain_db_sdk/transport.py:29-54 | the same function of the concatenation |
| FrameStream.ShortStreamEnds | python/src/brain_db_sdk/transport.py:40-54 | bytes too short for a frame end as the peer ended them, closed or with an I/O error, and nothing is used up |
| Session.ReadHandshakeReply | rust/src/mux.rs:660-684 | the reply is the next frame of the stream, judged by opcode, an ERROR by whether its body decodes |
| Session.DoHandshake | rust/src/mux.rs:267-304 | the handshake, bodies that do not decode and versions not offered included, is a function of the inbound bytes alone, and what it did not use is handed over |
| Session.ConnectsIff | rust/src/mux.rs:273-324 | the handshake succeeds, with those two frames, if and only if the stream's first two frames are a WELCOME that chooses an offered version and an AUTH_OK, and both bodies decode |
| Session.RefusesBecause | rust/src/mux.rs:273-304 | every other stream's refusal: the stream's end, the server's ERROR or its undecodable body, the unexpected opcode, the undecodable body, the version |
| Session.ReadAll | rust/src/mux.rs:592-641 | the reader task sees the frames of the stream in order and stops for the stream's reason |
| Session.HandshakeIsPrefix | rust/src/mux.rs:267-304 | an accepted handshake is the first two frames of the stream and nothing after them is lost |
| Session.Run | rust/src/mux.rs:267-304 | for every split, the handshake's frames followed by the reader's frames are the ideal parse of everything received |
| FramePump.Pump.OnData | typescript/src/mux.ts:371-411 | one chunk routes and answers exactly the frames of the merged buffer, stops at a fatal error without compacting, and keeps the tail otherwise |
| FramePump.RoutedIsParse | typescript/src/mux.ts:371-417 | in every run what reached the routes is the ideal parse of the bytes before the failure, less heartbeats |
| FramePump.RoutesWhatWasSent | typescript/src/mux.ts:371-411 | sent frames are all routed, and heartbeats all answered, in order and once, for any chunks |
| FramePump.ChunkIndependence | typescript/src/mux.ts:371-411 | runs that saw the same bytes routed the same frames and agree on being closed |
| FramePump.HeartbeatsReplayed | typescript/src/mux.ts:391-392 | exactly which heartbeats are answered after a fatal error, chunk by chunk |
| FramePump.AnsweredOnceIff | typescript/src/mux.ts:391-392 | each heartbeat is answered once if and only if no chunk follows the fatal one or the failed buffer held none |
| FramePump.AnsweredTwice | typescript/src/mux.ts:391-392 | an input on which one heartbeat is answered twice |
| FrameChannel.Channel.ReadNext | typescript/src/transport.ts:39-46 | a ready frame, else the failure, else a pending promise at the end of the queue |
| FrameChannel.Channel.DeliverOne | typescript/src/transport.ts:82-89 | a frame settles the oldest waiter or becomes ready |
| FrameChannel.Channel.FailWith | typescript/src/transport.ts:91-96 | the first failure is kept and rejects every waiter |
| FrameChannel.Channel.OnDataEvent | typescript/src/transport.ts:61-80 | a chunk delivers the frames of the merged buffer and fails on bad bytes |
| FrameChannelRuns.Reachable | typescript/src/transport.ts:39-96 | after any events: ready frames and waiters are never both there, frames are conserved and in order, delivered frames are the ideal parse |
| FrameChannelRuns.InOrderIff | typescript/src/transport.ts:39-96 | the i-th read gets the i-th frame, else the first failure, in exactly the runs where no chunk completed a frame after a failure with more read than arrived |
| FrameChannelRuns.LateIff | typescript/src/transport.ts:82-96 | exactly then a frame is delivered after a read was rejected |
| FrameChannelRuns.QuietIsNeverLate | typescript/src/transport.ts:30-36 | a socket that emits no data after its failure never causes that |
| FrameChannelRuns.ReadsGetFrames | typescript/src/transport.ts:39-96 | for every interleaving with such a socket, the i-th read resolves with the i-th frame of the stream or ends with the first failure |
| FrameChannelRuns.LateFrame | typescript/src/transport.ts:61-96 | an interleaving, with data after the socket failed, in which a read misses its frame |
| FrameSink.StreamSink.Push | typescript/src/mux.ts:70-78 | a frame goes to the waiter if there is one, else to the queue |
| FrameSink.StreamSink.Fail | typescript/src/mux.ts:80-87 | the first failure is kept, and rejects the waiter |
| FrameSink.StreamSink.Next | typescript/src/mux.ts:89-96 | a queued frame before the failure before a new waiter |
| FrameSink.InOrderIff | typescript/src/mux.ts:65-97 | in every run the i-th `next()` gets the i-th frame pushed, earlier or later, and beyond the last the first failure, if and only if nothing was pushed or failed while a call had been passed over by a later one, and nothing was pushed after a failure that a call had seen |
| FrameSink.AskedTwice | typescript/src/mux.ts:89-96 | two calls before the first is answered: the one frame goes to the second and the first stays pending |
| FrameSink.StrandedForever | typescript/src/mux.ts:89-96 | asking again while a promise is pending leaves that promise pending forever |
| Answers.CompleteMeans | rust/src/mux.rs:176-199 | a whole response is the stream up to and including its first EOS, with no ERROR in it |
| Answers.RefusedMeans | rust/src/mux.rs:176-199 | a server error is the first ERROR frame, with no EOS before it |
| Answers.ReadStable | rust/src/mux.rs:176-199 | a final answer does not change when more frames arrive |
| MuxInvariant.NextIdIs | rust/src/mux.rs:106-112 | the Rust allocator and the guarded one of the others take the k-th id to the (k+1)-st of one sequence, wrap included |
| MuxInvariant.RunKeepsIds | python/src/brain_db_sdk/mux.py:347-357 | in every run the k-th allocated id is 1 + 2 (k mod 2^31), for all three allocators, and tickets are never shared |
| MuxInvariant.RunKeeps | rust/src/mux.rs:116-202 | the connection invariant in every run, whoever shares ids: what a client has collected and queued is a prefix of its stream since registration, and all of it while it has its route; each route belongs to a client that holds the id, or to a Rust request whose future was dropped |
| MuxTheorems.IdsDistinct | typescript/src/mux.ts:443-451 | any 2^31 consecutive ids are distinct, odd and not 0 |
| MuxTheorems.IdsRepeat | rust/src/mux.rs:106-112 | the id after that is the first one again |
| MuxTheorems.YoungRunIsAlone | rust/src/mux.rs:106-124 | if fewer than 2^31 ids are allocated during the life of each holder of an id, and stream 0 has one holder at a time, that id is never shared, whatever happens on others |
| MuxRoutes.RoutedIff | rust/src/mux.rs:116-132 | in every run a client that has not removed its own route has it if and only if the connection is open, its stream has not ended (Rust), and no other client registered on its id or removed that id since |
| MuxRoutes.AloneIsUndisplaced | rust/src/mux.rs:116-132 | a client whose id nobody else held meanwhile was not displaced |
| MuxRoutes.UndisplacedIsWhole | python/src/brain_db_sdk/mux.py:254-309 | in every run a client nobody displaced has its whole stream through EOS in hand or queued, and is told closed only if the connection is and the stream gave no answer |
| MuxTheorems.OutcomeIsTheStream | rust/src/mux.rs:158-202 | in every run, with no condition on other clients, a response is the stream and a server error its first ERROR; closed means closed with neither, for a lazy client always and for a Rust one that nobody displaced |
| MuxTheorems.ResponseIsTheStream | rust/src/mux.rs:158-202 | in every run a request that returns Ok returns exactly its stream's frames since registration, in order, through the first EOS, whatever the others do |
| MuxTheorems.ToldClosedIff | rust/src/mux.rs:176-199 | a waiting client with nothing queued on an open connection is told closed if and only if it is a Rust one whose id another client registered or removed |
| MuxTheorems.DisplacedStarves | python/src/brain_db_sdk/mux.py:283-300 | a displaced client gets no further frame in any run |
| MuxRoutes.RecordIsFixed | rust/src/mux.rs:116-124 | over any run the point a registered client counts from, its id, and its outcome once decided, never change |
| MuxTheorems.ClosedForever | rust/src/mux.rs:206-212 | after the reader fails the table stays empty, nothing more comes in, and whoever had not registered is refused having written nothing |
| MuxTheorems.DrainSettles | python/src/brain_db_sdk/mux.py:302-325 | after the failure, draining its queue ends a waiting request by what it has, except a lazy one the failing reader did not find in the table, which waits on |
| MuxTheorems.UndisplacedSettles | typescript/src/mux.ts:65-97 | in every run a request nobody displaced is then settled by its whole stream: complete if EOS came and no ERROR precedes it, else the server's error or the failure |
| MuxTheorems.RoutesAreLive | rust/src/mux.rs:126-132 | in every run table keys are ids of unfinished requests, undropped subscriptions and dropped Rust futures, no eager route outlives its EOS, and whoever returned otherwise is out of the table |
| MuxTheorems.DroppedFutureIff | rust/src/mux.rs:592-641 | a Rust request whose future was dropped keeps its route if and only if the connection is open, its stream has not ended, and nobody else took or removed the entry |
| MuxModes.ModesAgree | python/src/brain_db_sdk/mux.py:254-300 | removing routes at EOS (Rust) and in `finally` (Python, TypeScript) stay in step on any id that one client at a time holds, whatever happens on others |
| MuxModes.SameOutcomes | typescript/src/mux.ts:196-215 | so each request with its id to itself ends the same way, at the same point, under both |
| MuxWire.OutboundDecodes | rust/src/mux.rs:139-149 | for every interleaving of writers and heartbeat replies, the outbound bytes decode to the written frames in lock order; each request frame is its client's only one, carries that client's id, opcode and payload, and is within both caps |
| MuxWire.InboundIsDelivered | rust/src/mux.rs:592-641 | the machine's inbound log is what the reader delivered before it failed |
| MuxWire.ResponseFromBytes | rust/src/mux.rs:581-642 | in every run whose reader delivers the ideal parse of the inbound bytes, a response is a cut of that parse restricted to the stream |
| MuxEffects.Starts | rust/src/mux.rs:340-374 | in every run a new client takes the next odd id, or stream 0, and holds nothing |
| MuxEffects.Registers | rust/src/mux.rs:116-124 | on an open connection the client owns its id's entry and no other entry moves; on a closed one it is refused with the reader's reason |
| MuxEffects.WritesIff | rust/src/mux.rs:139-149 | a registered request goes out as one EOS frame of its own and waits if and only if its payload is within 2^24-1 and the advertised size, 0 meaning unset, and the socket takes it; otherwise nothing is written and the write failed |
| MuxEffects.Delivers | rust/src/mux.rs:616-627 | a frame of a routed client's stream goes to the end of its queue, and flags with 0x80 take a Rust route out |
| MuxEffects.AnswersPing | rust/src/mux.rs:595-615 | a SERVER_PING on an open connection is answered with exactly one CLIENT_PONG on stream 0 carrying the reply, and reaches no client |
| MuxEffects.Collects | rust/src/mux.rs:186-199 | an ERROR frame is the outcome; any other is collected, and ends the response exactly if its flags have 0x80 |
| MuxEffects.TimesOut | rust/src/mux.rs:176-184 | the deadline ends every waiting request, on its own stream or on stream 0 |
| MuxEffects.Drops | rust/src/mux.rs:565-577 | any client without an outcome can be dropped, and which drops remove the route |
| MuxEffects.DropsSubscription | rust/src/mux.rs:565-577 | a subscription handle dropped while it waits is out of the table, in every client |
| MuxEffects.Finishes | rust/src/mux.rs:158-202 | returning finishes a client with its outcome and takes out its own entry exactly where that client does |
| MuxEffects.Fails | rust/src/mux.rs:632-638 | the reader's failure records the reason, empties the table and marks exactly the queues found in it |
| MuxEffects.StreamIsAnswered | rust/src/mux.rs:158-202 | in every run, once the stream of an undisplaced waiting request holds an EOS with no ERROR up to it, draining returns exactly those frames, and an ERROR that came first is returned |
| MuxCases.OverlappingPings | rust/src/mux.rs:365-374 | a run, in both modes, in which the second of two overlapping requests on stream 0 gets the one answer and the first is told closed (Rust) or waits on |
| MuxCases.OneRequest | rust/src/mux.rs:158-202 | a whole request in every client: out on stream 1, completed by its EOS frame, route gone |
| MuxCases.TimeoutTakesRoute | typescript/src/mux.ts:231-249 | a run, in both modes, in which the first one's timeout drops the second one's answer |
| MuxCases.DroppedFuture | rust/src/mux.rs:158-202 | a run in which a dropped request leaves its route in Rust and not in the others |
| MuxCases.DroppedThenOvertaken | rust/src/mux.rs:116-124 | a run in which a dropped Rust request's route was taken by a later one |
| MuxConnection.Connection.StartRequest | rust/src/mux.rs:340-374 | takes an id, or stream 0, for a new client |
| MuxConnection.Connection.RegisterRoute | rust/src/mux.rs:116-124 | refuses on a closed table, else adds the route |
| MuxConnection.Connection.WriteRequest | rust/src/mux.rs:139-149 | checks the caps, then appends the whole frame to the outbound log or fails |
| MuxConnection.Connection.ReceiveOne | rust/src/mux.rs:176-199 | takes one frame: ERROR ends, EOS completes, anything else is collected; a dry closed channel ends |
| MuxConnection.Connection.TimeOut | rust/src/mux.rs:178-184 | a request that waits gives up |
| MuxConnection.Connection.Abandon | rust/src/mux.rs:565-577 | a caller is dropped; a subscription handle takes its route with it |
| MuxConnection.Connection.Finish | python/src/brain_db_sdk/mux.py:172-174 | the return path removes the route where that client does |
| MuxConnection.Connection.HandleFrame | rust/src/mux.rs:592-631 | heartbeats are answered, frames go to their route, and an eager reader drops the route at EOS |
| MuxConnection.Connection.FailAll | rust/src/mux.rs:632-641 | keeps the first reason, marks or drops every channel and empties the table |
| MuxConnection.Drive | rust/src/mux.rs:581-642 | the object goes through exactly the machine's states |
| Sse.Subscription.NoteField | rust/src/http/sse.rs:130-149 | a comment or a field line changes the frame being built as the line function says |
| Sse.Subscription.TakeFrame | rust/src/http/sse.rs:109-153 | drains complete lines until one dispatches; each pass shrinks the buffer |
| Sse.Subscription.NextItem | rust/src/http/sse.rs:79-106 | for every split of the body, each call yields the next dispatch of the whole body with the id current at its blank line, then ends or breaks once |
| Sse.TakeThenMore | rust/src/http/sse.rs:79-153 | draining a frame commutes with bytes arriving behind it |
| Sse.RememberedIsLatest | rust/src/http/sse.rs:141 | the remembered id is that of the newest complete `id` line, delivered block or not |
| SseResume.RememberedIsDeliveredIff | rust/src/http/sse.rs:65-73 | it is the last delivered event's if and only if no `id` line follows that event's blank line, or the newest one there has the same value |
| SseResume.NothingDelivered | rust/src/http/sse.rs:65-73 | with nothing delivered yet there is none remembered if and only if no `id` line came |
| SseResume.ReadOut | rust/src/http/sse.rs:71-106 | a feed read to its end, for every split, gives the body's events in order, and leaves the id of the last one exactly under that condition |
| SseResume.RunsAhead | rust/src/http/sse.rs:141 | a body that delivers nothing and leaves an id remembered |
| Sse.DispatchIdIsLatest | rust/src/http/sse.rs:119-141 | a dispatch's id is the newest `id` line above its blank line |
| SseStandard.SameLines | rust/src/http/sse.rs:110-117 | if every CR is followed by LF, splitting at LF and dropping one CR gives the standard's lines |
| SseStandard.Agreement | rust/src/http/sse.rs:109-153 | from any matching point the two parsers agree exactly when no block to come starts with an empty data line |
| SseStandard.AgreesWithStandard | rust/src/http/sse.rs:109-153 | on whole bodies: same event types and data if and only if no dispatched block has an empty first data line, and then the same ids if none holds NUL |
| SseStandard.LoneCrDiffers | rust/src/http/sse.rs:110-117 | an input with CR line ends on which they differ |
| SseBom.MarkedAgrees | rust/src/http/sse.rs:109-153 | on a body with a byte order mark they read the same types and data if and only if the first line is idle: not data unless its block never ends, not the name of what its block dispatches, and no later block starts with an empty data line |
| SseBom.BomDiffers | rust/src/http/sse.rs:109-153 | an input with a byte order mark on which they differ |
| SsePrint.PrintThenParse | rust/src/http/sse.rs:109-153 | events printed with comments anywhere and any mix of LF and CRLF parse back to themselves exactly when all data is non-empty and starts with a non-empty line |
| Retry.BackoffValue | rust/src/retry.rs:106-122 | overflow of the duration never shows: the backoff is the capped product for the capped shift |
| Retry.BackoffIsIdeal | rust/src/retry.rs:106-122 | it is min(base 2^(n-1), max) if and only if n <= 32 or base 2^31 >= max |
| Retry.BackoffGrows | rust/src/retry.rs:106-122 | the schedule never shrinks and never passes the cap |
| Retry.IdealDoubles | rust/src/retry.rs:113-121 | the ideal wait starts at the base delay and doubles up to the cap |
| Retry.RetryableIff | rust/src/error.rs:95-106 | exactly which errors are worth another try |
| Retry.JitterInRange | rust/src/retry.rs:34-56 | the sleep lies in [floor, delay], and reaches the delay only when floor and delay meet |
| Retry.JitterReaches | rust/src/retry.rs:34-56 | every nanosecond of that range within 64 bits is picked by some draw |
| Retry.StepWait | rust/src/retry.rs:128-145 | under a hint the sleep is exactly min(hint, max); otherwise it is within the ideal schedule, strictly below it unless that is zero |
| Retry.StepReaches | rust/src/retry.rs:128-145 | with attempts left and no hint, a draw below the ideal wait is itself the wait, so every wait below it happens |
| Retry.StepDraws | rust/src/retry.rs:128-145 | and every draw gives its remainder by the ideal wait |
| Retry.StepHints | rust/src/retry.rs:128-145 | with a hint the wait is the hint up to the cap; with no base delay the next try goes straight out |
| Retry.HintHonored | rust/src/retry.rs:24-33 | the server's hint is waited out if and only if it is within the cap |
| Retry.WithRetry | rust/src/retry.rs:163-183 | the operation runs to its first success, final error or the limit, between 1 and max(1, max_attempts) times; the sleeps are the policy's and total at most (calls-1) max_delay |
| Retry.JitterRealInRange | python/src/brain_db_sdk/retry.py:34-45 | the same range for the uncapped clients |
| Retry.JitterRealReaches | typescript/src/retry.ts:79-83 | every point of that range is picked by some draw |
| Retry.SleepWait | python/src/brain_db_sdk/retry.py:84-101 | and the same two facts about their sleep |
| Retry.SleepReaches | python/src/brain_db_sdk/retry.py:84-101 | without a hint every sleep below the schedule's delay is slept for some draw |
| Retry.SleepHints | python/src/brain_db_sdk/retry.py:84-101 | with a hint the sleep is the hint up to the cap |
| Retry.SchedulesAgree | typescript/src/retry.ts:52-63 | the Rust backoff in seconds equals theirs if and only if there is a hint, no base delay, n <= 32 or base 2^31 >= max |
| Retry.WithRetrySeconds | python/src/brain_db_sdk/retry.py:104-123 | the Python loop stops at the same call and obeys the same bounds |
| Retry.LastCallIsUnique | typescript/src/retry.ts:95-120 | given the errors an operation would meet, the loops stop at one and the same call |
| Retry.KeepsTrying | rust/src/retry.rs:163-183 | against an operation that always fails in a way worth retrying, every attempt is used |
| RetryOutcomes.RetriedIff | rust/src/error.rs:95-106 | exactly which endings each client retries |
| RetryOutcomes.HintCarried | rust/src/error.rs:158-166 | a server error carries its hint into the retry |
| RetryOutcomes.BrokenConnectionRetriedIff | rust/src/mux.rs:206-212 | a request that ended with a broken connection is retried by Python always, by TypeScript unless the bytes did not decode, and by Rust never |
| RetryOutcomes.SdksAgreeIff | typescript/src/errors.ts:107-123 | the three agree on retrying an outcome if and only if it is neither a broken connection nor a write that failed on the socket |
| RetryOutcomes.RustRetriesDisplaced | rust/src/error.rs:95-106 | in every run a Rust request told the connection closed is retried exactly if the connection was open, and then another request had displaced it |
| PoolSpec.MoveKeeps | rust/src/pool.rs:146-161 | every allowed move keeps: each connection opened is in one slot or retired once, and dials are only for dead ones |
| PoolSpec.RunKeeps | rust/src/pool.rs:146-161 | over whole runs too, and a connection alive at the end never lost its slot |
| PoolSpec.RetiredOnce | rust/src/pool.rs:146-161 | no connection is replaced twice, however many callers found it dead |
| LockedPool.StepRefines | rust/src/pool.rs:146-161 | each atomic step of the double-checked reconnect is one move of the specification |
| LockedPool.PoolIsSafe | python/src/brain_db_sdk/pool.py:115-143 | for any callers and interleaving: at most one dial per slot, only for a dead connection, live connections kept, books balanced |
| LockedPool.ServedAlive | rust/src/pool.rs:146-161 | what is handed out was alive when last looked at or is the caller's own new connection in its slot |
| LockedPool.CallersInTurn | rust/src/pool.rs:120-123 | the k-th caller is sent to the slot of ticket k, counter wrap included |
| PoolProgress.FailsOnlyBy | rust/src/pool.rs:146-161 | a caller fails only by a failed dial or by being dropped, and only its own events move it |
| PoolProgress.LiveIsServed | rust/src/pool.rs:147-151 | a caller whose slot's connection is open is served it |
| PoolProgress.DeadQueues | rust/src/pool.rs:152 | a caller that looked at a dead connection queues for the slot's lock |
| PoolProgress.WaiterDials | rust/src/pool.rs:152-158 | at a free lock it gets in, and dials if the connection is dead by then or is served the replacement |
| PoolProgress.DialServes | rust/src/pool.rs:158-160 | a dial that succeeds puts the new connection in the slot, serves it and frees the lock |
| PoolProgress.FailureFrees | rust/src/pool.rs:158 | one that fails, or a dropped dialer, fails its caller, frees the lock and leaves the slot |
| PoolProgress.LockIsFreed | python/src/brain_db_sdk/pool.py:133-143 | no lock is stuck: its holder's own next steps, at most four, serve it and free the lock |
| PoolProgress.DeadIsReplaced | rust/src/pool.rs:146-161 | from the look at a dead connection to the new one, by the caller's own steps |
| SharedPool.StepRefines | typescript/src/pool.ts:94-116 | each step of the shared-promise reconnect is one move of the same specification |
| SharedPool.PoolIsSafe | typescript/src/pool.ts:94-116 | for any calls and settlements: at most one attempt in flight per slot, only for a dead connection, live connections kept, books balanced |
| SharedPool.CallGives | typescript/src/pool.ts:94-116 | a call gives the open connection of its ticket's slot, or a share in that slot's one attempt, the one in flight or a new one |
| SharedPool.SettleGives | typescript/src/pool.ts:105-113 | an attempt settles to the connection put in its slot or to a failure, and the slot can then be dialed again |
| SharedPool.CallersInTurn | typescript/src/pool.ts:94-97 | in every run callers are sent to the slots in turn, and share only their own slot's attempts |
| SharedPool.SettlesOnce | typescript/src/pool.ts:105-115 | a settled attempt keeps its outcome, so all who joined it get the same |
| SharedPool.Pool.GetHealthy | typescript/src/pool.ts:94-116 | up to its first await: the open client, the attempt in flight, or a new attempt others will find |
| SharedPool.Pool.Settle | typescript/src/pool.ts:105-113 | installs the new client or not, and clears the slot's promise either way |
| SharedPool.Pool.Drive | typescript/src/pool.ts:94-116 | the object goes through exactly the machine's states |
| PoolObject.SlotPool.LookAgain | rust/src/pool.rs:152-157 | the look under the lock: serve and unlock, or dial |
| PoolObject.SlotPool.Dialed | rust/src/pool.rs:158-160 | swaps the new connection in, or fails and unlocks |
| PoolObject.SlotPool.Drive | rust/src/pool.rs:146-161 | the object goes through exactly the machine's states |
| PoolTickets.EachSlotOnce | rust/src/pool.rs:120-123 | n consecutive tickets go to n different slots if and only if the counter does not wrap among them or n divides the wrap |
| PoolTickets.EverySlotVisited | typescript/src/pool.ts:76-80 | and then every slot is some ticket's |

## Left out

- Sockets, TLS, threads, the async runtimes, timers and clocks: events or parameters.
- CBOR, JSON and UTF-8: payloads, error bodies and feed data are bytes; decoders are not modelled beyond whether a handshake body decodes. A request's server error carries the ERROR frame. The lossy UTF-8 decoding of a feed line cannot move a line end, a colon or a leading space.
- Payload structs, opcode and error-code tables, client verbs and builders: declarations and one-line wrappers.
- `derive_space_id`: the hash it rests on is not part of this model.
- HTTP retry, percent-encoding and error-body shaping: small repeats of the cores above.
- The HELLO and AUTH frames a client sends, whose bodies are CBOR: the handshake is modelled from what it reads.
- Handshake deadlines, and the Python and TypeScript handshakes, which run over route 0 of the multiplexer: only the Rust handshake, which reads inline, is modelled.
- MuxConnection.Connection.HandleFrame: answers no heartbeat once the connection is closed, as in Rust and Python; the TypeScript pump still does, which is in `FramePump` and not in this machine.
- FrameErrors.CorruptedHeaderWindow: a window across the edge of the checksum field is not covered, because the covered and the stored bytes change together there and no burst argument applies; single bytes and odd numbers of flipped bits there are covered.
- Timeouts of subscriptions: a TypeScript timeout ends the subscription, a Python one does not; the machine lets only requests time out.
- The order of TypeScript's closed check and id allocation: it looks at the closed error first, so a refused request takes no id there; the machine allocates first, as Rust and Python do.
- A subscription's `unsubscribe`: it is a request on a fresh stream, which the machine has, followed by a drop, which it has too.
- MuxWire.OutboundDecodes: a write that fails inside a frame, or a Rust request dropped inside its write, leaves no bytes in the machine, although the source can leave part of a frame with later writers behind it. Everything in front of the torn frame still decodes (`FrameStream.ParseWire`, `FrameStream.ParseTornWrite`); what the peer makes of the rest is not modelled.
- Dropping the Rust `MuxConnection`: it stops the reader without closing the table, so a subscription that outlives the connection waits for ever; the machine's reader ends only by failing.
- SseStandard.AgreesWithStandard: bodies with a CR that is not directly before LF are excluded, because there the two can differ (`SseStandard.LoneCrDiffers`); on which of them they still agree is not characterised. Bodies with a byte order mark are `SseBom.MarkedAgrees`.
- Retry.JitterInRange: the SplitMix64 mixing of the clock is not modelled; the draw is any 64-bit number, and nothing is said about its distribution.
- Retry.JitterRealInRange: exact reals instead of floating point, where rounding can reach the upper end.
- Retry.SleepWait: exact reals instead of floating point, so neither rounding nor the float overflow of a huge Python power is modelled.
- Opening and closing a pool, `get`, and the Python pool built without connect parameters: no reconnect takes place there. Tickets of `get` count like those of `get_healthy`.
- TypeScript's pool counter stops being exact above 2^53 calls; the model's does not.
