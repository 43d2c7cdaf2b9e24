# libroqr, verified

libroqr carries RTMP over QUIC. This project models the parts of it that hold state or parse untrusted bytes, and proves what
they keep over every input and every run. All of it is Dafny 4.11; `dafny verify dfyconfig.toml` covers the whole project.

How the files follow the program:

| component | files |
|---|---|
| octets, integers, sums over maps | `Bytes`, `MapSum` |
| RTMP chunk layer (sections 5.3.1, 5.4.1 and 5.4.2 of Adobe's RTMP 1.0 specification) | `ChunkFormat`, `ChunkReader`, `ChunkWriter`, and the laws in `ChunkFragmentation`, `ChunkBudget`, `ChunkHistory`, `ChunkVerdict`, `ChunkDelivery`, `ChunkSession` |
| varints (section 16 of RFC 9000) and RoQR frames (sections 5 and 7 of draft-gregoire-rtmp-over-quic) | `Varint`, `Frame`, `FrameStream`, `FrameDelivery` |
| flow table and the client's receive path | `FlowTable`, `Receiver` |
| gateway bridge and the whole way of a message | `EndToEnd` |
| AMF0 (section 2 of the AMF0 specification) | `Amf0`, `Amf0Codec`, `Amf0Grammar`, `Amf0Laws` |
| connection supervisor | `Supervisor`, `SupervisorInvariants`, `SupervisorProgress`, `SupervisorBooks`, `SupervisorPacing`, `Backoff` |
| media policy of the gateways | `Classify`, `Delivery`, `MediaOctets`, `PlayerQueue`, `GapTracker` |

Objects that the program updates in place are classes whose methods are proved against functions on snapshots; the laws are
lemmas about those functions, over whole runs. The supervisor is a transition system with a program counter per thread,
because its promises are about interleavings.

## What the proofs say about the code

Some promises hold only under a condition, and the condition is stated exactly:

- The chunk writer accepts payloads up to 0xFFFFFF octets, the reader stops at 8 MiB; and `write` sends a Set Chunk Size message
  without changing the writer's own chunk size. A write keeps both ends in step if and only if the payload is at most 8 MiB and
  a Set Chunk Size payload repeats the current size (`ChunkSession.WriteKeepsSyncIff`).
- The AMF0 encoder does not reject empty names, names over 65535 octets, repeated names or lengths over 32 bits. A value comes
  back from its encoding if and only if it has none of these and nests at most 32 levels (`Amf0Laws.RoundTripIff`).
- The comment above `compute_backoff` says the doubling can never overflow. It cannot, and the delay is the promised one, if and
  only if the maximum backoff is at most 2^62 milliseconds (`Backoff.BackoffExactIff`; `Backoff.FailsAbove` gives the inputs).
- The comment of `PlayerQueue::push` speaks of dropping an incoming Coded message when only Init entries are queued. The code
  drops an incoming message of either kind then, and only then (`PlayerQueue.RefusedIff`).

Where code and documentation disagree the model follows the code: `write` refuses a payload of exactly 16 MiB although the header
comment says it refuses more than 16 MiB; a fmt0 chunk sets the stored delta to 0, so that a message started by fmt3 repeats the
timestamp.

Two more facts come out of the proofs: the clean-up after the supervisor's run loop never finds a client
(`SupervisorInvariants.ExitFindsNoClient`), and the reader's saturating subtractions never saturate (`ChunkBudget.Replace`,
`ChunkBudget.FinalizeBudget`).

The chunk reader is proved against a peer that may open a message with any header format its last header permits; the writer,
which uses format 0 first and format 3 after, is one such peer (`ChunkSession.WritingIsRun`). For bytes from any other peer,
`ChunkVerdict` tells the reader's state, messages and failure from the chunks it consumed, without the reader's own fields.

The wire formats are stated apart from the code that prints and parses them, with the literals of their specifications: chunk
headers (`ChunkHistory.BasicForm`, `ChunkHistory.HeaderOctets`), varints (`Varint.Form`), frame headers (`Frame.Fields`), AMF0
(`Amf0Grammar.Print`, `Amf0Grammar.Meaning`) and media payloads (`MediaOctets.VideoIs`, `MediaOctets.AudioIs`).

## Model

| member | source | states |
|---|---|---|
| `ChunkReader.Reader.constructor` | rtmp/include/roqr/rtmp/chunk_reader.hpp:48-56 | A new reader is empty, has chunk size 128 and satisfies the budget invariant. |
| `ChunkReader.Reader.Feed` | rtmp/src/chunk_reader.cpp:24-28 | The object becomes the one-shot parse of its old buffer followed by the data; a failed reader ignores input; the budget invariant holds; after a non-failing feed fewer than 8 MiB + 18 raw octets remain. |
| `ChunkReader.Reader.Next` | rtmp/src/chunk_reader.cpp:30-35 | Takes the oldest ready message and nothing else, or None when there is none. |
| `ChunkReader.Reader.ParseAll` | rtmp/src/chunk_reader.cpp:72-199 | The loop ends in exactly the state, rest and messages of the recursive `Parse`. |
| `ChunkReader.Reader.ParseChunk` | rtmp/src/chunk_reader.cpp:74-98 | One pass of the loop is one `Step`: three basic header lengths, the lookup that creates a stream entry, and the verdict wait, reject or advance. |
| `ChunkReader.Reader.ParseBody` | rtmp/src/chunk_reader.cpp:95-197 | From the known message header on: missing context, both size caps, incomplete body and commit, each with its whole new state. |
| `ChunkReader.Reader.ParseHeader` | rtmp/src/chunk_reader.cpp:100-129 | The four header formats with inherited fields and extended timestamps, read without touching the stream. |
| `ChunkReader.Reader.TakeChunk` | rtmp/src/chunk_reader.cpp:158-197 | Header fields, delta arithmetic modulo 2^32, assembly and budget after a complete chunk. |
| `ChunkReader.Reader.FinishMessage` | rtmp/src/chunk_reader.cpp:37-70 | A finished assembly leaves its stream; Set Chunk Size and Abort take effect; an illegal chunk size fails the reader without surfacing the message. |
| `ChunkFragmentation.StepStable` | rtmp/src/chunk_reader.cpp:72-199 | More input never changes a verdict already reached, and after waiting on a prefix the reader continues as if it had seen everything at once, so no header is applied twice. |
| `ChunkFragmentation.ParseConcat` | rtmp/src/chunk_reader.cpp:24-28 | For all byte strings, feeding a and then b gives the state, messages and rest of feeding a + b. |
| `ChunkReader.FragmentationIndependence` | rtmp/src/chunk_reader.cpp:24-35 | For every cut into feed calls interleaved with next: messages handed out plus queued, failed flag, chunk size, budget counter and every per-stream state equal those of one feed, and so does the raw buffer unless the reader failed. |
| `ChunkBudget.StepBudget` | rtmp/src/chunk_reader.cpp:131-197 | Every step on every input keeps: counter equals the sum over streams of buffered plus remaining octets, at most 32 MiB, each stream at most 8 MiB, chunk size legal; a waited-for chunk bounds the raw buffer. |
| `ChunkBudget.ParseBudget` | rtmp/src/chunk_reader.cpp:72-199 | The same after a whole parse of any bytes. |
| `ChunkBudget.Replace` | rtmp/src/chunk_reader.cpp:58-66 | How the sum moves when one stream changes; what a stream holds is at most the sum, so the Abort subtraction never saturates. |
| `ChunkBudget.FinalizeBudget` | rtmp/src/chunk_reader.cpp:37-45 | Finishing a message keeps the budget, and its subtraction never saturates. |
| `ChunkVerdict.FailsExactly` | rtmp/src/chunk_reader.cpp:47-150 | For every byte string, a new reader fails if and only if the last chunk it consumed completes a Set Chunk Size of 0 or with the top bit set, or the chunk it stopped at has format 3 with no chunk of its stream consumed since the start or the last Abort naming it, or that chunk starts a message over 8 MiB or one that takes the total over 32 MiB. |
| `ChunkVerdict.FedReaderFailsExactly` | rtmp/src/chunk_reader.cpp:24-35 | The same, with the messages, for a reader fed in arbitrary pieces between next calls. |
| `ChunkVerdict.ReaderFollowsChunks` | rtmp/src/chunk_reader.cpp:72-197 | For every byte string, what was consumed is octet for octet a sequence of regular chunks; every field of every chunk stream is the one the last chunk carrying it gave; timestamps add up deltas; messages, chunk size, context after an Abort and assemblies follow from those chunks alone. |
| `ChunkVerdict.BasicIff` | rtmp/src/chunk_reader.cpp:76-89 | Every basic header of one, two or three octets, shortest form or not, is read as its octets say. |
| `ChunkVerdict.BasicShortest` | rtmp/src/chunk_writer.cpp:29-42 | The writer's basic header is well formed and no form of the same id is shorter. |
| `ChunkWriter.Writer.constructor` | rtmp/include/roqr/rtmp/chunk_writer.hpp:15-17 | Chunk size 0 means 128, any other size is taken. |
| `ChunkWriter.Writer.Write` | rtmp/src/chunk_writer.cpp:44-69 | True exactly for chunk stream ids 2 to 65599 and payloads up to 0xFFFFFF octets; then the message's chunks are appended, otherwise nothing. |
| `ChunkWriter.Writer.WriteChunks` | rtmp/src/chunk_writer.cpp:48-68 | The loop appends a fmt0 chunk and fmt3 continuations that cut the payload at the chunk size, extended timestamps repeated. |
| `ChunkWriter.Writer.SetChunkSize` | rtmp/src/chunk_writer.cpp:71-81 | A legal size is announced with the old chunk size and then adopted; an illegal one changes nothing. |
| `ChunkWriter.SizeOctets` | rtmp/src/chunk_writer.cpp:71-81 | The octets of the announcement: a format 0 header on chunk stream 2 with time 0, length 4, type 1 and message stream 0, then the size, cut at the old chunk size. |
| `ChunkDelivery.HeaderRoundTrip` | rtmp/src/chunk_reader.cpp:76-129 | The reader recovers every field of every chunk header in each of the four formats, for all ids and timestamps, inherited fields taken from the stream; format 0 first and format 3 after is what the writer prints. |
| `ChunkDelivery.CommitCarries` | rtmp/src/chunk_reader.cpp:156-184 | Once a chunk in any of the four formats is committed, the stream holds exactly the octets sent so far and the message's own timestamp and header fields; the stored delta is 0 after format 0, the one sent after formats 1 and 2, and kept by format 3. |
| `ChunkDelivery.ChunkDelivered` | rtmp/src/chunk_reader.cpp:94-197 | Whatever bytes follow, the next chunk of a sender that may use any header format its last header on the chunk stream permits is consumed whole, completes exactly the message it ends, and keeps sender and reader in agreement. |
| `ChunkDelivery.InterleavedDelivery` | rtmp/src/chunk_reader.cpp:72-199 | For every interleaving of chunks of any messages on different chunk streams, in any mix of the four header formats (timestamps sent as deltas, repeated deltas, extended), Set Chunk Size and Abort included, within the caps: each message arrives intact with its timestamp, once, in the order of last chunks; nothing is left over; both ends agree about chunk size, last headers and every message in progress. |
| `ChunkSession.InterleavedSession` | rtmp/src/chunk_reader.cpp:24-199 | The same for a fresh reader fed in arbitrary pieces between next calls. |
| `ChunkSession.ChunkTouchesOneStream` | rtmp/src/chunk_reader.cpp:54-67 | On every input, a chunk changes no other chunk stream unless it completes an Abort naming it, which discards that stream's assembly. |
| `ChunkSession.NeverAnnouncesIllegal` | rtmp/src/chunk_reader.cpp:47-53 | No parse of any bytes surfaces a Set Chunk Size message with an illegal size. |
| `ChunkSession.WriteDelivered` | rtmp/src/chunk_writer.cpp:44-69 | A written message is read back unchanged, and the reader ends with the chunk size the message implies and no assembly left. |
| `ChunkSession.WriteKeepsSyncIff` | rtmp/src/chunk_writer.cpp:44-69 | Exactly when a write the writer accepts is delivered with both ends still in step. |
| `ChunkSession.SessionDelivered` | rtmp/src/chunk_writer.cpp:44-81 | For every mix of write and set_chunk_size calls and every cut of the bytes: the accepted messages and the control messages come out in order, chunk sizes agree at the end, nothing is left over. |
| `Varint.EncodeInto` | core/src/varint.cpp:13-28 | Fills the span with the shortest encoding and returns its length, or returns 0 and leaves the span alone when the value or the span does not fit. |
| `Varint.DecodeFrom` | core/src/varint.cpp:30-40 | The accumulating loop yields the masked big-endian value and its length, or None while octets are missing. |
| `Varint.RoundTrip` | core/src/varint.cpp:5-40 | Decoding an encoding, wherever it stands, gives the value and its size. |
| `Varint.Shortest` | core/src/varint.cpp:5-40 | Of all encodings the decoder accepts for a value, the encoder's is the shortest. |
| `Varint.DecodeIff` | core/src/varint.cpp:30-40 | The decoder accepts exactly the four forms of section 16 of RFC 9000, each with its value. |
| `Frame.HeaderIff` | core/src/frame.cpp:28-47 | A header is read if and only if the octets are flow id, timestamp, type octet, message stream id, chunk stream id and length, in this order and in those forms. |
| `Frame.DatagramLayout` | core/src/frame.cpp:77-86 | A datagram is accepted as f if and only if it is such a header followed by exactly f's payload, which is not empty. |
| `Frame.HeaderRoundTrip` | core/src/frame.cpp:28-47 | A printed frame header is parsed back, whatever follows. |
| `Frame.DatagramRoundTrip` | core/src/frame.cpp:59-86 | Datagram decoding inverts frame encoding on every encodable frame. |
| `Frame.DatagramCanonical` | core/src/frame.cpp:77-86 | For all bytes: an accepted datagram is an encodable frame whose encoding is no longer and decodes to it again. |
| `FrameStream.AppendVarint` | core/src/frame.cpp:7-13 | Appends the encoding exactly when the value fits 62 bits. |
| `FrameStream.FrameEncode` | core/src/frame.cpp:59-75 | True exactly for encodable frames; then the encoding is appended, otherwise the vector is as before. |
| `FrameStream.Decoder.constructor` | core/src/frame.cpp:88-88 | A new decoder is empty and not malformed. |
| `FrameStream.Decoder.Feed` | core/src/frame.cpp:90-94 | The object becomes the one-shot parse of its old buffer followed by the data; a malformed decoder ignores input. |
| `FrameStream.Decoder.Next` | core/src/frame.cpp:96-101 | Takes the oldest ready frame and nothing else. |
| `FrameStream.Decoder.ParseAll` | core/src/frame.cpp:103-124 | The loop ends in exactly the frames, rest and malformed flag of the recursive `Parse`. |
| `FrameStream.FragmentationIndependence` | core/src/frame.cpp:90-124 | However bytes are cut into feed calls between next calls, the decoder ends where one feed of all bytes ends. |
| `FrameDelivery.StreamParsed` | core/src/frame.cpp:103-124 | At every moment of a stream of acceptable frames that may end in an illegal header: exactly the complete frames, malformed exactly once that header is complete, nothing afterwards. |
| `FrameDelivery.StreamDelivered` | core/src/frame.cpp:90-124 | The same for a decoder fed in arbitrary pieces. |
| `FrameDelivery.FramesDelivered` | core/src/frame.cpp:59-124 | Encoded frames come out in order, nothing is left over and nothing is malformed. |
| `FrameDelivery.DatagramIffSoleFrame` | core/src/frame.cpp:77-124 | A datagram is accepted as f, within the cap, if and only if a fresh stream decoder yields f, only f, and keeps nothing. |
| `EndToEnd.BridgeRoundTrip` | gateway/src/bridge.cpp:5-28 | `to_rtmp` accepts a frame as m if and only if the frame is `to_frame` of m, that is, if and only if every field equals its counterpart. |
| `EndToEnd.MessagesSurvive` | gateway/src/bridge.cpp:5-28 | Every list of non-empty messages of at most 8 MiB and a type other than 1 survives write, dechunk, to_frame, frame_encode, stream decode, to_rtmp, write and dechunk unchanged and in order, with chunk sizes set at any point and every hop cut arbitrarily. |
| `FlowTable.Partition` | core/src/flow_table.cpp:37-49 | Removing one flow's frames keeps every other flow's in order and frees exactly their octets. |
| `FlowTable.FlowTable.constructor` | core/src/flow_table.cpp:5-8 | Only flow 0 is bound and nothing is buffered. |
| `FlowTable.FlowTable.Activate` | core/src/flow_table.cpp:10-15 | Fails exactly for retired flows; otherwise the flow is active and nothing else changes. |
| `FlowTable.FlowTable.Retire` | core/src/flow_table.cpp:17-20 | The flow is retired and its buffered frames are gone, counter included. |
| `FlowTable.FlowTable.BufferUnknown` | core/src/flow_table.cpp:27-35 | Buffers exactly when fewer frames than the limit wait and the waiting octets leave room for the payload; the counter stays exact and never underflows. |
| `FlowTable.FlowTable.TakeBuffered` | core/src/flow_table.cpp:37-49 | Returns the flow's frames in arrival order, keeps the others in order, and keeps the counter exact. |
| `Receiver.Client.GateAndDeliver` | quic/src/client.cpp:88-106 | Delivers, drops or buffers by flow state; overflow on a stream refuses the connection. |
| `Receiver.Client.Serve` | quic/src/client.cpp:196-205 | Binding delivers what was buffered, unless the flow was retired; retiring drops it. |
| `Receiver.Client.ServeAll` | quic/src/client.cpp:191-206 | The request loop is the sequence of its requests. |
| `Receiver.Client.OnStreamData` | quic/src/client.cpp:114-130 | Feeds the stream's decoder, gates every frame that became ready in order, notes malformed input, and forgets a finished stream. |
| `Receiver.Client.OnDatagram` | quic/src/client.cpp:297-305 | Gates the one frame of a well-formed datagram and ignores the others. |
| `Receiver.GatingTransparent` | quic/src/client.cpp:88-106 | For every history and flow: delivered is exactly the flow's arrivals before retirement if it was ever bound and nothing otherwise; the buffer is exactly the waiting frames of flows neither bound nor retired, in order of arrival; state follows the history. Exactly the arrivals of such flows that find the frame limit used up or too few octets left among the waiting frames are left out. |
| `Receiver.DeliveredExactly` | quic/src/client.cpp:191-206 | When every arrival finds room, the same about the whole history; retirement is final and the connection is not refused. |
| `Receiver.RefusedIff` | quic/src/client.cpp:96-104 | The connection is refused if and only if an arrival on a stream found no room among the waiting frames. |
| `Receiver.ReceiverTransparent` | quic/src/client.cpp:259-310 | The same for streams, datagrams, resets and requests in any order. |
| `Receiver.StreamsIndependent` | quic/src/client.cpp:114-130 | While a stream stays open its frames are those of one decoder fed all its bytes at once, whatever is interleaved. |
| `Receiver.DecoderKeptIff` | quic/src/client.cpp:114-130 | A decoder is kept exactly for the streams that have had data and are neither finished nor reset. |
| `Amf0Codec.PropertyBag.SetProperty` | rtmp/src/amf0.cpp:119-130 | Replaces the value of a present name in place, or appends. |
| `Amf0Codec.Append` | rtmp/src/amf0.cpp:138-187 | Appends the encoding of any value and changes nothing before it. |
| `Amf0Codec.AppendProps` | rtmp/src/amf0.cpp:46-53 | The property loop appends names, values and the end marker. |
| `Amf0Codec.AppendItems` | rtmp/src/amf0.cpp:168-174 | The element loop appends the elements in order. |
| `Amf0Codec.Reader.DecodeValue` | rtmp/src/amf0.cpp:245-311 | Succeeds exactly when the parser function does, with its value, ending at its position. |
| `Amf0Codec.Reader.DecodeLeaf` | rtmp/src/amf0.cpp:249-310 | The scalar markers, truncation and unknown markers, as the parser function reads them; the grammar law fixes which octets those are. |
| `Amf0Codec.Reader.DecodeProperties` | rtmp/src/amf0.cpp:229-243 | The property loop with duplicate-key replacement and the authoritative end marker. |
| `Amf0Codec.Reader.DecodeElements` | rtmp/src/amf0.cpp:284-294 | The element loop reads exactly the announced count or fails. |
| `Amf0Codec.DecodeOne` | rtmp/src/amf0.cpp:315-320 | Value and consumed count, or None. |
| `Amf0Codec.DecodeSequence` | rtmp/src/amf0.cpp:322-334 | Values until the bytes are used up, or None if any fails. |
| `Amf0Grammar.DecodeIffDerived` | rtmp/src/amf0.cpp:229-311 | For all bytes: a value is read from s[pos..end] if and only if the grammar of section 2 of the AMF0 specification derives it from those octets within 32 levels - literal markers, any non-zero octet true, any ECMA count, the last of repeated names in the place of the first. |
| `Amf0Laws.EncodeDerived` | rtmp/src/amf0.cpp:138-187 | The encoding of a well-formed value of legal depth is derived by the grammar with that value as its meaning. |
| `Amf0Laws.DecodeAllIffDerived` | rtmp/src/amf0.cpp:322-334 | For all bytes: amf0_decode_all returns values if and only if the bytes are consecutive derivations with those meanings, and nothing else. |
| `Amf0Laws.RoundTripIff` | rtmp/src/amf0.cpp:138-311 | For every value and suffix, decode of encode returns exactly the value and its length if and only if the value is well formed and nests at most 32 levels. |
| `Amf0Laws.TooDeepRejected` | rtmp/src/amf0.cpp:245-246 | A well-formed value that nests deeper is rejected. |
| `Amf0Laws.SelfDelimiting` | rtmp/src/amf0.cpp:245-320 | For all bytes: what n octets decode to, every extension decodes to, and no shorter prefix decodes. |
| `Amf0Laws.DecodeEncodeDecode` | rtmp/src/amf0.cpp:193-320 | Everything the decoder accepts is well formed and within the depth limit, and decodes again to the same value after re-encoding. |
| `Amf0Laws.DecodeAllIff` | rtmp/src/amf0.cpp:322-334 | `amf0_decode_all` inverts concatenated encodings if and only if every value is well formed and within the depth limit. |
| `SupervisorInvariants.StepKeeps` | gateway/src/connection_supervisor.cpp:50-238 | Every step of every thread keeps ownership, mutual exclusion, the drop signal, pending wakeups and the stop hand-over; once stopping is set, steps of the supervisor and of network threads lower a rank that no caller raises. |
| `SupervisorInvariants.DropSignalIsOwn` | gateway/src/connection_supervisor.cpp:73-100 | In every reachable state from the reset to teardown, drop_signaled holds exactly when the current client's on_closed has fired; at most one client still exists. |
| `SupervisorInvariants.StopReachesClient` | gateway/src/connection_supervisor.cpp:108-124 | Whenever the mutex is free, stopping with a published client implies close() was called on it. |
| `SupervisorInvariants.NeverStranded` | gateway/src/connection_supervisor.cpp:156-176 | If the supervisor sleeps although the drop is signalled or stop is requested, the thread responsible is about to notify it: no wakeup is lost. |
| `SupervisorInvariants.ExitFindsNoClient` | gateway/src/connection_supervisor.cpp:195-201 | At the final clean-up no client is left on any path. |
| `SupervisorProgress.NoDeadlock` | gateway/src/connection_supervisor.cpp:128-191 | In every reachable state, until the loop is done or unless it serves an idle connection, some thread can take an internal step; clients are joined only with the mutex released. |
| `SupervisorProgress.StopEndsRun` | gateway/src/connection_supervisor.cpp:229-238 | Once stopping is set, every run has at most Rank more supervisor and network steps, and when no internal step is left the loop has exited with every client destroyed. |
| `SupervisorBooks.Bookkeeping` | gateway/src/connection_supervisor.cpp:50-62 | In every reachable state: failed means exactly max_attempts consecutive failures since the last success and more are never made; reconnect_count is successes minus one or zero; connected implies a published client; a connection is torn down only after its own drop or a stop; the loop ends only by giving up or on stop. |
| `SupervisorBooks.SendExactly` | gateway/src/connection_supervisor.cpp:240-244 | In every reachable state send finds a connected client exactly from the success of an attempt until its teardown, and that client has not been destroyed. |
| `SupervisorPacing.WaitsAfterFailure` | gateway/src/connection_supervisor.cpp:50-62 | In every run, before a client is made after a failed attempt the wait began at that failure, the backoff timer fired for compute_backoff of the number of consecutive failures (counted in 32 bits), and at least that delay has passed. |
| `SupervisorPacing.NoWaitAfterDrop` | gateway/src/connection_supervisor.cpp:178-193 | In every run, between the end of a connection (or the start) and the next client there is no backoff. |
| `Backoff.ComputeBackoff` | gateway/src/connection_supervisor.cpp:35-44 | The doubling loop computes the delay function the laws are about. |
| `Backoff.BackoffExactIff` | gateway/src/connection_supervisor.cpp:32-44 | The delay is min(initial * 2^(attempts-1), max) for all non-negative inputs, and no doubling leaves 64 bits, if and only if max is at most 2^62. |
| `Backoff.FailsAbove` | gateway/src/connection_supervisor.cpp:32-44 | Inputs on which both promises fail when max is larger. |
| `PlayerQueue.Queue.Push` | gateway/src/player_queue.cpp:7-30 | Queues the message, evicting the oldest Coded entry when full; returns true exactly when open and nothing was dropped; the bound holds. |
| `PlayerQueue.Queue.Pop` | gateway/src/player_queue.cpp:32-39 | Takes the oldest message; None only when closed and drained. |
| `PlayerQueue.Queue.Clear` | gateway/src/player_queue.cpp:59-62 | Empties the queue without counting drops. |
| `PlayerQueue.Queue.Close` | gateway/src/player_queue.cpp:41-47 | Closes and keeps what is queued. |
| `PlayerQueue.EveryRun` | gateway/src/player_queue.cpp:7-62 | Over every run: never over the bound; popped in push order, once, unchanged; only Coded entries are evicted and always older ones than the Coded entries still queued; every message pushed while open is popped, queued, cleared, evicted or refused exactly once, and dropped counts the last two. |
| `PlayerQueue.RefusedIff` | gateway/src/player_queue.cpp:11-26 | A message is turned away exactly when the queue is full of Init entries. |
| `PlayerQueue.EvictedIff` | gateway/src/player_queue.cpp:11-26 | Over every run, a queued entry is dropped exactly by a push that finds the open queue at its bound with a Coded entry in it, one at a time; a push that finds room only appends. |
| `PlayerQueue.ClosedForGood` | gateway/src/player_queue.cpp:7-9 | Exactly the messages pushed before the first close enter the queue's account. |
| `GapTracker.Tracker.Accept` | gateway/include/roqr/gateway/gap.hpp:17-32 | One call moves the fields and answers as the function the law is about. |
| `GapTracker.AcceptedIffDeliverable` | gateway/include/roqr/gateway/gap.hpp:17-32 | Frame i of every history is accepted if and only if it is a keyframe or sequence header, or every regression or jump over 5000 ms before it has been followed by one. |
| `Classify.SkipModExLoop` | rtmp/src/classify.cpp:26-42 | The loop computes the recursive skip, truncation included. |
| `Classify.ModExInvisible` | rtmp/src/classify.cpp:26-143 | Any chain of well-formed ModEx blocks in front of the effective packet type leaves the audio and video classification unchanged. |
| `Delivery.ForcedIff` | rtmp/src/classify.cpp:147-190 | For every payload, reliable delivery is forced if and only if the payload is unclassifiable or multitrack. |
| `MediaOctets.EffectiveIff` | rtmp/src/classify.cpp:26-42 | The skipping loop finds packet type t at an offset if and only if well-formed ModEx blocks, the last of them naming t, end there. |
| `MediaOctets.VideoExactly` | rtmp/src/classify.cpp:53-173 | Every class of a video payload, legacy and enhanced, if and only if its octets say so; the same for multitrack and enhanced. |
| `MediaOctets.AudioExactly` | rtmp/src/classify.cpp:102-190 | The same for audio payloads. |
| `MediaOctets.CodecExactly` | rtmp/src/classify.cpp:44-51 | The codec nibble of legacy payloads and the FourCC behind the effective packet type. |
| `MediaOctets.DatagramIff` | gateway/src/ingest.cpp:27-41 | By octets: an ingest message is resolved to a datagram if and only if it is one coded audio or video frame of a single track and fits a negotiated datagram; it is never dropped by policy. |
| `MediaOctets.ConfigurationIsReliable` | gateway/src/ingest.cpp:34-38 | A payload that is a sequence header, metadata, a command or unclassifiable by its octets always travels on a stream. |
| `Delivery.ResolveIff` | quic/src/delivery.cpp:11-28 | For every requested mode: a datagram if and only if the request allows it for that type and the frame fits a negotiated datagram; dropped if and only if a datagram was demanded, does not fit and the fallback is to drop. |

## Left out

- `PlayerQueue.Queue.Pop`: the wait on the condition variable appears as its precondition (something is queued, or the queue is closed); who wakes whom is not modelled there.
- `FrameStream.FrameEncode`: payload sizes are taken to fit 64 bits, as `size_t` does.
- `Receiver.Client.OnStreamData`: closing the connection on malformed frames or overflow is recorded as a flag; the code keeps processing what it already has, and so does the model.
- `Backoff.BackoffExactIff`: negative durations are not considered.
- The supervisor is a transition system and not a class: connect, wait_connected and the ends of network threads are steps that may go either way, on_ready is one step, time passes in milliseconds at any point, and only termination of library calls is assumed.
- The client's own mutex inside signal_closed: its latch is part of the supervisor model, its wait_closed is not.
- The outbound path of the client (stream choice, resets, queueing of datagrams): calls into picoquic with little logic of its own.
- QUIC, TLS, sockets, threads and time (quic/src/context.cpp, rtmp/src/server_session.cpp, tools/relayd): foreign code or input and output.
- The RTMP handshake: a smaller instance of the fragmentation argument, with randomness.
- rtmp_commands, error codes, version and the outbound queue: immediate from the AMF0 and queue laws.
- `classify` for message types other than audio and video: a constant per type.
- The egress gateway's player replacement: ordering across it is not decided by the locks it holds; the queue and the gap tracker it uses are modelled instead.
- The media router of relayd: short map updates.
- C, JNI, Java and Rust bindings: thin wrappers.
- The meaning of AMF0 numbers as floating point: only their 64-bit patterns matter to the codec.
