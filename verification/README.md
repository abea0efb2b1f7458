# hydr: verified model of the tunnel data plane

This project models the data plane of hydr, a tunnelling proxy, in Dafny and proves properties of the model. Run
`dafny verify dfyconfig.toml` to check everything.

The layers, from the bytes up:

- **Codec** (`Bytes`, `Varint`, `Reader`, `Frames`, `Addresses`, `Messages`, `LengthPrefix`). Varints follow section
  16 of RFC 9000. The laws are proved about functions on byte sequences; message bodies are lists of fields, so one
  proof serves every message. The varint, frame, address and OpenStreamAck encoders, which append to a buffer, and the
  varint, frame, cursor, length-prefix and OpenStreamAck decoders, which advance a position, are also methods proved
  equal to those functions; the other messages are built from the same fields and have the functions only.
- **Obfuscation** (`ReplayFilter`, `Obfuscation`). The sliding-window replay filter against an unbounded history; the
  in-place XOR and MAC envelope; the pipeline encode, seal, open, decode over a whole connection. The keyed hashes are
  arbitrary functions: nothing is assumed of them.
- **One stream direction** (`FlowControl`, `StreamPipe`, `StreamTasks`, `StreamGuarantees`, `Delivery`,
  `EndOfStream`, `StreamRuns`, `Drift`, `Stalls`, `WindowWait`). The application's writes, the pump, a FIFO path, the
  receiving queue and its writer, the application's reads, and the credit that flows back. Every await of the tasks
  separates two steps, so a grant may land between the pump's enqueue and its accounting and hit the saturating
  subtraction.
- **The tunnel** (`Connection`, `ConnectionLoop`, `StreamView`, `Lifecycle`, `Routing`, `Tunnel`, `TunnelProgress`,
  `TunnelReopening`, `HalfClose`, `Transmission`, `AckOrder`, `Handling`, `Traffic`, `Answers`, `SessionGate`). Two
  endpoints with their command queues, writer queues, tables and per-stream tasks, any number of streams, and one
  ordered wire each way. `Tunnel.TunnelRefinesStreams` shows that multiplexing is invisible: in each step of the
  tunnel, each direction of each stream takes one of its own steps or none. The pump, forwarder and stream writer tasks
  are transition steps rather than methods, because other tasks run between their awaits. `ConnectionLoop` is the loop as an object updated in place, proved equal to the transitions the tunnel
  theorems use. `Transmission` closes the circle: what a tunnel run sends is encodable and crosses the codec and the
  obfuscator unchanged. `Handling` says from the bytes what each frame does; `Traffic` and `Answers` what the two
  applications are handed and told over whole runs, against what the other one asked, sent and answered.
- **Server admission** (`NonceCache`, `Authentication`, `Admission`, `RateLimiter`, `UdpSessions`) and **client
  reconnects** (`Reconnect`).

The invariant behind the flow-control results, for one direction: with S bytes enqueued, A accounted by `sent`, G
granted and X discarded, S = (bytes not yet read) + (pending at the reader) + (credit in flight) + G + X, and the
counter stands at A - G + L with 0 <= L <= 32768. L grows only when a grant overtakes the accounting of a chunk, and
then the window has room again, so the loss never accumulates.

Hypotheses that the code makes matter and that the statements carry:

- Stream ids are never reused and only the client opens streams (`Tunnel.Enabled`). `open_stream` gets this from
  `fetch_add` (ws.rs:112); `open_stream_with_id` (ws.rs:134-155) takes the caller's id, and a caller that repeats one
  is outside the hypothesis.
- A closed window can reopen if and only if its credit entry is there and credit is in flight or a read can still
  return some (`StreamGuarantees.CanReopen`, `StreamGuarantees.ReopensIffCanReopen`); while nothing has failed, if and
  only if the entry is there and not everything sent has been read with its credit refused
  (`StreamGuarantees.ReopensIffNotStranded`). Both ways of staying closed are reached: `Stalls.StrandedIsReached` and,
  since a received STREAM_CLOSE removes the entry (ws.rs:946), `HalfClose.CutIsReached`. The bound on how long a
  blocked stream can keep moving (`BlockedRunIsBounded`) needs none of this.
- Clocks are nondecreasing parameters. `rate_allow` reads the clock before it takes the lock, so this is an assumption
  about the order of callers there; the nonce cache reads it under the lock.
- Integers survive a varint only below 2^62; above that a value is reduced modulo 2^62, which is what
  `Varint.DecodeEncoded` states.

Where the code and its documentation differ, the model follows the code:

- PROTOCOL.md:58-59 says a captured handshake cannot be replayed. The cache is bounded in size and time:
  `Authentication.ReplayedIff` gives the exact condition, `Authentication.CapturedRequest` a replay that is accepted,
  and `Authentication.ReplaysApart` the guarantee that does hold.
- The comment on the replay filter (obfuscation.rs:19) speaks of strictly increasing numbers; the filter accepts any
  unseen number within the window, in any order (`ReplayFilter.ReorderingAccepted`).
- PROTOCOL.md:269-280 says a tampered frame fails the MAC. The tag covers the masked bytes and not the salt:
  `Obfuscation.OpensOnlySealed` says what is opened, `Obfuscation.TagIgnoresSalt` what a message with another salt
  opens as and exactly when it is delivered.
- The comment at ws.rs:392-393 says a refused credit is returned at the next read. When everything sent has been read
  there is no next read and the stream waits for good: `Stalls.StrandedIsReached` is such a run, with nothing failed,
  and `Delivery.DeliverableUnlessStuck` says exactly when bytes already written can no longer arrive.
- The comment on `reconnect` (client lib.rs:130) promises that the shared handle follows the tunnel. The datagram loop
  reconnects without the lock and can overtake a caller: `Reconnect.HandleCanBeStale` is such a run,
  `Reconnect.HandleFollowsIffSameWorker` gives the exact condition on the schedule, and
  `Reconnect.CallersAloneStayTogether` one that can be checked beforehand.

## Model

| member | source | states |
|---|---|---|
| Varint.EncodeVarint | crates/hydr-core/src/varint.rs:5-18 | appends exactly the RFC 9000 form of a 64-bit value |
| Varint.RfcExamples | crates/hydr-core/src/varint.rs:5-18 | the examples of section A.1 of RFC 9000 of one, two and four bytes come out as that section lists them |
| Varint.RfcLongExample | crates/hydr-core/src/varint.rs:5-18 | likewise its example of eight bytes |
| Varint.EncodedLength | crates/hydr-core/src/varint.rs:20-30 | the predicted length is the encoded length |
| Varint.ReadVarint | crates/hydr-core/src/varint.rs:32-44 | the decoding loop computes the specified result, below 2^62, within the buffer |
| Varint.DecodeEncoded | crates/hydr-core/src/varint.rs:5-44 | for every 64-bit v and every tail, decoding gives v modulo 2^62 and the predicted length |
| Varint.DecodesIff | crates/hydr-core/src/varint.rs:32-44 | any input decodes if and only if it has the 1, 2, 4 or 8 bytes its first two bits announce, minimal or not, to the value of those bytes with the two bits cleared; else it is too short |
| Varint.DecodedRange | crates/hydr-core/src/varint.rs:32-44 | whatever the input, a decoded value fits 62 bits and consumed at least its minimal length |
| Varint.VarintCut | crates/hydr-core/src/varint.rs:32-44 | strict cuts of the consumed bytes are end-of-input errors; later bytes are never read |
| Reader.Cursor.U8 | crates/hydr-core/src/message.rs:357-361 | reads the byte under the cursor and advances by one, or fails without moving |
| Reader.Cursor.Varint | crates/hydr-core/src/message.rs:363-367 | reads one varint at the cursor and advances past it |
| Reader.Cursor.Bytes | crates/hydr-core/src/message.rs:369-377 | reads a length-prefixed string at the cursor and advances past it |
| Frames.Encode | crates/hydr-core/src/frame.rs:45-50 | appends exactly the frame's bytes |
| Frames.SmallFrame | crates/hydr-core/src/frame.rs:45-50 | a small frame is id, type, length and body, byte by byte |
| Frames.Decode | crates/hydr-core/src/frame.rs:52-78 | the position-advancing decoder computes the specified result on every buffer |
| Frames.DecodesIff | crates/hydr-core/src/frame.rs:52-78 | every input is refused as invalid if and only if its whole header announces more than 65536 bytes, as too short if and only if header or body is cut off, and else read as its bytes say |
| Frames.HeaderDecides | crates/hydr-core/src/frame.rs:58-64 | a header that announces too long a body is refused whatever follows it, even nothing |
| Frames.FrameRoundTrip | crates/hydr-core/src/frame.rs:45-78 | a frame survives the wire, before any tail, if and only if its id is below 2^62 and its body within the limit; a longer body is refused |
| Frames.FrameCut | crates/hydr-core/src/frame.rs:52-78 | every strict cut of an accepted frame is an end-of-input error |
| Frames.FrameNormalises | crates/hydr-core/src/frame.rs:45-78 | re-encoding any accepted frame needs no more bytes than were consumed and decodes to the same frame |
| Addresses.EncodeAddress | crates/hydr-core/src/address.rs:26-45 | appends exactly the address's bytes |
| Addresses.AddressLayout | crates/hydr-core/src/address.rs:26-45 | the type byte, the host and the port, high byte first, lie where the wire format has them |
| Addresses.AddressFound | crates/hydr-core/src/address.rs:26-81 | every address is read back wherever it stands in a buffer |
| Addresses.RefusedIff | crates/hydr-core/src/address.rs:47-81 | an input is refused as invalid if and only if its type byte is unknown |
| Addresses.AddressAtCut | crates/hydr-core/src/address.rs:47-81 | strict cuts are end-of-input errors, later bytes are not read |
| Messages.MessageDecodes | crates/hydr-core/src/message.rs:122-290 | every message of 64-bit integers decodes, before any tail, to what the wire carries of it, which is the message itself if and only if its integers are in range |
| Messages.RequestLayout | crates/hydr-core/src/message.rs:122-133 | the bytes of an authentication request, field after field |
| Messages.ResponseLayout | crates/hydr-core/src/message.rs:196-205 | the bytes of an authentication response |
| Messages.OpenStreamLayout | crates/hydr-core/src/message.rs:235-237 | an opening is its address |
| Messages.OpenStreamAckLayout | crates/hydr-core/src/message.rs:269-274 | the bytes of an acknowledgement |
| Messages.DatagramLayout | crates/hydr-core/src/message.rs:314-321 | the bytes of a datagram's header |
| Messages.MessageRoundTrip | crates/hydr-core/src/message.rs:122-290 | every message type round-trips before any tail, and every strict prefix of its encoding is an end-of-input error |
| Messages.MessageCut | crates/hydr-core/src/message.rs:122-290 | on any accepted buffer the decoder reads exactly the bytes it reports |
| Messages.DatagramRoundTrip | crates/hydr-core/src/message.rs:314-344 | a datagram round-trips without a tail, and any tail becomes payload |
| Messages.EncodeOpenStreamAck | crates/hydr-core/src/message.rs:269-274 | the appending encoder produces the field-list encoding |
| Messages.ReadOpenStreamAck | crates/hydr-core/src/message.rs:276-289 | the cursor-based decoder computes the field-list decoding |
| LengthPrefix.RecvStream.ReadVarintExact | crates/hydr-transport/src/quic.rs:154-166 | reading the first byte and then the rest consumes exactly one varint |
| LengthPrefix.RecvStream.ReadMessage | crates/hydr-transport/src/quic.rs:175-184 | consumes one length-prefixed message and leaves the rest of the stream |
| LengthPrefix.TakeWritten | crates/hydr-transport/src/quic.rs:175-190 | a prefixed message is taken whole: what its sender left inside the prefix is discarded, what follows the prefix is left |
| LengthPrefix.TakeCut | crates/hydr-transport/src/quic.rs:175-184 | every strict cut of what one message takes is an end-of-input error |
| LengthPrefix.StreamRoundTrip | crates/hydr-transport/src/quic.rs:154-190 | a concatenation of length-prefixed messages parses back to the same list, leaving exactly what follows it |
| LengthPrefix.UniqueParsing | crates/hydr-transport/src/quic.rs:154-190 | two message lists of the same types with the same bytes are the same list |
| ReplayFilter.ReplayWindow.Observe | crates/hydr-core/src/obfuscation.rs:45-63 | the in-place update is the specified transition, verdict included |
| ReplayFilter.ObserveAgrees | crates/hydr-core/src/obfuscation.rs:45-63 | a number is accepted if and only if it was never accepted and lags the largest accepted one by at most the window |
| ReplayFilter.FilterRefinesHistory | crates/hydr-core/src/obfuscation.rs:45-63 | for every sequence of calls, pruning is unobservable: the verdicts are those of the unbounded history |
| ReplayFilter.ReorderingAccepted | crates/hydr-core/src/obfuscation.rs:17-20 | a new filter accepts in full any reordering of distinct numbers within the window |
| ReplayFilter.AcceptedOnce | crates/hydr-core/src/obfuscation.rs:45-63 | in no run does a filter, for all its pruning, accept a number twice |
| ReplayFilter.MemoryBound | crates/hydr-core/src/obfuscation.rs:58-61 | with a window of at least one, after every run at most two windows of numbers are remembered |
| Obfuscation.XorInPlace | crates/hydr-core/src/obfuscation.rs:149-158 | the in-place loop leaves in the array every bit added, modulo two, to that of the repeated key stream |
| Obfuscation.MaskedIff | crates/hydr-core/src/obfuscation.rs:149-158 | the output is the one whose every bit is the sum modulo two of the input's and the repeated key stream's, and no other is |
| Obfuscation.XorStreamTwice | crates/hydr-core/src/obfuscation.rs:149-158 | masking twice is the identity |
| Obfuscation.SealInverts | crates/hydr-core/src/obfuscation.rs:87-143 | opening what was sealed gives the number and the payload, for every key, salt and payload |
| Obfuscation.SealsIff | crates/hydr-core/src/obfuscation.rs:87-101 | a sealed message is the salt, the masked big-endian number and payload, and the tag of the masked bytes, bit for bit, and nothing else is |
| Obfuscation.OpensOnlySealed | crates/hydr-core/src/obfuscation.rs:114-143 | only what sealing produces with the salt the message carries is opened: lengths, tag and masked bytes match |
| Obfuscation.TagIgnoresSalt | crates/hydr-core/src/obfuscation.rs:114-147 | an opened message opens with any other salt too, as the same masked bytes under that salt, and is delivered if and only if the number so obtained is fresh |
| Obfuscation.Obfuscator.Encrypt | crates/hydr-core/src/obfuscation.rs:87-101 | seals under the next sequence number, which wraps at 64 bits: salt in clear, every bit of number and payload masked, and the tag of the masked bytes |
| Obfuscation.Obfuscator.Decrypt | crates/hydr-core/src/obfuscation.rs:114-143 | invalid if and only if too short or wrongly tagged, which leaves the filter alone; else plain or a replay as the filter says |
| Obfuscation.OutcomeIff | crates/hydr-core/src/obfuscation.rs:114-143 | invalid if and only if under 32 bytes or the tag is not that of the bytes between; a replay if and only if it opens and its number is not fresh |
| Obfuscation.ClosesIff | crates/hydr-transport/src/ws.rs:429-440 | the connection is closed by exactly the invalid messages and those delivered whose payload is no frame; replays are dropped |
| Obfuscation.OpenedOnce | crates/hydr-core/src/obfuscation.rs:114-143 | one fixed buffer opens to a plain payload at most once in any run of messages |
| Obfuscation.PipelineIsIdentity | crates/hydr-transport/src/ws.rs:413-440 | any list of encodable frames, at most 2^64, arrives exactly as sent, with no replay and no rejection |
| StreamTasks.StreamCredit.Sent | crates/hydr-transport/src/ws.rs:89-91 | counting an enqueued chunk completes the Account step of the stream model |
| StreamTasks.StreamCredit.Grant | crates/hydr-transport/src/ws.rs:93-98 | taking a credit performs the grant of the stream model, wherever the pump stands |
| StreamTasks.CreditReader.AfterRead | crates/hydr-transport/src/ws.rs:379-410 | accounting for a read performs the read step of the stream model: all pending credit is returned once a batch is reached and the queue takes it, and otherwise kept |
| StreamPipe.NextKeeps | crates/hydr-transport/src/ws.rs:64-98 | every step keeps order, conservation of bytes, the drift allowance and the window bound |
| StreamGuarantees.InOrderDelivery | crates/hydr-transport/src/ws.rs:444-491 | in every run, what is read is a prefix of what was written |
| StreamGuarantees.EofIsComplete | crates/hydr-transport/src/ws.rs:444-491 | end of stream is seen only after everything written was read, while the loop lives and no local read fails |
| StreamGuarantees.WindowSafety | crates/hydr-transport/src/ws.rs:470-484 | bytes not yet credited, and every credit, stay at most RECV_WINDOW - 1 + 32768 |
| StreamGuarantees.BoundedDrift | crates/hydr-transport/src/ws.rs:89-98 | over every run the accounting drift is between zero and one chunk |
| StreamGuarantees.GrantDrift | crates/hydr-transport/src/ws.rs:93-98 | a grant drifts by exactly what it exceeds the counter, which is at most the chunk enqueued and not accounted |
| Drift.DriftIsAttained | crates/hydr-transport/src/ws.rs:470-484 | a run whose drift is exactly one chunk: the race is real and the bound is tight |
| StreamGuarantees.BlockedMeansInTransit | crates/hydr-transport/src/ws.rs:45-47 | a blocked healthy stream has at least 229377 bytes of data or credit still in transit |
| StreamGuarantees.BlockedCanProgress | crates/hydr-transport/src/ws.rs:379-410 | while blocked and able to reopen, some delivery, copy, read or grant step is enabled |
| StreamGuarantees.MoveDecreases | crates/hydr-transport/src/ws.rs:379-410 | while blocked, every delivery, copy, read (its credit taken or refused) and grant lowers a natural-number measure |
| StreamGuarantees.ProgressDecreases | crates/hydr-transport/src/ws.rs:379-410 | every move with its credit taken lowers the measure, and reopens the window or leaves it able to reopen |
| StreamGuarantees.BlockedRunIsBounded | crates/hydr-transport/src/ws.rs:64-98 | in any run, refused credits and failures included, a stream stays blocked through at most as many moves as its measure |
| StreamGuarantees.WindowReopens | crates/hydr-transport/src/ws.rs:64-98 | from every blocked state able to reopen, refused credits and failures before it included, progress steps reopen the window |
| StreamGuarantees.ReopensIffCanReopen | crates/hydr-transport/src/ws.rs:64-98 | a closed window reopens in some continuation if and only if its entry is there and credit is in flight or what can still be read completes a batch |
| StreamGuarantees.ReopensIffNotStranded | crates/hydr-transport/src/ws.rs:392-404 | with writer and loop alive, if and only if the entry is there and not everything is read with no credit in flight |
| Stalls.StrandedIsReached | crates/hydr-transport/src/ws.rs:392-404 | a run without failures that reads everything sent and leaves the window closed in every continuation |
| HalfClose.CutIsReached | crates/hydr-transport/src/ws.rs:945-949 | a tunnel run in which a peer that closes its own half stops the other half for good after one more window |
| Delivery.DeliverableUnlessStuck | crates/hydr-transport/src/ws.rs:444-491 | while nothing has failed, every byte written can still be delivered, if and only if not stuck: all sent bytes read, no credit coming, the window closed and bytes waiting behind it |
| Delivery.Drains | crates/hydr-transport/src/ws.rs:444-491 | a run without further writes that brings everything written to the reader |
| EndOfStream.EndReachedIff | crates/hydr-transport/src/ws.rs:468-490 | once the writer has closed and nothing has failed, the reader can still be brought to the end of the stream if and only if not stuck: the pump waits for its window before it looks for the end |
| EndOfStream.FailedWriteIsFinal | crates/hydr-transport/src/ws.rs:444-451 | after a failed write nothing more reaches the reader, and no end of stream |
| EndOfStream.LeavingIsFinal | crates/hydr-transport/src/ws.rs:473-484 | after a failed read or the end of its input the pump sends no more data |
| EndOfStream.ClosingIsFinal | crates/hydr-transport/src/ws.rs:473-484 | an application that has closed its half writes no more |
| EndOfStream.PipesStayBounded | crates/hydr-transport/src/ws.rs:113-115 | both in-memory pipes hold at most 65536 bytes in every run |
| StreamGuarantees.CutStaysCut | crates/hydr-transport/src/ws.rs:945-946 | a sender on a closed window whose credit entry is gone waits in every continuation |
| StreamGuarantees.StrandedStaysStranded | crates/hydr-transport/src/ws.rs:392-404 | a sender on a closed window, everything read and no credit in flight, waits in every continuation |
| StreamGuarantees.StrandedOwesCredit | crates/hydr-transport/src/ws.rs:392-404 | such a sender with its entry and a live receiver is owed a refused credit of at least a batch |
| WindowWait.NeverLosesWakeup | crates/hydr-transport/src/ws.rs:64-98 | in no interleaving does the waiter sleep un-notified on an open window with no notification due; it returns only on an open window |
| WindowWait.OpenWindowIsTaken | crates/hydr-transport/src/ws.rs:73-86 | once the window is open, every schedule is bounded: at most Remaining steps of the waiter and notifications, plus one for each further grant, and one is enabled until the wait returns |
| WindowWait.WaitIsOneStep | crates/hydr-transport/src/ws.rs:64-98 | every step of the wait is invisible to the stream model or its window step; grants and the closing `sent` are its grant and Account |
| ConnectionLoop.Loop.HandleFrame | crates/hydr-transport/src/ws.rs:797-970 | the in-place frame handler is the transition the tunnel theorems are about |
| ConnectionLoop.Loop.HandleNextCommand | crates/hydr-transport/src/ws.rs:714-757 | likewise for a command, and only Close ends the loop |
| ConnectionLoop.Loop.SpawnStream | crates/hydr-transport/src/ws.rs:908-914 | registers the credit, the tasks and the route of a stream |
| ConnectionLoop.Loop.HandleAuthRequest | crates/hydr-transport/src/ws.rs:813-849 | answers on the request's id and registers only sessions answered OK |
| Handling.OpeningIsOffered | crates/hydr-transport/src/ws.rs:887-901 | an opening let through by the gate offers the application exactly the stream and address sent |
| Handling.OpeningIsRefused | crates/hydr-transport/src/ws.rs:864-886 | one in an unauthenticated session is answered with a protocol error, text included, and changes nothing else |
| Handling.UnreadableOpening | crates/hydr-transport/src/ws.rs:887-901 | one whose address cannot be read changes nothing |
| Handling.DatagramIsDelivered | crates/hydr-transport/src/ws.rs:950-961 | a datagram is delivered as it was sent if and only if the gate lets it through |
| Handling.UnreadableDatagram | crates/hydr-transport/src/ws.rs:959-961 | one that cannot be read changes nothing |
| Handling.AnswerIsTold | crates/hydr-transport/src/ws.rs:903-926 | an acknowledgement tells the waiting caller the peer's answer and starts the stream if and only if it is OK; without a caller it changes nothing |
| Handling.UnreadableAnswer | crates/hydr-transport/src/ws.rs:905-924 | one that cannot be read ends the wait with the error and starts nothing |
| Handling.ReplyIsSent | crates/hydr-transport/src/ws.rs:728-751 | the application's answer is sent as given and starts the stream if and only if it is OK |
| Handling.RequestIsAnswered | crates/hydr-transport/src/ws.rs:813-849 | a readable request is answered on its id with the verdict itself, and a nonzero id joins the sessions if and only if that is OK |
| Handling.UnreadableRequest | crates/hydr-transport/src/ws.rs:815-848 | an unreadable one is answered "bad request" and registers nothing |
| Handling.RequestIsIgnored | crates/hydr-transport/src/ws.rs:813-814 | an end without a validator ignores requests |
| Handling.UnknownStreamIsIgnored | crates/hydr-transport/src/ws.rs:927-949 | data, credit and close for unknown streams change nothing |
| Handling.PingIsAnswered | crates/hydr-transport/src/ws.rs:962-968 | a ping is answered with a pong of its bytes; frames without meaning here change nothing |
| Handling.TickIsEchoed | crates/hydr-transport/src/ws.rs:780-784 | the periodic ping is echoed by the other end as an empty pong |
| StreamView.ActionViews | crates/hydr-transport/src/ws.rs:453-491 | each local step of an end is one step of the stream it concerns and invisible to the others |
| Routing.DispatchViews | crates/hydr-transport/src/ws.rs:927-949 | handling a frame moves data, credit or the end mark of its own stream only |
| Tunnel.TunnelRefinesStreams | crates/hydr-transport/src/ws.rs:686-970 | every step of the two-endpoint tunnel is, for each direction of each stream, one step of the stream model or none |
| Tunnel.StepKeepsInv | crates/hydr-transport/src/ws.rs:686-970 | every step keeps the tunnel invariant for every stream at once |
| Tunnel.StepKeepsPhase | crates/hydr-transport/src/ws.rs:717-751 | no step moves an id to an earlier phase of its opening: unused, asked, offered, answered, then open or abandoned |
| Lifecycle.OnePhase | crates/hydr-transport/src/ws.rs:717-751 | an id is in one phase at a time |
| TunnelProgress.PhasesOnlyAdvance | crates/hydr-transport/src/ws.rs:717-751 | over every run an id ends in exactly one phase, and never in an earlier one |
| Tunnel.AlwaysRoutable | crates/hydr-transport/src/ws.rs:903-949 | no stream frame arrives before the stream's tasks exist, and no acknowledgement after |
| AckOrder.AckComesFirst | crates/hydr-transport/src/ws.rs:728-750 | in every run, of all the frames the server transmits, the acknowledgement of a stream precedes all its data, credit and close frames |
| Tunnel.NoDataDropped | crates/hydr-transport/src/ws.rs:927-933 | in every reachable state, a data frame about to be handled finds its stream registered |
| Tunnel.TablesAlwaysAgree | crates/hydr-transport/src/ws.rs:739-746 | the streams and credits tables have the same keys at both ends |
| Traffic.OffersArriveInOrder | crates/hydr-transport/src/ws.rs:686-970 | without session tracking, in every run each application is handed exactly the streams and datagrams the other asked for and sent, unchanged and in order, but for those on their way |
| Traffic.OpeningsFollowCalls | crates/hydr-transport/src/ws.rs:887-901 | in every run, gated or not, each stream offered to the server's application was asked for by the client's with that id and address |
| Traffic.DatagramsWereSent | crates/hydr-transport/src/ws.rs:950-961 | in every run each datagram handed to an application was sent by the other with that content |
| Answers.ToldIsAnswered | crates/hydr-transport/src/ws.rs:728-751 | in every run, what a caller of open_stream is told is what the server's application answered for that id, or that the session is not authenticated |
| Tunnel.StreamsStayInOrder | crates/hydr-transport/src/ws.rs:444-515 | on every stream of every tunnel run, both ways, what is read is a prefix of what the peer wrote |
| Tunnel.EndOfStreamIsComplete | crates/hydr-transport/src/ws.rs:485-490 | a reader that meets end of stream on a live loop has read everything, because close follows all data |
| Tunnel.BuffersAreBounded | crates/hydr-transport/src/ws.rs:927-933 | the unbounded per-stream queue holds at most one window and one chunk |
| Tunnel.DriftIsBounded | crates/hydr-transport/src/ws.rs:89-98 | on every stream of every tunnel run the accounting drift is between zero and one chunk |
| Tunnel.BlockedSenderHasTraffic | crates/hydr-transport/src/ws.rs:64-98 | on every tunnel run a blocked stream has at least 229377 bytes of its own data or credit in transit, unless its peer's writer failed or holds a refused credit |
| TunnelReopening.WindowReopens | crates/hydr-transport/src/ws.rs:64-98 | in every reachable state with both loops alive, none told to close and the peer's half open, a blocked stream able to reopen is reopened by some run, whatever the queues hold |
| TunnelProgress.MoveIsTaken | crates/hydr-transport/src/ws.rs:927-943 | a tunnel step that carries a stream's data or credit onwards is one of that stream's own moves |
| TunnelProgress.BlockedRunIsBounded | crates/hydr-transport/src/ws.rs:64-98 | in every tunnel run, whatever both ends and the other streams do, a stream stays blocked through a bounded number of moves of its own data and credit |
| TunnelProgress.ClosedStaysClosed | crates/hydr-transport/src/ws.rs:945-949 | a stream an end has closed is never routed or credited there again, in any continuation of any run |
| Tunnel.AlwaysExactCredit | crates/hydr-transport/src/ws.rs:389-402 | every credit a tunnel sends fits a varint exactly |
| Transmission.TrafficArrivesIntact | crates/hydr-transport/src/ws.rs:351-440 | for every run of a fresh tunnel, all of a side's traffic crosses encode, encrypt, decrypt and decode unchanged, and the peer handles a prefix of it |
| Transmission.WireConserved | crates/hydr-transport/src/ws.rs:501-515 | the wire neither loses, repeats nor reorders frames in any run |
| SessionGate.SessionsGateStreams | crates/hydr-transport/src/ws.rs:813-902 | with session tracking, in every run the session set is the nonzero ids answered OK, and every opening or datagram of a nonzero id follows such an answer |
| SessionGate.GatedOpenIsRefused | crates/hydr-transport/src/ws.rs:866-889 | an opening in an unauthenticated session is answered with a protocol error and changes nothing else |
| SessionGate.AnswerIsSent | crates/hydr-transport/src/ws.rs:836-848 | the status that opens a session is the one the peer decodes from the response |
| Admission.SessionOpensIff | crates/hydr-transport/src/ws.rs:813-848 | with the server's validator, a request for a nonzero id opens its session if and only if it proves the password and its nonce is not remembered; no other session changes |
| Nonces.NonceCache.EvictExpired | crates/hydr-server/src/lib.rs:117-126 | the loop drops exactly the expired entries at the front |
| Nonces.NonceCache.Insert | crates/hydr-server/src/lib.rs:129-150 | the set and queue after one call, and its verdict, are the specified ones |
| Nonces.InsertAgrees | crates/hydr-server/src/lib.rs:129-150 | a nonce is refused if and only if it is among the last cap acceptances and not expired |
| Nonces.CacheRefinesLog | crates/hydr-server/src/lib.rs:101-151 | over every run with a nondecreasing clock the cache answers as the full log; set equals the elements of order, which is duplicate-free, time-sorted and within the capacity |
| Nonces.AcceptancesApart | crates/hydr-server/src/lib.rs:93-99 | in any run of a new cache, two acceptances of one nonce are more than cap acceptances or at least the time to live apart |
| Authentication.Validator.Validate | crates/hydr-server/src/lib.rs:174-208 | checks version, nonce length, proof and replay in this order, and touches the cache only after the proof |
| Authentication.VerdictIff | crates/hydr-server/src/lib.rs:174-208 | code 0x04 if and only if the version is not 1, 0x01 if and only if the proof is wrong, 0x05 if and only if the nonce is short or remembered, in this order of checks; OK carries the rate and the UDP feature |
| Authentication.VerdictText | crates/hydr-server/src/lib.rs:177-205 | the reason each refusal gives, letter for letter |
| Authentication.OkIffCredibleAndNew | crates/hydr-server/src/lib.rs:174-208 | a request is answered OK if and only if it is well formed, proves the password and its nonce is not remembered |
| Authentication.AnswerIsResponse | crates/hydr-server/src/lib.rs:174-208 | every answer fits one response frame |
| Authentication.OnlyProofConsultsCache | crates/hydr-server/src/lib.rs:190-205 | without the proof the answer does not depend on the cache and the cache is untouched; with it the only refusal is a replay, with code 0x05 |
| Authentication.FloodIsInvisible | crates/hydr-server/src/lib.rs:93-95 | requests without the proof leave no trace in the cache, so a flood of them cannot push out a used nonce |
| Authentication.ReplaysApart | crates/hydr-server/src/lib.rs:93-151 | two requests with one nonce are both answered OK only 600 s or more than the capacity of OK answers apart |
| Authentication.ReplayedIff | crates/hydr-server/src/lib.rs:93-151 | in any run, a credible request whose nonce was answered OK before, and not since, is answered OK if and only if 600 s passed or more than the capacity were answered OK in between |
| Authentication.CapturedRequest | crates/hydr-server/src/lib.rs:97-99 | in the run of just the two, a captured request sent again is answered OK if and only if its entry has expired |
| RateLimiter.AttemptLimiter.RateAllow | crates/hydr-server/src/lib.rs:217-227 | the verdict and the table after one attempt |
| RateLimiter.LimiterRefinesLog | crates/hydr-server/src/lib.rs:217-227 | the limiter, which forgets, answers every run as the full log of allowed attempts does |
| RateLimiter.WindowBound | crates/hydr-server/src/lib.rs:23-24 | in every run of a new limiter, an address's i-th and (i+30)-th allowed attempts are at least 60 s apart |
| RateLimiter.RefusedOnlyWhenFull | crates/hydr-server/src/lib.rs:221-224 | after every run, the limiter refuses an attempt if and only if it allowed exactly 30 within the window |
| RateLimiter.RefusedIff | crates/hydr-server/src/lib.rs:221-224 | after every run an attempt is refused if and only if the 30th latest allowed one is less than 60 s old |
| RateLimiter.AddressesIndependent | crates/hydr-server/src/lib.rs:220-226 | what is kept for one address is what its own attempts alone would leave |
| UdpSessions.UdpManager.Forward | crates/hydr-server/src/udp.rs:124-205 | the outcome and the table after a datagram: touched, refused, bind failed or opened |
| UdpSessions.UdpManager.RemoveSession | crates/hydr-server/src/udp.rs:100-110 | removes the session, its count and its gauge, if it is there |
| UdpSessions.UdpManager.Sweep | crates/hydr-server/src/udp.rs:70-97 | removes the stale keys one by one, in some order |
| UdpSessions.UdpManager.DecrementPerIp | crates/hydr-server/src/udp.rs:218-225 | lowers a counter, saturating, and drops it at zero |
| UdpSessions.AccountingIsExact | crates/hydr-server/src/udp.rs:70-205 | in every run of a new manager each counter equals the sessions owned, no counter is zero, both caps hold, current is the table size and created is current plus stopped |
| UdpSessions.SweepRemovesStale | crates/hydr-server/src/udp.rs:75-95 | whatever the order, a sweep removes exactly the stale sessions and lowers the gauge by their number |
| UdpSessions.DecrementIsExact | crates/hydr-server/src/udp.rs:218-225 | the saturating decrement never saturates |
| UdpSessions.OutcomeIffRoom | crates/hydr-server/src/udp.rs:124-155 | each outcome if and only if: touched, table full, address full, no socket, opened, by the sessions there and the address's own |
| UdpSessions.ConfiguredCaps | crates/hydr-server/src/udp.rs:48-62 | the caps are as configured, zero meaning 4096 and 64, and a new manager always has room |
| UdpSessions.ActiveSessionSurvives | crates/hydr-server/src/udp.rs:76-80 | a session active at a time survives every run of steps until the timeout has passed since then |
| UdpSessions.DatagramKeepsSession | crates/hydr-server/src/udp.rs:126-128 | from a datagram that meets or opens its session, the session survives every run until 120 s have passed since that datagram |
| UdpSessions.ActivityIsLatest | crates/hydr-server/src/udp.rs:126-128 | in every run a session's recorded activity is the time of its key's latest datagram |
| UdpSessions.SweptIffIdle | crates/hydr-server/src/udp.rs:75-80 | after every run a sweep keeps a session if and only if its latest datagram is at most 120 s old |
| UdpSessions.GaugesCountOutcomes | crates/hydr-server/src/udp.rs:132-152 | in every run the created and rejected gauges count exactly the sessions opened and the datagrams refused one |
| UdpSessions.ClientsAreIsolated | crates/hydr-server/src/udp.rs:29-32 | no run of other clients' steps can take over, refresh, evict or count a client's sessions |
| Reconnect.ReconnectsDeduplicated | crates/hydr-client/src/lib.rs:131-153 | in every interleaving at most one caller per loaded generation reconnects, every Ok follows a reconnect completed since the load, and the generation counts the completed reconnects |
| Reconnect.OnlyFailedDialsFail | crates/hydr-client/src/lib.rs:146-153 | in every interleaving the calls that end without Ok are exactly those whose own dial failed |
| Reconnect.CallIsAnswered | crates/hydr-client/src/lib.rs:146-153 | after every run, a call that ends otherwise, such as one that finds the generation raised, returns Ok, and a reconnect has completed since it began |
| Reconnect.LoopTakesTurns | crates/hydr-client/src/lib.rs:191-224 | in every run each receive of the datagram loop ends once, and each loss leads to one backoff and one reconnect |
| Reconnect.GenerationGrows | crates/hydr-client/src/lib.rs:139-140 | the generation never falls |
| Reconnect.HandleFollowsIffSameWorker | crates/hydr-client/src/lib.rs:130-142 | between reconnects the handle is the tunnel's if and only if the worker that replaced the tunnel last also replaced the handle last |
| Reconnect.HandleCanBeStale | crates/hydr-client/src/lib.rs:192-219 | a run in which the datagram loop, woken from its backoff, overtakes a caller and the handle is left on the older tunnel |
| Reconnect.CallersAloneStayTogether | crates/hydr-client/src/lib.rs:144-153 | while the datagram loop does not reconnect, the lock suffices: between reconnects the handle is the tunnel's |

## Left out

- Sockets, TLS, QUIC and WebSocket libraries, DNS, certificates, configuration, command line and metrics rendering: foreign calls and I/O.
- Cryptographic strength: the keyed hashes are arbitrary functions, salts are parameters, and constant-time comparison is equality.
- Deadlock freedom through the bounded shared queues: queues are unbounded FIFO sequences, and the loop's awaits inside its select arms are single steps.
- TunnelReopening.WindowReopens: shows that a reopening run exists; that the scheduler takes it would need fairness and the bounded shared queues, which are not modelled.
- ConnectionLoop.Loop.HandleFrame: does not model AUTH_RESPONSE frames and the callers waiting for them, which touch no stream or session.
- ConnectionLoop.Loop.HandleAuthRequest: does not model handing the first request of the control channel to the caller of accept.
- Stream progress after a received STREAM_CLOSE (the credit entry is gone) and with peers that send no credit.
- Connection.Dispatch: does not close the tunnel on failed authentication, which the loop leaves to its caller.
- Connection.HandleCommand: acknowledgements and authentication responses are those that fit one frame; the encoder would send longer ones and the peer would refuse them.
- Connection.Stopped: the pump's and writer's own shutdown after the loop has ended, the error that then ends the wait of pending callers, and cancelled callers are not modelled.
- Addresses.EncodeAddress: domain names are byte strings, on which lossy UTF-8 decoding is taken to be the identity.
- RateLimiter.WindowBound: does not cover two callers that read the clock in one order and take the lock in the other.
- Reconnect.ReconnectsDeduplicated: callers are not cancelled while they hold the lock.
- SOCKS5 parsing, UDP fragmentation and the reply-forwarding task of a UDP session.
- The congestion controller and its window formula: one clamped expression.
