# Verified models of the slipstream bridge and its companions

This project models the parts of the repository that move bytes through concurrent steps, and proves what they keep.

* **The slipstream-picoquic bridge** (`src/transport/slipstream.rs`). The reading and writing halves, the client's
  context object and the server's table are classes whose methods follow the source statement by statement. Each
  method is tied to a step function on values, and transition systems built from the same step functions interleave
  the application, the packet loop and the network one atomic action at a time. The theorems hold over every run.
* **The whole echo path**: client writer, client loop, wire, server callbacks, echo handler, server loop and client
  reader in one transition system.
* **The KCP deframer and the UDP writers** (`benches/common/`).
* **The framed echo protocol** (`benches/quinn_bench.rs`) and **the copy loops** (`src/lib.rs`).

`dafny verify dfyconfig.toml` checks everything.

## Reading guide

| file | about |
|---|---|
| `Chunks.dfy`, `Channels.dfy`, `LittleEndian.dfy` | bytes, bounded queues with close flags, 32-bit little-endian numbers |
| `RecvHalf.dfy`, `SendHalf.dfy` | the two halves of a bridged stream |
| `PacketLoop.dfy` | the packet loop's callback modes |
| `ClientBridge.dfy`, `ClientProtocol.dfy`, `ClientTheorems.dfy`, `ClientCallbacks.dfy`, `ClientOrder.dfy`, `ClientWaking.dfy`, `ClientHistory.dfy`, `ClientRuns.dfy`, `ClientConnect.dfy` | the client: one callback, all interleavings, what holds over runs, what each callback comes to, the runs in which bytes are lost, and the wiring |
| `ServerTable.dfy`, `ServerBridge.dfy`, `ServerLink.dfy`, `ServerWaking.dfy`, `ServerRuns.dfy` | the server: the table's history, the context object, one connection's interleavings, and how they meet |
| `EchoPath.dfy`, `EchoLoop.dfy`, `EchoEnd.dfy`, `EchoProgress.dfy`, `EchoRuns.dfy` | the end-to-end system, its echo handler as the copy loop, the end of the stream, what the handler is bound to do, and runs in which everything comes back |
| `Deframer.dfy`, `UdpWriters.dfy`, `FramedEcho.dfy`, `Relay.dfy` | the other components |

An empty chunk is the in-band end marker; adding it to a stream stands for an add of no bytes with the FIN flag.
picoquic is an ordered, lossless byte stream per direction of a stream (section 2.2 of RFC 9000); its answers to
`picoquic_add_to_stream` are parameters. Queue capacities are parameters where a theorem does not depend on them, and
4096, 512 and 512 where the source creates the queues.

## What the code does not promise

The conditions under which the code loses, reorders or misreports bytes are kept as they are. For each of them a lemma
gives a run from the start that shows it, and another says exactly when the promise holds.

| the code | the run that shows it | exactly when it is kept |
|---|---|---|
| a failed add of the peeked chunk is put back while the drain goes on, so younger chunks overtake it; a failed add of a drained chunk drops it | `ClientRuns.RefusedAddReorders`, in general `ClientRuns.PutBackOvertakes` | over every run `ClientOrder.FifoExactly`, for one callback `ClientTheorems.OrderKeptExactly` |
| chunks still queued or peeked when closing starts are never sent, though their write was acknowledged | `ClientRuns.AcknowledgedChunkCanBeDiscarded` | `ClientTheorems.ClosingDiscardsExactly` |
| a caller that abandons a pending write and passes another buffer is told the old chunk's length | `ClientRuns.AbandonedWriteIsMisreported` | `SendHalf.ExactlyOnce` |
| a receive channel that is full or abandoned drops the chunk | `ClientRuns.FullReceiveChannelDrops` | `RecvHalf.NothingDroppedExactly`, `ClientHistory.NoOfferDroppedExactly` |
| bytes attached to a FIN are ignored | `ServerTable.MessageWithFinIsNeverAccepted` | `ServerTable.FinBytesIgnoredExactly`, `ClientHistory.FinBytesIgnoredExactly` |
| the server ignores the answer to an add | `ServerLink.RefusedAddIsIgnored` | `ServerLink.QueueReachesStreamExactly` |
| ten blocked sends in a row are reported as written | `UdpWriters.ExhaustedWriteIsReportedWritten` | `UdpWriters.ReportedButLostExactly`, over runs `UdpWriters.WrittenIsSentOrBuffered` |
| a framed payload that is empty or longer than 65535 bytes is not echoed, and an empty one ends the session | `FramedEcho.EmptyPayloadEndsSession`, `FramedEcho.LongPayloadNotReturned` | `FramedEcho.SessionIsIdentityExactly` |
| `poll_shutdown` reports success also when its end marker finds no room | `ClientRuns.FullQueueDropsShutdown` | `ClientRuns.ShutdownMarksExactly` |
| an empty write enqueues what the loop adds as FIN | `ClientRuns.EmptyWriteEndsStream` | `ClientRuns.EmptyWriteIsShutdownExactly` |

Where comments and code disagree the model follows the code: the sentinel of the framed echo is the length 65536
(`benches/quinn_bench.rs:129`), not 0xFFFFFFFF as the comment at `benches/quinn_bench.rs:116-118` has it, and the wait
for a close ends with callback 5002 (`src/transport/slipstream.rs:327-331`), which the comment rounds to 5000.

## Model

| member | source | states |
|---|---|---|
| RecvHalf.SlipstreamRecvHalf.PollRead | src/transport/slipstream.rs:557-592 | a read moves bytes from the front of carry-over and queue into the buffer and loses none; zero bytes into a buffer with room mean the end of the stream and nothing else |
| RecvHalf.PollMeaning | src/transport/slipstream.rs:562-591 | one read conserves what is ahead, respects the room, waits exactly when nothing can be reported, and reports zero bytes exactly at the end |
| RecvHalf.ReadConservation | src/transport/slipstream.rs:556-593 | for all interleavings of arrivals and reads of any sizes: delivered bytes, carry-over and queue together are the accepted chunks, an in-order subsequence of what arrived |
| RecvHalf.EndOfFile | src/transport/slipstream.rs:573-589 | a zero-byte read happens exactly at an end marker or a closed, drained channel, after all bytes accepted before it were delivered |
| RecvHalf.NothingDroppedExactly | src/transport/slipstream.rs:220-238 | no arriving chunk is dropped exactly when each arrival finds a live reader and fewer chunks than the capacity outstanding |
| RecvHalf.EndsAreHistory | src/transport/slipstream.rs:556-593 | over every run the channel's ends are open exactly until they are dropped |
| SendHalf.SlipstreamSendHalf.PollWrite | src/transport/slipstream.rs:616-646 | whatever the packet loop does between its actions, a call enqueues its chunk exactly on success and holds on to it exactly when pending or reset; it retries at most as often as there were tokens plus tokens granted during the call |
| SendHalf.SlipstreamSendHalf.Retry | src/transport/slipstream.rs:626-645 | the retry loop is the run of the writer's atomic actions, with its bound on retries |
| SendHalf.SlipstreamSendHalf.TryHeld | src/transport/slipstream.rs:627-633 | one `try_send` under interference: sent, refused, or held again |
| SendHalf.SlipstreamSendHalf.PollWake | src/transport/slipstream.rs:634-642 | one poll for a token: a token takes the held chunk back, a closed channel resets, none waits |
| SendHalf.SlipstreamSendHalf.PollShutdown | src/transport/slipstream.rs:653-659 | success is reported in any case; an end marker is enqueued exactly when there is room |
| SendHalf.RunCallOutcome | src/transport/slipstream.rs:621-645 | every interleaving of a call ends with the outcome PollWrite promises |
| SendHalf.ExactlyOnce | src/transport/slipstream.rs:621-630 | a successful call enqueues one chunk, which is the first n bytes of the caller's buffer exactly when the buffer extends the chunk held before |
| SendHalf.CallExactly | src/transport/slipstream.rs:621-645 | an undisturbed call fails on a dropped queue and lets its chunk go, enqueues it if there is room without touching a token, and else uses up every token and is left pending, or reset if the loop has hung up |
| SendHalf.SenderStepsKeepInv | src/transport/slipstream.rs:616-659 | every writer action keeps acknowledged slices equal to enqueued chunks while no call is misused |
| ClientBridge.ClientBridgeCtx.StreamCallback | src/transport/slipstream.rs:194-243 | the new state for every event, and failure exactly when the stream could not be marked active |
| ClientBridge.ClientBridgeCtx.LoopCallback | src/transport/slipstream.rs:246-398 | for every mode the callback is the run of the loop's atomic actions from its start to rest, and returns the terminate code exactly when that run ends there |
| ClientBridge.ClientBridgeCtx.TimeCheck | src/transport/slipstream.rs:261-305 | notices an abandoned reader and fills the empty slot from the queue |
| ClientBridge.ClientBridgeCtx.CloseOrWait | src/transport/slipstream.rs:312-333 | one wait for a close: terminates, or closes once and counts |
| ClientBridge.ClientBridgeCtx.DrainToStream | src/transport/slipstream.rs:334-394 | the slot, then the queue, go to the stream, with a wake after the slot and one at the end |
| ClientBridge.ClientBridgeCtx.AddPeekedChunk | src/transport/slipstream.rs:338-352 | the peeked chunk is added, put back when refused, or forgotten when a refused end marker |
| ClientBridge.ClientBridgeCtx.DrainQueue | src/transport/slipstream.rs:356-390 | the drain loop leads from the first wake to the last |
| ClientBridge.ClientBridgeCtx.AddDrainedChunk | src/transport/slipstream.rs:358-382 | a refused drained chunk is dropped and ends the drain unless it is an end marker |
| ClientBridge.LoopStepKeepsOrder | src/transport/slipstream.rs:277-390 | no loop action changes the order of stream, hand, slot and queue unless it loses or overtakes |
| ClientBridge.LoopStepKeepsTally | src/transport/slipstream.rs:277-390 | every loop action accounts for every chunk as often as before, whatever is refused |
| ClientProtocol.StepKeepsInv | src/transport/slipstream.rs:173-398 | every atomic action of application, loop and network keeps the close, wake and FIFO invariants |
| ClientProtocol.RunsKeepInv | src/transport/slipstream.rs:173-398 | ... hence every run does |
| ClientTheorems.FifoRefinement | src/transport/slipstream.rs:277-287 | the chunks added, the slot and the queue are the enqueued chunks in order with end markers in place, in every run without a harmful refusal; in all runs each chunk is accounted for |
| ClientTheorems.AcknowledgedIsEnqueued | src/transport/slipstream.rs:621-645 | over all runs the acknowledged slices are the enqueued chunks, one for one, while no call is misused |
| ClientTheorems.CloseSafety | src/transport/slipstream.rs:269-336 | closing starts only after a half was dropped, is never undone, closes at most once and only an existing connection, and no add to the stream, accepted or refused, follows it; a set stream id implies a connection |
| ClientTheorems.ClosingIsFinal | src/transport/slipstream.rs:312-333 | no continuation of a closing run so much as tries an add to the stream |
| ClientTheorems.ClosingDiscardsExactly | src/transport/slipstream.rs:312-333 | however a closing run goes on, all that was enqueued is on the stream exactly when nothing was in flight or out of order as closing started and nothing was enqueued since |
| ClientTheorems.TerminatesExactly | src/transport/slipstream.rs:312-332 | the terminate code is returned exactly by an AFTER_* callback while closing, when disconnected, without a connection, or on the 5002nd wait |
| ClientTheorems.BoundedShutdown | src/transport/slipstream.rs:327-332 | once closing is requested the loop has ended by the 5002nd AFTER_* callback of any run, and the counter does not overflow |
| ClientTheorems.NoLostWakeup | src/transport/slipstream.rs:337-393 | while stream and loop live, a writer waiting without a token faces a full queue or a wake still owed, in every interleaving |
| ClientTheorems.WaitingWriterIsWoken | src/transport/slipstream.rs:353-355 | one TIME_CHECK and one AFTER_* give a waiting writer a token from every reachable resting state of an open bridge, whatever is refused |
| ClientTheorems.CallbackIsARun | src/transport/slipstream.rs:246-398 | each sequential callback is a run of the interleaved system |
| ClientTheorems.TimeCheckFillsSlot | src/transport/slipstream.rs:277-287 | TIME_CHECK moves the oldest queued chunk into an empty slot |
| ClientTheorems.DrainTakesAll | src/transport/slipstream.rs:356-390 | a drain without refusals appends the whole queue in order and requests closing exactly when the writer is gone |
| ClientTheorems.DrainProgress | src/transport/slipstream.rs:261-393 | one TIME_CHECK and one AFTER_* put every waiting chunk on the stream in order, empty slot and queue, and leave a token |
| ClientTheorems.OrderKeptExactly | src/transport/slipstream.rs:338-390 | one AFTER_* keeps FIFO order exactly when no drained add is refused and a refused peeked chunk carries bytes and equals all that is queued |
| ClientTheorems.PutBackKeepsOrderExactly | src/transport/slipstream.rs:348-390 | after a put-back the drain keeps the order exactly when the queue holds copies of the peeked chunk |
| ClientCallbacks.TimeCheckExactly | src/transport/slipstream.rs:261-287 | mode 5 requests closing exactly when that was requested, the reader was dropped, or an open bridge with a free slot finds the drained queue of a writer that is gone; it takes a chunk exactly when an open bridge has a free slot and one is queued; nothing else changes |
| ClientCallbacks.ClosingExactly | src/transport/slipstream.rs:312-333 | modes 2 and 3 while closing: the loop ends when disconnected or without a connection, else the connection is closed once, the tick counted modulo 2^32, and the loop ended beyond 5000 |
| ClientCallbacks.NothingToDo | src/transport/slipstream.rs:334-339 | modes 2 and 3 do nothing on a bridge that is not closing and not open or has an empty slot |
| ClientCallbacks.OtherModes | src/transport/slipstream.rs:254-260 | no other mode does anything |
| ClientCallbacks.AfterExactly | src/transport/slipstream.rs:336-390 | modes 2 and 3 for every queue and every pattern of refusals: what is on the stream, in the slot, lost and still queued, and when closing is requested |
| ClientCallbacks.DrainExactly | src/transport/slipstream.rs:356-390 | the drain passes over refused end markers, stops at the first refused chunk with bytes, which is lost, and leaves the rest queued |
| ClientCallbacks.TwoWakes | src/transport/slipstream.rs:353-393 | a callback that works gives a listening writer two tokens as far as they fit |
| ClientCallbacks.FirstWakeComesFirst | src/transport/slipstream.rs:353-357 | the first of them before anything is taken from the queue, whoever acts in between |
| ClientCallbacks.AbandonedConnectEnds | src/transport/slipstream.rs:269-320 | with the reader dropped and no connection one time check and one callback in mode 2 or 3 end the loop |
| ClientOrder.FifoExactly | src/transport/slipstream.rs:277-390 | over every interleaved run stream, hand, slot and queue are what was enqueued, in order, exactly when no drain took a chunk different from one in the slot and no drained chunk or peeked end marker was refused |
| ClientOrder.RunsAreInOrderOrSpoilt | src/transport/slipstream.rs:338-390 | after the first such step a chunk is lost or stands in another's place for good; before it everything is in order |
| ClientWaking.WaitingWriterIsWokenInRuns | src/transport/slipstream.rs:261-393 | in every interleaved run of an open bridge in which the writer waits throughout it has had a token once a TIME_CHECK and then an AFTER_* have each gone from start to rest |
| ClientHistory.FlagsAreHistory | src/transport/slipstream.rs:207-235 | in every run the connection is disconnected exactly when a closing event was called back, exists exactly when a ready was, and uses the stream last marked active |
| ClientHistory.ReceiveIsHistory | src/transport/slipstream.rs:220-238 | in every run the receive channel holds exactly the chunks and end markers of the callbacks that found room, in order, less those read |
| ClientHistory.NoOfferDroppedExactly | src/transport/slipstream.rs:220-238 | no callback's chunk is dropped exactly when each finds the reader alive and room |
| ClientHistory.FinBytesIgnoredExactly | src/transport/slipstream.rs:220-229 | the chunks offered to the reader over a run hold all the bytes its callbacks carried exactly when no FIN came with bytes |
| ClientHistory.EndsAreHistory | src/transport/slipstream.rs:550-599 | over every run the application's ends of the three channels are open exactly until it drops them |
| ClientHistory.LoopExitEndsBothHalves | src/transport/slipstream.rs:630-639 | when the packet loop returns the reader gets what is queued and the end, a waiting writer without tokens is reset, and writes fail |
| ClientRuns.RefusedAddReorders | src/transport/slipstream.rs:348-382 | a run from the start with one refused add, after which the younger of two acknowledged chunks is on the stream and the older back in the slot |
| ClientRuns.PutBackOvertakes | src/transport/slipstream.rs:348-390 | whenever a peeked chunk is refused and put back, the whole queue goes before it |
| ClientRuns.AcknowledgedChunkCanBeDiscarded | src/transport/slipstream.rs:271-273 | a run from the start in which an acknowledged chunk is never sent, however it continues |
| ClientRuns.AbandonedWriteIsMisreported | src/transport/slipstream.rs:622-628 | with queues of any capacity a run from the start in which a write of one byte is reported as two, the two of an abandoned write |
| ClientRuns.FullReceiveChannelDrops | src/transport/slipstream.rs:224 | with one callback more than the channel's capacity and no reads, one chunk is dropped, for every capacity |
| ClientRuns.ShutdownMarksExactly | src/transport/slipstream.rs:653-659 | a shutdown enqueues an end marker exactly when the loop still receives and the queue has room, and otherwise changes nothing |
| ClientRuns.FullQueueDropsShutdown | src/transport/slipstream.rs:657 | with queues of any capacity a run from the start after which a shutdown changes nothing and no end marker is on its way |
| ClientRuns.EmptyWriteIsShutdownExactly | src/transport/slipstream.rs:621-628 | a write that finds room does to the bridge what a shutdown does exactly when what it enqueues is empty |
| ClientRuns.EmptyWriteEndsStream | src/transport/slipstream.rs:341-344 | a run from the start in which an empty write puts a FIN on the stream before a byte written later |
| ClientRuns.AbandonedConnectTerminates | src/transport/slipstream.rs:529-534 | a run from the start in which the stream is dropped before there is a connection and the loop ends |
| ClientConnect.Connect | src/transport/slipstream.rs:406-408 | three channels of 4096 chunks, 512 chunks and 512 tokens, one end each in the context and in the two halves |
| ServerTable.TableIsHistory | src/transport/slipstream.rs:829-889 | after any callback sequence a connection is listed exactly when ready and not closed since, bound to the first stream seen since, with three channel ends exactly when bound, and its channel was offered exactly that stream's chunks and end markers |
| ServerTable.StepKeepsRight | src/transport/slipstream.rs:829-891 | each event keeps the entry true to the history |
| ServerTable.AcceptedOncePerIncarnation | src/transport/slipstream.rs:847-861 | a pair is offered to accept exactly once per incarnation that saw stream data, in the order of the first data |
| ServerTable.AcceptsExactlyFirstData | src/transport/slipstream.rs:845-861 | an event offers a pair exactly when it is the first data since the connection became ready |
| ServerTable.FinBytesIgnoredExactly | src/transport/slipstream.rs:874-883 | what a bound connection's reader was offered holds all the bytes the peer sent on the stream since the connection was ready exactly when none of them came with a FIN |
| ServerTable.BoundEntry | src/transport/slipstream.rs:845-873 | a connection that saw data is bound to that data's stream and was offered what it carried since |
| ServerTable.MessageWithFinIsNeverAccepted | src/transport/slipstream.rs:874-883 | a connection whose only message comes with its FIN is never accepted |
| ServerBridge.OpenStream | src/transport/slipstream.rs:847-860 | three new channels of the source's capacities, one end each in the table and in the two halves |
| ServerBridge.ServerGlobalCtx.StreamCallback | src/transport/slipstream.rs:815-893 | the event's entry changes as the history theorem has it and every other entry is untouched; the accept queue gets one pair, holding exactly the other ends of the connection's new channels, if this is its first data and nothing otherwise, and that pair finds room for 4096 chunks with that data as the first to read, for 512 chunks to write and 512 tokens; dropped ends are closed with their content kept; table and queue stay those of the callbacks' history |
| ServerBridge.ServerGlobalCtx.TableAndQueueAreHistory | src/transport/slipstream.rs:808-893 | at any time between callbacks the accept queue got one pair per incarnation that saw data, in order, and each entry is listed, bound and offered as the history says |
| ServerBridge.ServerGlobalCtx.OnData | src/transport/slipstream.rs:843-873 | first data binds, hands out the connection's pair and is the first thing its reader gets; data of the bound stream is offered, data of other streams is ignored |
| ServerBridge.ServerGlobalCtx.BindTo | src/transport/slipstream.rs:846-861 | binding hands accept exactly the halves of the channels the table keeps |
| ServerBridge.ServerGlobalCtx.OfferTo | src/transport/slipstream.rs:862-880 | a chunk goes to its own connection's channel and no other |
| ServerBridge.ServerGlobalCtx.HangUp | src/transport/slipstream.rs:831-842 | the ends of a replaced or removed entry are dropped: the reader drains what is queued, the writer is refused |
| ServerBridge.ServerGlobalCtx.Remove | src/transport/slipstream.rs:884-889 | the entry goes, every other stays |
| ServerBridge.ServerGlobalCtx.DrainOne | src/transport/slipstream.rs:923-937 | one chunk is taken, added to the connection's stream and its writer woken, whatever the answer |
| ServerBridge.ServerGlobalCtx.DrainQueue | src/transport/slipstream.rs:923-938 | the whole queue becomes adds in order, one wake each |
| ServerBridge.ServerGlobalCtx.DrainEntry | src/transport/slipstream.rs:917-940 | a bound entry is drained to its own stream, all other connections and their adds are untouched |
| ServerBridge.ServerGlobalCtx.DrainAll | src/transport/slipstream.rs:915-941 | every bound connection is drained, with the same result for every order in which the map is walked |
| ServerBridge.ServerGlobalCtx.LoopCallback | src/transport/slipstream.rs:897-945 | modes 2 and 3 drain every connection, any other mode touches none; no mode touches the accept queue or what the table records |
| ServerBridge.DrainMeaning | src/transport/slipstream.rs:923-938 | after one AFTER_* the adds made are the queued chunks, in order and on the connection's own stream, the queue is empty, a live writer has one more token for each as far as they fit, and nothing else changes |
| ServerBridge.WakeTimesFills | src/transport/slipstream.rs:934-936 | n wakes leave n more tokens, up to the capacity |
| ServerLink.StepKeepsInv | src/transport/slipstream.rs:884-941 | every atomic action around one connection keeps the wake and FIFO invariants |
| ServerLink.NoLostWakeup | src/transport/slipstream.rs:884-941 | a server writer waiting without a token faces a full queue, an unfinished wake for a taken chunk, or a removed connection that ends the wait |
| ServerLink.QueueReachesStreamExactly | src/transport/slipstream.rs:923-933 | over all runs the stream and what is in flight are the enqueued chunks in order exactly when no event of the run refuses the add of a chunk in hand |
| ServerLink.RefusedAddIsIgnored | src/transport/slipstream.rs:927-936 | a run from the start in which an acknowledged chunk is neither on the stream nor in flight though its writer is woken, with no continuation that makes up for it |
| ServerLink.EndsExactly | src/transport/slipstream.rs:884-889 | each end of a connection's channels is closed by its owner and nothing else: the reading half, the writing half or the removal |
| ServerLink.ReceivedExactly | src/transport/slipstream.rs:862-880 | the reader's channel changes only by an offer that finds room and a live reader, and by the reader taking the oldest chunk |
| ServerWaking.WaitingWriterIsWokenInRuns | src/transport/slipstream.rs:915-941 | in every interleaved run of a connection in which its writer waits throughout it has had a token once an AFTER_* has gone from start to rest |
| ServerRuns.DrainIsARun | src/transport/slipstream.rs:915-941 | draining an entry of the context object is a run of its connection's interleaved model, ending with the same channels, the accepted adds on the stream and the refused ones lost |
| ServerRuns.EventIsAStep | src/transport/slipstream.rs:865-883 | a stream event for a bound entry is the matching step of that model: its own stream's data and FIN offer a chunk or marker, all else nothing |
| ServerRuns.FirstDataIsNewLink | src/transport/slipstream.rs:846-864 | the first data of an unbound connection makes a new connection's channels of 4096, 512 and 512, with its bytes offered to the reader |
| ServerRuns.HangUpIsAStep | src/transport/slipstream.rs:831-889 | dropping the table's ends of an entry is the removal in that model |
| ServerRuns.WaitingWriterIsWoken | src/transport/slipstream.rs:915-941 | one AFTER_* gives a waiting writer a token from every good resting state of a bound connection, whatever is refused |
| EchoPath.StepKeepsInv | src/transport/slipstream.rs:194-945 | every step of the whole path keeps the invariants of its parts and both hops |
| EchoPath.EchoConservation | src/transport/slipstream.rs:194-945 | in every interleaving without harmful refusals, dropped data, bytes on FIN or misused writes, the acknowledged bytes are those read back followed by exactly what the buffers hold, in order |
| EchoPath.EchoSafety | src/lib.rs:84-92 | ... so the client reads a prefix of what was acknowledged to it |
| EchoPath.EchoStepKeepsInv | src/lib.rs:84-92 | every action of the echo handler keeps what it read equal to what its writes acknowledged and what is left of the current one |
| EchoLoop.PollIsRead | src/transport/slipstream.rs:557-592 | a bridged receive half reads like the copy loops' reader: the next arrival, or the part of it that fits, and nothing at the end |
| EchoLoop.RunIsSeen | src/lib.rs:84-92 | every run of the whole path is, for the server's end, a run of the handler on what its receive channel took |
| EchoLoop.HandlerIsTheLoop | src/lib.rs:84-92 | in every run of the whole path the echo handler stands where the copy loop stands between two passes; its writes are a prefix of what the loop copies of what the channel took, and all of it when it finishes |
| EchoEnd.FinishedHasReadAll | src/lib.rs:86-89 | in every run without harm an echo handler that finished after the client's end marker arrived has read and written back exactly the bytes acknowledged before the client's shutdown |
| EchoProgress.GivesUpOnlyWhenRemoved | src/lib.rs:86-91 | in every run the handler is done with bytes left to write only if its connection was removed |
| EchoProgress.WritesWhatItHas | src/lib.rs:90 | in every run a handler with bytes to write, an open queue and room enqueues exactly these with its next two actions and reads on |
| EchoProgress.WaitsForRoom | src/lib.rs:90 | in every run a handler with neither room nor a token is left waiting with the same bytes |
| EchoProgress.PartialWriteGoesOn | src/lib.rs:90 | a write of the first part of what is left goes on with the rest |
| EchoProgress.GoneConnectionEndsWrite | src/lib.rs:90 | a write on a connection that is gone ends the handler |
| EchoProgress.ReadsWhatIsThere | src/lib.rs:84-86 | a read takes the carry-over or the next chunk, up to 8192 bytes |
| EchoProgress.MarkersArrive | src/transport/slipstream.rs:874-883 | a FIN that arrives is offered to the reader behind everything offered before, on either side |
| EchoRuns.EchoHappens | src/lib.rs:84-92 | for queues of any capacity and any list of writes that fit the handler's buffer there is a run from the start without harm in which the client reads back exactly what it wrote |
| EchoRuns.EchoEnds | src/lib.rs:84-92 | ... and one in which the handler then finishes at the client's FIN |
| Deframer.FeedPackets | benches/common/packet_feed.rs:11-25 | packets handed over and leftover are the buffer, also when an input fails; only whole packets are handed over; the loop stops at the first failure and otherwise only when no whole packet is left |
| Deframer.FramingIsUnique | benches/common/packet_feed.rs:15-23 | there is only one way to cut a buffer into whole packets and a rest without one |
| Deframer.ParseIsFraming | benches/common/packet_feed.rs:29-38 | ... and parsing finds it |
| Deframer.ParseContinues | benches/common/packet_feed.rs:44-52 | parsing goes on after more bytes as if they had been there from the start |
| Deframer.FragmentationIndependent | benches/ys_kcp.rs:88-89 | any fragments fed one by one give the packets and the leftover of their concatenation |
| Deframer.Receive | benches/ys_kcp.rs:88-89 | the receive loop ends with the first feed that fails; the engine got the packets of everything taken in less those still buffered, all packets of the whole input without a failure, and a failing input is the last one made |
| Deframer.PacketRoundTrip | benches/common/udp_writers.rs:12-16 | any packets written in any pieces and fed at any points come out as they were, with an empty buffer, for every header layout |
| Deframer.EnginesRoundTrip | benches/common/packet_feed.rs:11-54 | ... in particular for the layouts of the three feed functions |
| Deframer.KcpParseExactly | benches/common/packet_feed.rs:15-23 | the first two engines get 24 bytes and as many more as bytes 20 to 23 say, lowest first, as soon as these are there |
| Deframer.YsKcpParseExactly | benches/common/packet_feed.rs:44-52 | the third gets 28 bytes and as many more as bytes 24 to 27 say |
| Deframer.EncodeIsPacket | benches/common/packet_feed.rs:16-21 | a header with the payload's length and the payload are one packet |
| UdpWriters.LoopbackWriter.Write | benches/common/udp_writers.rs:12-16 | the bytes are appended to the shared buffer |
| UdpWriters.SendRetrying | benches/common/udp_writers.rs:67-75 | one datagram goes out exactly when the first attempt of ten that does not block succeeds; only a hard failure is reported as an error |
| UdpWriters.BlockedExactly | benches/common/udp_writers.rs:30-38 | which attempt decides a send |
| UdpWriters.DecidedExactly | benches/common/udp_writers.rs:30-38 | a send succeeds or fails as the first of ten attempts that does not block |
| UdpWriters.TriesExactly | benches/common/udp_writers.rs:67-75 | the number of attempts made, at most ten |
| UdpWriters.ClientUdpWriter.Write | benches/common/udp_writers.rs:29-40 | a reported write was sent exactly when an attempt was not blocked; an error sent nothing |
| UdpWriters.ServerUdpWriter.SendBuffered | benches/common/udp_writers.rs:54-61 | the peer is set and the buffer is taken and sent once |
| UdpWriters.ServerUdpWriter.Write | benches/common/udp_writers.rs:65-80 | bytes are buffered until the peer is known and sent to it from then on; only a hard failure is reported |
| UdpWriters.WrittenIsSentOrBuffered | benches/common/udp_writers.rs:53-80 | over any interleaving of writes and announcements through writers sharing the cells, payloads sent and buffer are the bytes written, in order, exactly when every send with bytes in it goes through; the buffer is empty once the peer is known |
| UdpWriters.SendsToLatestPeer | benches/common/udp_writers.rs:54-66 | each event sends at most one datagram, to the peer announced last |
| UdpWriters.ExhaustedWriteIsReportedWritten | benches/common/udp_writers.rs:67-79 | from the start: the peer becomes known, ten attempts block, and a byte is reported written that is neither sent nor buffered |
| UdpWriters.ReportedButLostExactly | benches/common/udp_writers.rs:65-80 | a write is reported written while its bytes are lost exactly when the peer is known and all ten attempts block |
| UdpWriters.ReportExactly | benches/common/udp_writers.rs:65-80 | an error is reported exactly when the peer is known and the first of ten attempts that does not block fails; in every other case the whole length is |
| UdpWriters.WriteExactly | benches/common/udp_writers.rs:65-80 | what a write buffers and what it sends, and to whom |
| UdpWriters.AnnounceExactly | benches/common/udp_writers.rs:54-61 | announcing the peer empties the buffer with one attempt at one datagram, and makes none when nothing is buffered |
| FramedEcho.ServeStream | benches/quinn_bench.rs:120-153 | the loop's output is the answer to its whole input, as far as the peer takes it, and it finishes the stream exactly in single-shot mode |
| FramedEcho.ServeOneShot | benches/quinn_bench.rs:129-138 | after the sentinel the remainder is echoed exactly when it ends within 65536 bytes |
| FramedEcho.EchoFrame | benches/quinn_bench.rs:146-152 | length and data go out in this order; failure exactly when they do not fit |
| FramedEcho.ServeExactly | benches/quinn_bench.rs:120-153 | however an input is cut into frames and a rest, the answer is the frames and, exactly for a sentinel whose remainder ends within 65536 bytes, the remainder |
| FramedEcho.FrameExactly | benches/quinn_bench.rs:121-145 | what a frame and the sentinel are, byte by byte: lengths 1 to 65535, and 65536 |
| FramedEcho.LongestFramedPrefix | benches/quinn_bench.rs:139-152 | for every input in which no sentinel follows its frames the answer is the longest prefix made of whole valid frames |
| FramedEcho.CutIsUnique | benches/quinn_bench.rs:120-153 | there is only one way to cut an input into frames and a rest that starts with none |
| FramedEcho.ServeIsMonotone | benches/quinn_bench.rs:120-153 | what was answered to a part of the input is never taken back, so it does not matter when a client reads it |
| FramedEcho.ClientStream.StreamRoundtrip | benches/quinn_bench.rs:208-224 | one frame out and one frame back on an open stream; a frame that cannot be written whole fails the round trip |
| FramedEcho.ClientStream.ConnectionRoundtrip | benches/quinn_bench.rs:193-202 | the single-shot round trip returns the payload exactly when it has at most 65536 bytes and could be written |
| FramedEcho.RoundtripExactly | benches/quinn_bench.rs:208-224 | on a stream in step a payload comes back exactly when it has 1 to 65535 bytes, and the stream stays in step |
| FramedEcho.SessionIsIdentityExactly | benches/quinn_bench.rs:208-224 | over any number of round trips on one stream every payload comes back unchanged exactly when all have 1 to 65535 bytes |
| FramedEcho.EmptyPayloadEndsSession | benches/quinn_bench.rs:139-141 | after any good payloads and an empty one no round trip of the session returns anything |
| FramedEcho.LongPayloadNotReturned | benches/quinn_bench.rs:129-141 | a payload longer than 65535 bytes whose length fits 32 bits is not answered at all |
| FramedEcho.SingleShotExactly | benches/quinn_bench.rs:170-188 | the sentinel round trip succeeds exactly up to 65536 bytes |
| Relay.Relay | src/lib.rs:36-54 | the writer gets a prefix of what arrives before the first empty read, all of it as far as it takes bytes unless a flush fails; the copy completes exactly when arrivals end cleanly, fit, and every flush works; then it made one flush for each non-empty read of at most 8192 bytes and reports the length as a 64-bit count |
| Relay.Echo | src/lib.rs:84-92 | the same for the echo of a connection |
| Relay.CopyPass | src/lib.rs:45-50 | one read of at most 8192 bytes, its write and exactly one flush keep what was copied and what is left to copy equal to what arrives |
| Relay.Sink.PassOn | src/lib.rs:49-50 | exactly one flush follows a write that fits, and success means that it worked |
| Relay.BeforeExactly | src/lib.rs:45-48 | what is copied are the arrivals up to the first empty one |
| Relay.SplitKeeps | src/lib.rs:42-45 | reading an arrival in pieces of the buffer's size changes nothing |
| LittleEndian.FromTo | benches/quinn_bench.rs:126 | four little-endian bytes give back the 32-bit number |

## Left out

- picoquic, tokio, quinn and the KCP crates: channels are bounded queues with close flags, a stream is an ordered byte stream per direction, and tokio's cooperative budget is ignored.
- ClientProtocol.StepKeepsInv: memory orderings of the atomics are not modelled; each load, store or queue operation is one step of an interleaving.
- ServerBridge.ServerGlobalCtx.StreamCallback: the mutex around the table is not modelled, since both callbacks run on the packet loop's thread.
- EchoPath.EchoConservation: one connection with one stream, made ready before its first data arrives; the client does not look at stream ids, and connections are isolated by ServerTable.TableIsHistory.
- EchoPath.StepKeepsInv: the server's bound connection ends for good when it is removed; a second incarnation under the same key is covered by the table theorems only.
- ServerBridge.ServerGlobalCtx.DrainAll: picoquic's answers to adds are indexed per connection, so that its answers on one connection do not depend on when others are drained is assumed, not proved.
- EchoPath.FinalSize: a stream ends with the first FIN added (section 4.5 of RFC 9000); bytes added after it are never handed over, and resets of the client's stream by the server are callbacks that may come at any time.
- Deframer.FeedPackets: lengths are unbounded, so a header plus a 32-bit length does not overflow, as on 64-bit targets.
- FramedEcho.ServeStream: a read that would wait for ever and one that fails are not told apart; time-outs of the clients are failed reads.
- The `delta_t` arithmetic, the READY mode's flag and the ready channel of `connect_stream`, which also reports success when that channel closes.
- A stream id equal to the not-set value 2^64 - 1, which no QUIC stream has.
- `poll_flush`, `peer_addr`, `Transport` parsing and the dispatch of `ProxyStream`: single-branch wrappers.
- The upstream branch of `handle_connection`, which is tokio's `copy_bidirectional`.
- TLS, PEM files, path handling, raw pointer lifetimes and C string conversion.
- Accept and rebind loops, semaphores, signals, command line, benchmark harnesses and counters.
