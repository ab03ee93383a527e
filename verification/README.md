# IBR-DTN daemon: a verified model

IBR-DTN is a bundle-protocol node (RFC 5050). This project models the parts of its daemon whose correctness
spans whole runs, several threads or two ends of a link, and proves what those parts are for. Each
part is a state machine or a set of functions with an invariant and main theorems; where the daemon
works by updating objects, a class with the same fields updates them in place and each method is proved
against the function the theorems are about.

| file | what it models |
|---|---|
| `DatagramStream.dfy` | the stream object of a datagram connection, and sending one segment with acknowledgements |
| `StopAndWait.dfy`, `StopAndWaitMarks.dfy`, `SendingThread.dfy` | sender, lossy and duplicating channels, receiver and reader as one state machine; which segments it may be given; the sending loop as its steps |
| `Segmentation.dfy` | cutting messages into marked segments, and the receiver's check of the marks |
| `UnacknowledgedStream.dfy` | the same stream without flow control over a lossy channel |
| `BundleStreamWriter.dfy`, `BundleStreamReader.dfy`, `BundleStreamRoundTrip.dfy` | an ordered byte stream over bundles |
| `Retransmission.dfy` | the retry queue and its exponential backoff |
| `Transfers.dfy`, `TransferHistory.dfy` | transfer slots of neighbours, TCP queues, events and retries together; their runs told from the steps alone |
| `EventSwitch.dfy`, `EventOrder.dfy` | event queues, workers, unregistration and reference counts; in which order and to whom events are delivered |
| `FileStorage.dfy`, `FileStorageRefinement.dfy`, `FileStorageResults.dfy`, `BundleNames.dfy`, `HexKeys.dfy` | the file-backed storage with its writer thread, its invariant, what it guarantees and when; the names of bundles and files |
| `MemoryStorage.dfy`, `MemoryCapacity.dfy`, `BundleOrder.dfy` | the in-memory storage and its priority index, its byte count, the orders of identifiers |
| `SqlStorage.dfy` | paged queries and cached expiry of the SQLite storage |
| `BundleSummary.dfy` | the list of known bundles behind a Bloom filter |
| `Sdnv.dfy`, `EndpointNames.dfy`, `CodedLists.dfy`, `Beacons.dfy`, `BeaconsV2.dfy`, `Handshakes.dfy` | numbers, identifiers, discovery beacons and handshake messages |
| `ByteStrings.dfy`, `Modular.dfy`, `Sums.dfy`, `OrderedSets.dfy`, `BundleTables.dfy`, `Selections.dfy` | byte strings, remainders, sums over maps, ordered sets, tables ordered by identifier, filtered lists |

A lock-protected region is one step, a blocking wait is a step that is not enabled, and time, arrivals,
losses and the outcome of foreign calls are parameters or choices of the run. Runs are sequences of states
or of events, of any length.

## Findings

Places where what one would like to hold does not, with the exact condition where it does:

- Stop-and-wait is safe if and only if there are at least two sequence numbers (`StopAndWait.SafeIffTwoNumbers`).
  A segment with a wrong mark is refused and acknowledged all the same, so the sender moves past accepted
  segments only, if and only if the marks are well formed (`StopAndWaitMarks.AdvancesSafelyIff`).
- The receiver aborts on every repeated frame, so a single lost acknowledgement ends the connection although the
  segment arrived (`StopAndWait.AbortsIffRepeated`, `StopAndWaitMarks.LostAckEndsConnection`).
- A message whose length is a positive multiple of the segment size gets no LAST mark, so the next one aborts
  the stream: `Segmentation.ReceiverAgreesIff`.
- Without flow control the loss of a whole round of sequence numbers goes unnoticed
  (`UnacknowledgedStream.PrefixIffBurstsAreShort`).
- One transfer can end in two requeue events, and the retry set is keyed by the bundle alone. A late second
  event can therefore send the repetition of a later transfer to the wrong neighbour, and the slot of the right
  one is never released, even though the bundle is never in transit to two neighbours at once
  (`Transfers.OneHolderIsNotEnough`). `Transfers.StepLeaksIff` says exactly which step leaks.
- Unregistering a receiver drops its tasks without counting them: the event stays in memory for ever, and a
  blocking raise of it never returns (`EventSwitch.DeletedIffAllFinished`, `EventSwitch.BlockingRaiseReturnsIff`).
- A duplicate stored in the in-memory storage is charged and never given back until the storage is cleared:
  the byte counter is exact if and only if there was none (`MemoryCapacity.SizeIsExactIff`).
- The in-memory storage notes lengths in a table that takes a whole bundle and its fragments for one. With both
  in the storage it gives back the wrong length, and the counter falls below what is held and below zero
  (`MemoryCapacity.CoveredIff`).
- The order of bundle identifiers does not tell a fragment from a whole bundle with the same base:
  `BundleOrder.OrderIsTotalIff`. With both in the file-backed storage a fragment is accepted and cannot be looked
  up, a lookup of the whole bundle returns the fragment, and sizes are given back wrongly: it behaves like a map,
  and its counter is exact, if and only if there is no such pair (`FileStorageResults.RefinesMapIff`,
  `FileStorageResults.CounterIsExactIff`). A deletion mark of the SQLite storage hides both (`SqlStorage.MarkHidesIff`).
  The quick check of a bundle summary agrees with its list if and only if there is
  no such pair (`BundleSummary.QuickCheckIsExactIff`).
- An expiry time of 0 switches the expiry of the SQLite storage off: `SqlStorage.StoreKeepsCacheIff` and
  `SqlStorage.ExpireTaskIsEagerIff`.
- Version 2 beacons test their flags with a logical instead of a bitwise AND: with the null endpoint its name is
  written, but not announced, and the parser takes the length of the name for the number of services; without
  services a count is written that nobody reads. `BeaconsV2.V2RoundTripIff` says exactly which beacons are read back.
- The two kinds of vectors in a handshake have the same identifier, so that only the second of them arrives
  (`Handshakes.SecondVectorReplacesFirst`).

## Model

| member | source | states |
|---|---|---|
| `DatagramStream.Stream.Queue` | daemon/src/net/DatagramConnection.cpp:226-285 | an arriving frame is thrown out exactly if the stream is aborted or the frame is FIRST with a wrong number, accepted exactly if number and mark fit, and refused otherwise; the state becomes that of the value-level receiver |
| `DatagramStream.Stream.CopyIntoSlot` | daemon/src/net/DatagramConnection.cpp:287-301 | the accepted payload, and nothing else, is handed over into the free buffer |
| `DatagramStream.Stream.Underflow` | daemon/src/net/DatagramConnection.cpp:374-398 | the reader gets exactly the buffered bytes; it fails only on an aborted stream with nothing buffered |
| `DatagramStream.Stream.Overflow` | daemon/src/net/DatagramConnection.cpp:333-372 | the buffered bytes and the extra one become one segment with the next number, or nothing is sent and the number stays |
| `DatagramStream.Stream.WriteByte` | daemon/src/net/DatagramConnection.cpp:204-217 | a byte is buffered while there is room, even on an aborted stream, and otherwise completes a segment, which fails on an aborted stream or if the link does not take it |
| `DatagramStream.Stream.Sync` | daemon/src/net/DatagramConnection.cpp:316-331 | a flush sends what is buffered marked LAST and starts a new message; a failed one has sent nothing and leaves the LAST mark set |
| `DatagramStream.AckWaiter.Ack` | daemon/src/net/DatagramConnection.cpp:152-161 | an acknowledgement counts only for the segment being sent |
| `DatagramStream.AckWaiter.StreamSend` | daemon/src/net/DatagramConnection.cpp:163-202 | a segment is sent until acknowledged, five times at most; it fails exactly if no wait saw its number |
| `StopAndWait.ReceiveAckKeeps` | daemon/src/net/DatagramConnection.cpp:152-161 | an acknowledgement that counts is one for the current segment: stale modular numbers are never taken for it |
| `StopAndWait.ReceiveFrameKeeps` | daemon/src/net/DatagramConnection.cpp:226-285 | an accepted frame carries the next segment: stale modular numbers are never taken for it |
| `StopAndWait.StepKeeps` | daemon/src/net/DatagramConnection.cpp:141-202 | every step of sender, channels, receiver and reader keeps the invariant over absolute indices |
| `StopAndWait.ReadIsPrefixOfSent` | daemon/src/net/DatagramConnection.cpp:226-314 | in every run with two or more numbers, over channels that lose and duplicate in order, the bytes read are a prefix of the bytes sent |
| `StopAndWait.AdvancesOnlyPastAccepted` | daemon/src/net/DatagramConnection.cpp:163-202 | with well-formed marks the sender never moves past a segment the receiver has not accepted |
| `StopAndWait.SendsAreBounded` | daemon/src/net/DatagramConnection.cpp:170-200 | in every run, over any number of sequence numbers, each segment is sent at most five times, and given up only after the fifth |
| `StopAndWait.OneNumberIsUnsafe` | daemon/src/net/DatagramConnection.cpp:226-301 | with one number there is a run in which a duplicated frame is read twice |
| `StopAndWait.SafeIffTwoNumbers` | daemon/src/net/DatagramConnection.cpp:141-314 | all runs are prefix-safe if and only if there are at least two numbers |
| `StopAndWait.CompletedHasArrived` | daemon/src/net/DatagramConnection.cpp:226-314 | while the receiver has not aborted, all bytes that sending returned for have arrived: nothing is lost |
| `StopAndWait.ClosedWhenAllIsRead` | daemon/src/net/DatagramConnection.cpp:303-314 | in every run, while the receiver has not aborted and nothing is pending, it can be closed exactly if all that was accepted has been read |
| `StopAndWait.AbortsIffRepeated` | daemon/src/net/DatagramConnection.cpp:238-251 | with well-formed marks the receiver aborts on a frame if and only if it has accepted that segment already |
| `StopAndWait.AnswerToFrame` | daemon/src/net/DatagramConnection.cpp:141-301 | in every run: an aborted receiver answers nothing, a repeated frame aborts it and is acknowledged exactly if it is not FIRST, the next one is accepted exactly if its mark fits and otherwise refused and acknowledged |
| `StopAndWait.AcknowledgedWhenHandedOver` | daemon/src/net/DatagramConnection.cpp:287-301 | the acknowledgement of an accepted frame goes out when its payload is handed over, once |
| `StopAndWaitMarks.LostAckEndsConnection` | daemon/src/net/DatagramConnection.cpp:163-251 | for every well-marked list there is a run in which one lost acknowledgement ends the connection after its last segment |
| `StopAndWaitMarks.WrongMarkIsPassedOver` | daemon/src/net/DatagramConnection.cpp:141-150 | for every well-marked list and every wrongly marked segment behind it there is a run in which that segment is refused and the sender moves past it |
| `StopAndWaitMarks.AdvancesSafelyIff` | daemon/src/net/DatagramConnection.cpp:141-301 | for every list of segments: in all runs the sender moves past accepted segments only, if and only if the marks are well formed |
| `SendingThread.LoopOutcome` | daemon/src/net/DatagramConnection.cpp:163-202 | the sender's steps end in success or failure, with the last acknowledgement and the number of sends that the calls' acknowledgements determine |
| `SendingThread.SendSegment` | daemon/src/net/DatagramConnection.cpp:163-202 | one call of the sending loop on the object has the outcome of those steps |
| `Segmentation.SendMessage` | daemon/src/net/DatagramConnection.cpp:316-372 | writing and flushing a message on the stream object sends exactly the segments of the value-level description |
| `Segmentation.WriteMessageShape` | daemon/src/net/DatagramConnection.cpp:316-372 | one message: first and only first segment FIRST, last and only last segment LAST unless its length is a multiple of the segment size |
| `Segmentation.SegmentsCarryTheMessages` | daemon/src/net/DatagramConnection.cpp:333-372 | for any messages: segments of 1 to the maximum bytes, consecutive numbers modulo the maximum, concatenating to the messages |
| `Segmentation.AcceptedIffWellMarked` | daemon/src/net/DatagramConnection.cpp:247-285 | over a loss-free channel the receiver does not abort if and only if every segment's FIRST mark follows a LAST one |
| `Segmentation.ReceiverAgreesIff` | daemon/src/net/DatagramConnection.cpp:247-372 | the receiver takes all segments if and only if no message of a multiple length is followed by a non-empty one |
| `Segmentation.MessagesOverStopAndWait` | daemon/src/net/DatagramConnection.cpp:141-398 | for such messages sent by stop-and-wait, what is read is a prefix of the messages in every run |
| `UnacknowledgedStream.GaplessUntilAborted` | daemon/src/net/DatagramConnection.cpp:226-301 | with bursts of loss shorter than a round, exactly the first frames were passed on, or the stream is aborted behind a prefix |
| `UnacknowledgedStream.WholeRoundGoesUnnoticed` | daemon/src/net/DatagramConnection.cpp:238-246 | for every number of sequence numbers, losing a whole round delivers something that is no prefix |
| `UnacknowledgedStream.PrefixIffBurstsAreShort` | daemon/src/net/DatagramConnection.cpp:192-301 | delivery is a prefix for all frames and losses if and only if bursts are shorter than a round |
| `BundleStreamWriter.BundleStreamOut.FlushChunk` | daemon/src/api/BundleStreamBuf.cpp:77-106 | the collected payload is sent as the next numbered chunk, BEGIN for the first and END for the final one |
| `BundleStreamWriter.BundleStreamOut.HandleOverflow` | daemon/src/api/BundleStreamBuf.cpp:46-75 | the buffer moves to the payload, which is sent once it exceeds the chunk size |
| `BundleStreamWriter.BundleStreamOut.Write` | daemon/src/api/BundleStreamBuf.cpp:18-75 | writing bytes on the object is writing them one by one on the value |
| `BundleStreamWriter.BundleStreamOut.Flush` | daemon/src/api/BundleStreamBuf.cpp:34-44 | a flush sends all that is left as the final chunk |
| `BundleStreamWriter.WritesConcatenate` | daemon/src/api/BundleStreamBuf.cpp:46-75 | several writes are one write of all their bytes |
| `BundleStreamWriter.ChunksCarryTheBytes` | daemon/src/api/BundleStreamBuf.cpp:34-106 | chunks are numbered 0..n-1, only the first BEGIN, only the last END, concatenate to the input, and all but the last exceed the chunk size by at most one buffer |
| `BundleStreamWriter.NothingSentForNothing` | daemon/src/api/BundleStreamBuf.cpp:77-106 | a flush with nothing ever written sends nothing |
| `BundleStreamReader.BundleStreamIn.InsertChunk` | daemon/src/api/BundleStreamBuf.cpp:284-292 | a chunk goes to its place by number; one already there is kept |
| `BundleStreamReader.BundleStreamIn.RequestChunk` | daemon/src/api/BundleStreamBuf.cpp:134-182 | an arriving chunk is buffered unless it is stale |
| `BundleStreamReader.BundleStreamIn.ReadFirstChunk` | daemon/src/api/BundleStreamBuf.cpp:184-263 | one buffer of the first chunk is returned; reaching its end consumes and reports it |
| `BundleStreamReader.BundleStreamIn.UnderflowNow` | daemon/src/api/BundleStreamBuf.cpp:125-264 | the wait loops and the recursion compute the value-level underflow |
| `BundleStreamReader.UnderflowKeepsOrder` | daemon/src/api/BundleStreamBuf.cpp:125-264 | each call, for any arrivals, timeouts and settings: nothing buffered is stale, a partly read chunk stays first, consumed numbers strictly ascend, each is reported once, and exactly their payloads are returned |
| `BundleStreamReader.GoesOnIff` | daemon/src/api/BundleStreamBuf.cpp:155-182 | a reader that waits for a number goes on after a request exactly if it has not begun to stream, its timeout is set and has passed, or the awaited chunk came; then with the smallest number it has |
| `BundleStreamReader.LateSkips` | daemon/src/api/BundleStreamBuf.cpp:155-182 | with the timeout passed and something buffered the call does not block, and the next chunk read has the smallest number buffered |
| `BundleStreamReader.StartsWithSmallest` | daemon/src/api/BundleStreamBuf.cpp:134-182 | a reader that does not wait for number zero starts with the smallest number buffered when it begins |
| `BundleStreamRoundTrip.ReadAll` | daemon/src/api/BundleStreamBuf.cpp:125-264 | reading the object to its end is reading the value to its end |
| `BundleStreamRoundTrip.DeliveryIsOrdered` | daemon/src/api/BundleStreamBuf.cpp:125-264 | in every run of a new reader, for any arrivals, timeouts and settings, consumed numbers strictly ascend, each chunk is reported once and the returned bytes are their payloads in order |
| `BundleStreamRoundTrip.StreamingSkipsNothing` | daemon/src/api/BundleStreamBuf.cpp:155-182 | from every state in which it streams, a reader whose requests are in time consumes the awaited number and those behind it without a gap |
| `BundleStreamRoundTrip.NothingIsSkippedInTime` | daemon/src/api/BundleStreamBuf.cpp:155-182 | for every timeout and every order of arrival, a reader that waits for number zero and is never late consumes 0, 1, 2, ... without a gap |
| `BundleStreamRoundTrip.RoundTrip` | daemon/src/api/BundleStreamBuf.cpp:34-264 | for every non-empty input, chunk size, timeout and order of arrival with duplicates in which no request is late, exactly the written bytes and then the end are read, each chunk reported once |
| `Retransmission.RetransmissionExtension.OnTick` | daemon/src/routing/RetransmissionExtension.cpp:32-49 | a tick sends the head of the queue exactly if it is due, never earlier |
| `Retransmission.RetransmissionExtension.OnRemoved` | daemon/src/routing/RetransmissionExtension.cpp:51-70 | a finished or aborted transfer takes the bundle out of the set |
| `Retransmission.RetransmissionExtension.OnRequeue` | daemon/src/routing/RetransmissionExtension.cpp:72-105 | a requeue queues the next repetition, or aborts when eight were made |
| `Retransmission.RetransmissionExtension.OnExpired` | daemon/src/routing/RetransmissionExtension.cpp:107-129 | the rotation drops and aborts exactly the expired bundle's entries and keeps the order of the others |
| `Retransmission.AbortsName` | daemon/src/routing/RetransmissionExtension.cpp:107-129 | each abort of an expired entry names the neighbour and the bundle of that entry |
| `Retransmission.RetriesAreBounded` | daemon/src/routing/RetransmissionExtension.cpp:51-105 | in every event run at most eight repetitions since the last removal, counted on the event list alone; the n-th is released 2^(n-1) seconds after its requeue and goes to the neighbour of the first |
| `Retransmission.RequeueEffect` | daemon/src/routing/RetransmissionExtension.cpp:72-105 | the ninth requeue since the last removal, and only it, aborts; any other pushes exactly one entry, for the neighbour of the first |
| `Retransmission.SentWhenDue` | daemon/src/routing/RetransmissionExtension.cpp:32-49 | in every event run a tick sends the head of the queue exactly if it is the n-th repetition of a requeue at least 2^(n-1) seconds ago; no other entry leaves |
| `Retransmission.BackoffSum` | daemon/src/routing/RetransmissionExtension.cpp:164-188 | n repetitions wait 2^n - 1 seconds together |
| `Retransmission.BackoffLimits` | daemon/src/routing/RetransmissionExtension.cpp:164-188 | eight repetitions wait 255 seconds, none longer than 128 |
| `Retransmission.OldEntriesComeFirst` | daemon/src/routing/RetransmissionExtension.cpp:107-129 | whatever happens, survivors of the old entries stay in front, in their order |
| `Retransmission.EveryRetryLeavesInTime` | daemon/src/routing/RetransmissionExtension.cpp:32-49 | all n entries queued at time t are sent or removed within n ticks at or after t + 128 |
| `Transfers.NeighborEntry.AcquireTransfer` | daemon/src/routing/NeighborDatabase.cpp:116-130 | a slot is given exactly if the bundle has none and fewer than five are taken |
| `Transfers.NeighborEntry.ReleaseTransfer` | daemon/src/routing/NeighborDatabase.cpp:132-138 | exactly this bundle's slot is freed |
| `Transfers.TCPConnection.EventBundleForwarded` | daemon/src/net/TCPConnection.cpp:237-254 | an acknowledgement takes the oldest sent bundle off the queue, raises the completed event for it, reports it forwarded and resets the acknowledged count; a surplus one changes nothing |
| `Transfers.TCPConnection.EventBundleRefused` | daemon/src/net/TCPConnection.cpp:220-235 | a refusal takes the oldest sent bundle off the queue, raises the aborted event with the refusal as reason and resets the acknowledged count; a surplus one changes nothing |
| `Transfers.TCPConnection.ClearQueue` | daemon/src/net/TCPConnection.cpp:593-633 | one requeue event for each queued and each unacknowledged bundle, in order, as the state machine's step raises them in any state |
| `Transfers.StepLeaksIff` | daemon/src/routing/BaseRouter.cpp:222-268 | from a state in which every slot is backed by a live token, a step leaves one unbacked if and only if it handles the last token of a holder whose bundle is filed under another neighbour |
| `Transfers.RunLeaksIff` | daemon/src/routing/RetransmissionExtension.cpp:72-105 | a run never leaks a slot, if and only if none of its steps is such a one |
| `Transfers.FiledElsewhereLeaks` | daemon/src/routing/BaseRouter.cpp:81-88 | in every state a bundle filed under another neighbour, with repetitions left, can leak its slot two steps after it is routed |
| `Transfers.StepMentions` | daemon/src/core/BundleCore.cpp:124-137 | no step but routing makes anything name a new neighbour for a bundle |
| `Transfers.CarefulRunsNeverLeak` | daemon/src/net/TCPConnection.cpp:543-658 | in every interleaving in which a bundle is routed only when nothing concerns another neighbour, every taken slot has a live token |
| `Transfers.SlotsAreBounded` | daemon/src/routing/NeighborDatabase.cpp:116-138 | in every run at all no neighbour holds more than five slots |
| `Transfers.OneHolderIsNotEnough` | daemon/src/routing/RetransmissionExtension.cpp:30-130 | a run with one holder per bundle at any time that ends with a leaked slot |
| `TransferHistory.StepSignals` | daemon/src/routing/BaseRouter.cpp:222-268 | for every step and every event: how many of it are raised, told from the step and the queues, and that it leaves only by being handled; completed events come from acknowledgements of the oldest sent bundle alone |
| `TransferHistory.EventsAreAccountedFor` | daemon/src/routing/BaseRouter.cpp:222-268 | in every run the events raised are those handled and those still pending |
| `TransferHistory.AnswersInOrder` | daemon/src/net/TCPConnection.cpp:220-254 | in every run the k-th answer on a connection is about the k-th bundle whose writing began on it: an acknowledgement completes this transfer, a refusal aborts it, and no other event is raised |
| `TransferHistory.FetchesInOrder` | daemon/src/net/TCPConnection.cpp:543-592 | in every run bundles are fetched in the order in which they were handed to the connection |
| `TransferHistory.SenderStepsIff` | daemon/src/net/TCPConnection.cpp:543-592 | in every run a sender fetches exactly when idle with something queued, begins to write what it fetched last, once, or finds it missing, and ends what it began; an answer can come exactly while something begun has none |
| `TransferHistory.OrphansAreAccountedFor` | daemon/src/net/TCPConnection.cpp:543-633 | in every run each bundle in hand when its connection went down is ended once, by a requeue or an abort, or still to be ended |
| `TransferHistory.StepSlots` | daemon/src/routing/NeighborDatabase.cpp:116-138 | routing takes its slot, handling the end of a transfer frees its own, and no other step touches any slot |
| `TransferHistory.SlotHeldIff` | daemon/src/routing/BaseRouter.cpp:222-268 | in every run a slot is held exactly from the routing decision until the end of the transfer is handled |
| `TransferHistory.RetriesOfRun` | daemon/src/routing/RetransmissionExtension.cpp:51-105 | in every run of the whole system at most eight repetitions of a bundle are on file since its last end, and exactly the ninth requeue raises the abort |
| `EventSwitch.Event.DecrementRefCount` | daemon/src/core/Event.cpp:48-68 | the count falls by one, is an error at zero, and the caller has to delete the event exactly with the last reference of an auto-delete event |
| `EventSwitch.EventQueue.RaiseEvent` | daemon/src/core/EventSwitch.cpp:238-266 | the count is the number of receivers; the queue of the sign of the priority grows by one task for each receiver, in their order, and the other two stay |
| `EventSwitch.EventQueue.TakeTask` | daemon/src/core/EventSwitch.cpp:55-82 | the oldest task of the highest non-empty queue is taken |
| `EventSwitch.EventQueue.RegisterEventReceiver` | daemon/src/core/EventSwitch.cpp:157-163 | the receiver is appended to the event's list |
| `EventSwitch.EventQueue.RemoveReceiver` | daemon/src/core/EventSwitch.cpp:173-185 | the receiver is taken off the event's list once |
| `EventSwitch.EventQueue.PurgeTasks` | daemon/src/core/EventSwitch.cpp:191-205 | exactly the receiver's tasks leave the normal queue, the others keep their order and number |
| `EventSwitch.StepKeeps` | daemon/src/core/EventSwitch.cpp:51-101 | every step keeps: count = to be pushed + queued + running + dropped, for each event |
| `EventSwitch.CountsCoverTasks` | daemon/src/core/EventSwitch.cpp:51-267 | in every interleaving no deleted event is used, no count falls below zero, and it exceeds the live tasks by exactly those dropped |
| `EventSwitch.FaultIff` | daemon/src/core/EventSwitch.cpp:51-101 | in every state a step is a fault exactly if the event it works with was deleted, or a task ends that its count does not cover |
| `EventSwitch.UsesAreAlive` | daemon/src/core/EventSwitch.cpp:51-101 | whatever step can come next in any run, the event it works with exists, was not deleted, and has a positive count if a task of it ends |
| `EventSwitch.DeletedOnceAndUnused` | daemon/src/core/EventSwitch.cpp:296-305 | an event is deleted at most once, and never while a task refers to it |
| `EventSwitch.DeletedIffAllFinished` | daemon/src/core/EventSwitch.cpp:171-209 | an auto-delete event is deleted if and only if no task is left and none was dropped |
| `EventSwitch.DeletedWithLastTask` | daemon/src/core/Event.cpp:42-68 | with no unregistration it is deleted exactly when its last task ends |
| `EventSwitch.BlockingRaiseReturnsIff` | daemon/src/core/Event.cpp:19-40 | a blocking raise can return if and only if all tasks have finished and none was dropped |
| `EventOrder.ServedByPriority` | daemon/src/core/EventSwitch.cpp:51-82 | in every run a worker takes the task that came first among those of the greatest sign of priority |
| `EventOrder.NoGreaterIsPassedOver` | daemon/src/core/EventSwitch.cpp:55-82 | in every run no queued task is of an event whose priority has a greater sign than that of the task taken |
| `EventOrder.ListedAsRegistered` | daemon/src/core/EventSwitch.cpp:157-185 | in every run a receiver is listed under a name as often as it was registered and not taken off since |
| `EventOrder.EveryTaskIsAccountedFor` | daemon/src/core/EventSwitch.cpp:51-266 | in every run, for each event and receiver, one task per listing at the time of the raise: carried out, dropped by an unregistration or still open; nothing is lost and nobody is told twice |
| `EventOrder.WaitsIffBlocking` | daemon/src/core/Event.cpp:19-40 | in every run exactly the blocking raises wait, from the last task they queue until they are woken |
| `EventOrder.DeletedIffWoken` | daemon/src/core/Event.cpp:19-40 | in every run an event of a blocking raise is deleted by the return of that raise, once, and in no other way |
| `HexKeys.ComputeHash` | daemon/src/core/DataStorage.cpp:50-58 | the loop computes the hexadecimal name, negative characters as eight digits |
| `HexKeys.HashIsInjective` | daemon/src/core/DataStorage.cpp:50-58 | distinct names have distinct hexadecimal names |
| `BundleNames.NameIsInjective` | ibrdtn/ibrdtn/data/BundleID.cpp:77-90 | distinct identifiers have distinct names |
| `BundleNames.FileNameIsInjective` | daemon/src/core/DataStorage.cpp:50-58 | distinct bundles never share a file |
| `FileStorage.SimpleBundleStorage.StoreBundle` | daemon/src/core/SimpleBundleStorage.cpp:264-317 | a bundle is accepted exactly if there is no limit or the counter and its size are within it; then it becomes pending, its size is noted and its task queued, and it enters the index unless that takes it for a listed one; otherwise nothing changes |
| `FileStorage.SimpleBundleStorage.RemoveBundle` | daemon/src/core/SimpleBundleStorage.cpp:319-344 | the first listed bundle that compares equal vanishes at once and the removal of its file is queued |
| `FileStorage.SimpleBundleStorage.EventBundleExpired` | daemon/src/core/SimpleBundleStorage.cpp:402-428 | the removal of the file of the first listed bundle that compares equal is queued, and the expired one leaves the index |
| `FileStorage.SimpleBundleStorage.GetBundle` | daemon/src/core/SimpleBundleStorage.cpp:125-256 | the first listed bundle that compares equal is looked up among the pending ones, then among the files |
| `FileStorage.SimpleBundleStorage.RunTask` | daemon/src/core/DataStorage.cpp:179-248 | the writer works off the oldest task: it writes the file, erases it, or finds none |
| `FileStorage.SimpleBundleStorage.EventStored` | daemon/src/core/SimpleBundleStorage.cpp:38-44 | a reported bundle moves from the pending table to the entry of the stored table that its order finds |
| `FileStorage.SimpleBundleStorage.EventRemoved` | daemon/src/core/SimpleBundleStorage.cpp:65-83 | the first entry with the erased file's name is settled with the size noted for its identifier, if there is one |
| `FileStorageRefinement.StepKeeps` | daemon/src/core/SimpleBundleStorage.cpp:38-83 | over unmixed identifiers every step of callers and writer keeps pending table, files, stored table, sizes, tasks and index in agreement for each of them |
| `FileStorageResults.RefinesMap` | daemon/src/core/SimpleBundleStorage.cpp:232-256 | over unmixed identifiers, in every interleaving, lookups answer from the plain map of accepted and not removed bundles |
| `FileStorageResults.RefinesMapIff` | daemon/src/core/SimpleBundleStorage.cpp:125-344 | for every set of identifiers: lookups answer from the plain map in all runs, if and only if no fragment shares its base with a whole bundle |
| `FileStorageResults.AcceptedIff` | daemon/src/core/SimpleBundleStorage.cpp:264-317 | over unmixed identifiers, in every run, a new bundle is accepted, and found at once, exactly if there is no limit or it fits besides all that is pending or on disk; a refused one changes nothing |
| `FileStorageResults.StoredUntilRemoved` | daemon/src/core/SimpleBundleStorage.cpp:125-344 | over unmixed identifiers, whatever callers and writer do in between, a lookup returns exactly the bundle that fitted besides what was pending or on disk, until it is removed or expires |
| `FileStorageResults.GoneOnceRemoved` | daemon/src/core/SimpleBundleStorage.cpp:319-344 | over unmixed identifiers a bundle that was removed or has expired is never seen again |
| `FileStorageResults.CounterIsExact` | daemon/src/core/SimpleBundleStorage.cpp:65-83 | over unmixed identifiers the counter is the total size of exactly the bundles pending or on disk, never negative, never above the limit |
| `FileStorageResults.CounterIsExactIff` | daemon/src/core/SimpleBundleStorage.cpp:38-83 | for every set of identifiers: the counter is exact in all runs, if and only if no fragment shares its base with a whole bundle |
| `FileStorageResults.FragmentIsLost` | daemon/src/core/SimpleBundleStorage.cpp:264-317 | for every whole bundle and fragment of it: stored in this order, the fragment is accepted and a lookup does not return it |
| `FileStorageResults.FragmentInsteadOfWhole` | daemon/src/core/SimpleBundleStorage.cpp:125-161 | stored in the other order, a lookup of the whole bundle returns the fragment |
| `FileStorageResults.CounterFalls` | daemon/src/core/SimpleBundleStorage.cpp:65-83 | for every such pair there is a run after which two bytes are pending and one is counted |
| `FileStorageResults.NothingIsForgotten` | daemon/src/core/SimpleBundleStorage.cpp:402-428 | over unmixed identifiers an invisible bundle that still takes room has its removal queued or under way |
| `FileStorageResults.ErasureSettlesOwner` | daemon/src/core/SimpleBundleStorage.cpp:65-83 | over unmixed identifiers a report of an erased file settles exactly the bundle it belonged to, with its own size |
| `FileStorageResults.WriterIsNeverStuck` | daemon/src/core/DataStorage.cpp:179-248 | over unmixed identifiers every report finds its pending bundle, no erasure fails, and removals and expiries can come at any time |
| `BundleOrder.ComparableIff` | ibrdtn/ibrdtn/data/BundleID.cpp:32-46 | two identifiers are told apart by their order if and only if they are not a fragment and a whole bundle of one base |
| `BundleOrder.OrdersAgree` | ibrdtn/ibrdtn/data/PrimaryBlock.cpp:73-92 | then the orders of bundles and identifiers agree, and equal identifiers are equal |
| `BundleOrder.OrdersByKey` | ibrdtn/ibrdtn/data/PrimaryBlock.cpp:73-92 | fragments or not, the order of bundles and the reverse of `>` on identifiers are the order by base and offset |
| `BundleOrder.IdOrderByKeyIff` | ibrdtn/ibrdtn/data/BundleID.cpp:32-46 | the order of identifiers is the order by base and offset unless the two are a whole bundle and a fragment of it with another offset, which it does not tell apart |
| `BundleOrder.OrderIsTotalIff` | ibrdtn/ibrdtn/data/BundleID.cpp:32-70 | the order is strict and total on a set of identifiers if and only if it contains no such pair |
| `BundleOrder.TextByFirst` | ibrdtn/ibrdtn/data/BundleID.cpp:32-46 | sources are ordered by their first different character, characters of negative value behind all others |
| `MemoryStorage.MemoryBundleStorage.StoreBundle` | daemon/src/core/MemoryBundleStorage.cpp:138-168 | a bundle is taken exactly if there is no limit or the counter and its length are within it; then it is charged and its length noted, and it is inserted unless an equal one is held; otherwise nothing changes |
| `MemoryStorage.MemoryBundleStorage.RemoveBundle` | daemon/src/core/MemoryBundleStorage.cpp:170-200 | the first bundle with the identifier leaves set and index, and its own length is given back; the answer tells whether there was one |
| `MemoryStorage.MemoryBundleStorage.RemoveFirst` | daemon/src/core/MemoryBundleStorage.cpp:202-273 | the first wanted bundle leaves set and index, and the length noted last is given back |
| `MemoryStorage.MemoryBundleStorage.GetFiltered` | daemon/src/core/MemoryBundleStorage.cpp:76-95 | the first `limit` matches of the index, all of them for limit 0 |
| `MemoryStorage.BeforeMeans` | daemon/src/core/MemoryBundleStorage.h:114-122 | for all bundles the index comparison is priority descending, then base and offset |
| `MemoryStorage.StepKeepsHeld` | daemon/src/core/MemoryBundleStorage.cpp:138-279 | store, both removals, expiry and clear keep set and index in agreement, for all identifiers |
| `MemoryStorage.RemovesFirstWanted` | daemon/src/core/MemoryBundleStorage.cpp:170-273 | in every run a removal takes out exactly the first wanted bundle by base and offset, if there is any, and gives back its own length or the one noted last |
| `MemoryCapacity.HeldBytesAreCovered` | daemon/src/core/MemoryBundleStorage.cpp:138-279 | in every run over identifiers that do not clash the counter is at least the bytes held and within the limit |
| `MemoryCapacity.CoveredIff` | daemon/src/core/MemoryBundleStorage.cpp:138-279 | for every set of identifiers: the counter covers the bytes held in all runs, and never falls below zero in any, if and only if no whole bundle and fragment of another offset share a base |
| `MemoryCapacity.SizeIsExactIff` | daemon/src/core/MemoryBundleStorage.cpp:138-279 | in every run over identifiers that do not clash the counter is exactly the bytes held, if and only if no duplicate was accepted since the last clear |
| `MemoryCapacity.TakenIff` | daemon/src/core/MemoryBundleStorage.cpp:138-168 | in every run over identifiers that do not clash a bundle is taken exactly if there is no limit or it fits besides the bytes charged; its length is charged, and it is held unless one of its base and offset is |
| `MemoryCapacity.TakenIffRoom` | daemon/src/core/MemoryBundleStorage.cpp:138-168 | without duplicates, exactly if it fits besides the bytes held |
| `MemoryStorage.IndexIsSorted` | daemon/src/core/MemoryBundleStorage.cpp:156-195 | in every run, for all identifiers, the index is the one and only sorted list of the bundles held |
| `SqlStorage.ReadPage` | daemon/src/core/SQLiteBundleStorage.cpp:664-692 | the inner loop adds the wanted rows of a page and stops when enough are found |
| `SqlStorage.Query` | daemon/src/core/SQLiteBundleStorage.cpp:605-716 | for every table, filter, limit and kind of statement the paging ends and returns the first `limit` rows that the deletion list does not find and that pass the filter |
| `SqlStorage.QueryMeans` | daemon/src/core/SQLiteBundleStorage.cpp:605-716 | every row returned is in the table, not found by the deletion list and passes the filter; unless the limit is reached, all such rows are returned |
| `SqlStorage.MarkHidesIff` | daemon/src/core/SQLiteBundleStorage.cpp:1814-1830 | a mark hides the marked bundle and, of the same base, a fragment's mark the whole bundle and the whole bundle's mark its fragments; nothing else |
| `SqlStorage.ListedMeans` | daemon/src/core/SQLiteBundleStorage.cpp:1826-1830 | over unmixed identifiers the deletion list finds exactly what is on it |
| `SqlStorage.SQLiteBundleStorage.NewExpireTime` | daemon/src/core/SQLiteBundleStorage.cpp:1793-1800 | the cached time becomes the smaller one, 0 counting as unset |
| `SqlStorage.SQLiteBundleStorage.StoreRow` | daemon/src/core/SQLiteBundleStorage.cpp:850-882 | the row is added unless refused, and the expiry time noted in either case |
| `SqlStorage.SQLiteBundleStorage.RunTaskExpire` | daemon/src/core/SQLiteBundleStorage.cpp:1502-1551 | nothing before the cached time; then one event for each expired row, in order, and all of them go |
| `SqlStorage.StoreKeepsCacheIff` | daemon/src/core/SQLiteBundleStorage.cpp:1793-1800 | storing keeps the cached time sound if and only if the expiry time is positive or the table stays empty |
| `SqlStorage.ExpireTaskIsEagerIff` | daemon/src/core/SQLiteBundleStorage.cpp:1502-1551 | an expire task does all that searching the table would do, at every time, if and only if the cached time is sound |
| `SqlStorage.CacheIsRenewed` | daemon/src/core/SQLiteBundleStorage.cpp:1553-1570 | in every state a remove task, a clear and a due expire task leave the first expiry in the table as the cached time, or none for an empty table |
| `SqlStorage.CacheRefinesEager` | daemon/src/core/SQLiteBundleStorage.cpp:1502-1570 | in every run with positive expiry times the table, the deletion list and the events are those of a storage that searches on every tick |
| `SqlStorage.NoExpiredRowRemains` | daemon/src/core/SQLiteBundleStorage.cpp:1502-1551 | after an expire task exactly the rows that had expired are gone, and exactly they raised an event |
| `SqlStorage.RemoveTaskMeans` | daemon/src/core/SQLiteBundleStorage.cpp:895-940 | a remove task takes out all rows of its identifier and keeps all others, each as often as it was there |
| `SqlStorage.TableIsExact` | daemon/src/core/SQLiteBundleStorage.cpp:850-940 | in every run with positive expiry times the table holds exactly the rows stored and neither removed, expired nor cleared since |
| `SqlStorage.HiddenIffMarked` | daemon/src/core/SQLiteBundleStorage.cpp:1814-1830 | over unmixed identifiers, in every run, a query hides exactly the bundles marked and not removed since |
| `BundleSummary.BundleSummaryList.Commit` | daemon/src/routing/SummaryVector.cpp:31-46 | the rebuilt filter has exactly the bits of the identifiers left |
| `BundleSummary.BundleSummaryList.ExpireBundles` | ibrdtn/ibrdtn/data/BundleList.cpp:66-100 | the expired prefix of the private list leaves all lists, and the filter is rebuilt if anything left |
| `BundleSummary.BundleSummaryList.IsKnown` | daemon/src/routing/BundleSummary.cpp:50-60 | filter first, then list |
| `BundleSummary.DueIsExact` | ibrdtn/ibrdtn/data/BundleList.cpp:75-92 | stopping at the first entry that has not expired misses none |
| `BundleSummary.LookupIsExact` | daemon/src/routing/BundleSummary.cpp:22-60 | for arbitrary hash functions, every history and identifiers that do not mix fragments and whole bundles, the lookup is membership in the plain list |
| `BundleSummary.QuickCheckIsExactIff` | daemon/src/routing/BundleSummary.cpp:50-60 | for every set of identifiers: the lookup gives the list's answer for all hash functions, histories and identifiers, if and only if no fragment shares its base with a whole bundle |
| `BundleSummary.FilterHasNoFalseNegative` | daemon/src/routing/SummaryVector.cpp:31-76 | in every history, for all identifiers, every listed bundle is in the filter |
| `BundleSummary.FilterIsExact` | daemon/src/routing/SummaryVector.cpp:31-76 | for all hash functions, in every history over unmixed identifiers, the filter has exactly the bits of those listed when something last expired and those added since |
| `BundleSummary.FragmentIsMissed` | ibrdtn/ibrdtn/data/BundleID.cpp:58-90 | for every whole bundle and fragment of it there are hash functions with which the list knows the fragment and the lookup does not |
| `Sdnv.LengthOf` | ibrdtn/ibrdtn/data/SDNV.cpp:160-170 | the first loop finds the length of the encoding |
| `Sdnv.EncodeValue` | ibrdtn/ibrdtn/data/SDNV.cpp:160-192 | the buffer filled backwards is the encoding, most significant bits first |
| `Sdnv.DecodeValue` | ibrdtn/ibrdtn/data/SDNV.cpp:222-260 | the loop reads up to the first byte without the high bit and rejects what does not fit 64 bits |
| `Sdnv.EncodingFits` | ibrdtn/ibrdtn/data/SDNV.cpp:248-257 | every 64-bit value takes at most ten bytes, and ten only with 0x81 in front: the overflow check rejects no encoding |
| `Sdnv.EncodingAt` | ibrdtn/ibrdtn/data/SDNV.cpp:160-192 | every byte of an encoding is its group of seven bits, most significant first, with the high bit in all but the last |
| `Sdnv.EncodingIsMinimal` | ibrdtn/ibrdtn/data/SDNV.cpp:160-170 | no encoding is longer than its value needs |
| `Sdnv.DecodesIff` | ibrdtn/ibrdtn/data/SDNV.cpp:222-260 | exactly the inputs that begin with at most ten bytes of that form, ten only with 0x81 in front, are accepted |
| `Sdnv.SdnvRoundTrip` | ibrdtn/ibrdtn/data/SDNV.cpp:110-140 | every 64-bit value is read back, whatever follows |
| `Sdnv.StringRoundTrip` | ibrdtn/ibrdtn/data/BundleString.cpp:35-60 | every byte string is read back, whatever follows |
| `EndpointNames.EidRoundTripIff` | ibrdtn/ibrdtn/data/EID.cpp:34-59 | an identifier is read back from its text if and only if its scheme has no colon and it has no blank at its ends |
| `EndpointNames.Written` | ibrdtn/ibrdtn/data/EID.cpp:28-59 | identifiers are written with a colon, the null endpoint as `dtn:none`, and blanks are spaces and tabs |
| `CodedLists.ReadWhile` | daemon/src/net/DiscoveryAnnouncement.cpp:254-261 | the loop over the remaining length, in 32 bits, reads what the description says |
| `CodedLists.ReadCount` | daemon/src/routing/NodeHandshake.cpp:144-149 | the counting loop reads what the description says |
| `CodedLists.ReadCount32` | daemon/src/net/DiscoveryAnnouncement.cpp:305-313 | the loop with its 32-bit counter reads that many items, or goes on until the input ends if the number does not fit |
| `CodedLists.LoopReadsAllIff` | daemon/src/net/DiscoveryAnnouncement.cpp:242-261 | the loop ends exactly with the announced length, all items read, if and only if no remaining length wraps to a non-positive one |
| `CodedLists.CountedReadBack` | daemon/src/routing/NodeHandshake.cpp:163-178 | a list of items that are each read back is read back by its number |
| `Beacons.ServiceLengthIsExact` | daemon/src/net/DiscoveryService.cpp:38-44 | a service announces as many bytes as it writes |
| `Beacons.ServiceRoundTrip` | daemon/src/net/DiscoveryService.cpp:61-82 | every service is read back |
| `Beacons.PrintBeaconV1` | daemon/src/net/DiscoveryAnnouncement.cpp:89-120 | the loops add up the lengths and write the services |
| `Beacons.ParseBeaconV1` | daemon/src/net/DiscoveryAnnouncement.cpp:226-264 | short beacons keep the earlier services, others are read up to the announced length |
| `Beacons.V1RoundTripIff` | daemon/src/net/DiscoveryAnnouncement.cpp:89-264 | a beacon with services is read back, nothing left, if and only if its flags are not the short flag, its identifier is proper and its lengths fit |
| `Beacons.V1RoundTrip` | daemon/src/net/DiscoveryAnnouncement.cpp:89-264 | in particular with flags 0 and below two gigabytes |
| `Beacons.ShortBeaconIff` | daemon/src/net/DiscoveryAnnouncement.cpp:89-240 | a beacon without services, alone in its packet, is read exactly if its flags are 0 or the short flag: then with the short flag, no endpoint, the services found before, and nothing left |
| `Beacons.ShortBeaconTakesTwo` | daemon/src/net/DiscoveryAnnouncement.cpp:226-240 | in front of anything else it takes its two bytes and no more |
| `BeaconsV2.ParseBeaconV2` | daemon/src/net/DiscoveryAnnouncement.cpp:266-318 | identifier and services are read as the flags say, services counted with 32 bits |
| `BeaconsV2.FlagsAreBits` | daemon/src/net/DiscoveryAnnouncement.cpp:266-303 | whatever the other bits, the lowest announces the endpoint and the next the services |
| `BeaconsV2.V2RoundTripIff` | daemon/src/net/DiscoveryAnnouncement.cpp:122-318 | for every announcement and earlier contents: read back, nothing left, if and only if it has services, few enough for a 32-bit counter, and a proper endpoint that is not null, or it has neither and there was neither before |
| `BeaconsV2.WithoutServices` | daemon/src/net/DiscoveryAnnouncement.cpp:142-156 | with an endpoint and no services the endpoint is read, and a count of 0 is left over |
| `BeaconsV2.ParsedWithoutEndpoint` | daemon/src/net/DiscoveryAnnouncement.cpp:142-156 | with the null endpoint the parser takes the length of its name for the number of services |
| `BeaconsV2.NullEndpointIsMisread` | daemon/src/net/DiscoveryAnnouncement.cpp:142-156 | with the null endpoint no list of services, of any length, is read back with nothing left |
| `CodedLists.ListSlides` | daemon/src/net/DiscoveryAnnouncement.cpp:305-313 | items read back from behind small bytes leave as many bytes over |
| `Handshakes.VectorRoundTrip` | daemon/src/routing/SummaryVector.cpp:102-131 | a vector announces as many bytes as it writes, and its table is read back |
| `Handshakes.PrintMessage` | daemon/src/routing/NodeHandshake.cpp:84-129 | the loops write requests and items |
| `Handshakes.ReadRequests` | daemon/src/routing/NodeHandshake.cpp:138-149 | the loop collects the identifiers of a request |
| `Handshakes.ReadItems` | daemon/src/routing/NodeHandshake.cpp:157-178 | the loop files each item under its identifier as it is read |
| `Handshakes.RequestRoundTrip` | daemon/src/routing/NodeHandshake.cpp:84-149 | a request is read back as the set of identifiers it lists |
| `Handshakes.ResponseRoundTrip` | daemon/src/routing/NodeHandshake.cpp:84-182 | a response is read back with its lifetime and its items filed in order |
| `Handshakes.LastItemIsKept` | daemon/src/routing/NodeHandshake.cpp:161-178 | under each identifier are the bytes of the last item that carries it |
| `Handshakes.SecondVectorReplacesFirst` | daemon/src/routing/NodeHandshake.cpp:224-266 | a response with a summary vector and a purge vector is received with the second one only, for all vectors |

## Left out

- Sockets, threads and locks as such; the 200 ms wait for an acknowledgement is a step that may come at any time.
- The two-byte header of UDP frames, and the LOWPAN, HTTP, UDP and file convergence layers.
- The job queue of a datagram sender and the serialisation of bundles onto a stream: a message is any byte string.
- Blocks of bundles other than payloads, custody requests, age blocks, and bundles restored from disk at start.
- The filter and handshake states of a neighbour, its expiry, and removing neighbours: slots only.
- The known and purged summaries of the router beyond `BundleSummary`.
- The peer's identifier in a contact header: events of a connection name the neighbour it was opened for.
- EventSwitch: pausing the workers as mutual exclusion, shutting down, and events of a name nobody ever registered for.
- FileStorage: failed writes, `clear`, storing an identifier again, and the gap between `store`'s index update and its task.
- FileStorage: the filtered query, which is the one of `MemoryStorage.MemoryBundleStorage.GetFiltered` over the same kind of index.
- MemoryStorage: the table of lengths finds the first entry that its order does not tell apart; a search tree that holds several of these may find another.
- SqlStorage: the SQL engine, block files, consistency checks, failing statements, and the extended storage that is compiled out; rows do not change during a query.
- BundleSummary: the lists keep identifiers apart that differ, also where their order would take a fragment and a whole bundle for one.
- BundleSummary: the hash functions and the size of the filter's table; any assignment of bits to identifiers is covered.
- Beacons: the DTN2-compatible format, and input that ends early, on which reading fails here and in the program leaves undefined values.
- Sdnv: an encoding of more than ten bytes is rejected here; the program's stream reader writes it past its buffer before it is rejected.
- Handshakes: turning raw items back into vectors on demand.
- Retransmission.RequeueEffect: identifiers are plain numbers here; in the daemon the retry set takes a fragment and the whole bundle of its base for one, so a requeue of the one while the other is filed repeats the other.
- Retransmission.RetransmissionExtension.OnRequeue: the same.
- Transfers.NeighborEntry.AcquireTransfer: identifiers are plain numbers here; in the daemon the transit set takes a fragment and the whole bundle of its base for one, and they share a slot.
- Transfers.CarefulRunsNeverLeak: the condition on routing is sufficient; which routes can be followed by a leak depends on how many repetitions are left and on how many events of one transfer are pending, and is stated for filed bundles only, in `Transfers.FiledElsewhereLeaks`.
- Time synchronisation, security, configuration, tools, status reports, static routes and worker applications.
