# Verified model of the inter-core protocol, the SD-card log and the cellular uplink

This project models the parts of the firmware in which several threads share state or in which bytes have to
survive a round trip, and proves what they promise, for every input, every configuration and every
interleaving.

`dafny verify dfyconfig.toml` checks everything.

## What is modelled

**The ICMP node** (`lib/icmp/icmp.c`, `icmp_queue.*`, the receive path of `icmp_phy_uart.c`). `IcmpState` holds
the shared state as one value (`Core`) and what each critical section does to it. `IcmpNode` is a transition
system with one action for each atomic step of each thread: a region under the in-flight mutex, one call on a
slab, a queue, the semaphore or the work item, or one callback. Any number of caller contexts step concurrently
with the ICMP thread and the system workqueue. Each step has the source's branches, including those that fail: a
busy mutex, a full slab, a full queue, a frame that does not unpack, a PHY that refuses. `icmp_dispatch_handler`
is five steps, so that everything else can happen between its unlock and its relock. `History` records what
happened and no step reads it: serial numbers for the allocations of message ids and what they asked for, the
frames that went in and out of the queues, the callbacks invoked. `Recorded` shows that it agrees, in every run,
with what the actions of the run say: which commands were accepted and with what arguments, which other frames
were to be sent, what arrived, which callback was last registered; the theorems about whole runs are stated in
those terms.
`IcmpRuns` has the runs, free or under rules for the environment; every theorem names the rules it needs,
and a theorem that names none holds of all runs:

- `peer`: a response that arrives answers a command the PHY has sent, with its id, and is the first for it;
- `onTime`: a response to a command that has been aged out is not dispatched any more (what
  `lib/icmp/Kconfig:69-74` asks of ICMP hosts);
- `sendsSucceed`: a command that got an id also gets a block and a place in the queue; it is used for one
  thing only, that a pending id always has a frame;
- `stampedOnly`: a response that finds a callback finds an entry that has been stamped;
- `period`: the time since the last completed timeout scan never exceeds this.

A rule for responses, below, means `stampedOnly`, or `peer` and `onTime` together, from which it follows.

The invariants are in `Ownership` (each block in one place, one user of the work context), `Serials` (which
allocation an entry belongs to), `Fifo`, `Matching`, `Pending` and `Sending`, `Timing`; `Leaks`, `Requests`,
`Outcomes`, `Entries`, `Targets`, `Deliveries`, `Reentry`, `Stranding`, `LateResponse` and `Drain` build on them.
`IcmpServer` has the source's own form, a class with the bitmap as a 32-bit word, the table as an array, and
the source's loops, and proves each operation against the steps; `Bitmap` says that the word operations are
set operations; `Bounds` shows that the indices those operations need in range are in range in every reachable
state.

**The frame codec** (`icmp_frame.c`, `icmp_frame.h`). `Frames` has the encoding as functions and their
inverse laws and says exactly which alterations are noticed, `Crc` has the checksum, `FrameBuffers` the
in-place code over arrays and the UART PHY's two buffers, and `EndToEnd` ties the frames that a node hands to
its PHY to what a receiver decodes. The body of `crc16_ansi` is not part of this repository; it is modelled as
the algorithm of section 6.2.2 of the MODBUS over Serial Line Specification V1.02. The proofs that alterations
are noticed hold for any initial register value.

**The SD-card log** (`sd_card.c`, `datapoint_helpers.c`, `datapoint.c`). `SdLog` is the double buffer with
its flush work item, `Csv` the line builder with `snprintf` given by its contract, `Logging` the sink that
joins them and a reader of log files as a reference definition. `Text` has C strings and splitting.

**The cellular uplink** (`lib/cellular`). `Cellular` has the pool, the queue, any number of senders and the
thread as a transition system, and the source's two operations as methods over it.

## What the proofs found in the code

- Sends that fail strand a message id. `icmp_command` does not undo its bitmap and table entry when
  `icmp_send_frame` fails, for want of a block or of a place in the queue, and entries that were never sent are
  never aged out. With a well-behaved peer, a run ends with a stranded id exactly when some command's send
  failed (`Stranding.StrandedIffSendFailed`), and every configuration has such a run
  (`Stranding.EveryConfigurationStrands`).
- A slab larger than a queue leaks frames, since neither enqueue is undone when it fails; no run leaks
  exactly when the slab is no larger than a queue (`Leaks.NeverLeaksIffSlabFitsQueue`).
- A response that is dispatched after its command was aged out can invoke the callback of another command,
  one that has not even been sent (`LateResponse.LateResponseReachesWrongCallback`);
  `Matching.OwnCallbackIffUnsettled` gives the exact condition.
- An altered length byte can go unnoticed: with room for at least one payload byte, it is the one position
  where a single altered byte can (`Frames.ByteAlwaysDetectedIff`), and every frame that leaves two bytes of
  room is what such an alteration can make of a longer one (`Frames.LengthByteUndetected`).
- With the length kept, an alteration within two adjacent bytes can go unnoticed only across the end of a
  payload, where its last byte meets the high byte of the checksum, and there it can, whatever the length of
  the payload (`Frames.PairAlwaysDetectedIff`): the checksum is sent high byte first, unlike in the MODBUS
  specification.
- `lib/icmp/Kconfig:69-74` says that a message is dropped when its age reaches the limit; the code drops it
  when its age exceeds the limit (`lib/icmp/icmp.c:357`), and the model follows the code.
- `datapoint_to_csv` into a buffer larger than the largest `int` always fails, because the remaining size is
  converted to `int`; a float of more than 106 characters can overrun the sink's buffer, and its
  unchecked error code is then taken for a length (`Csv.SinkNeverFailsIffFloatShort`, `Logging.FormatLine`).
- The SD log loses text exactly when a flush is missed or fails before the next swap, but never breaks a
  line (`SdLog.LogIsWholeLines`, `SdLog.LogRefinesAppendIffInTime`).

## Model

| member | source | states |
|---|---|---|
| Bitmap.AllocateMsgId | lib/icmp/icmp.c:77-89 | the loop over the shifted word returns the least id that is not taken, or -EAGAIN exactly when all are taken |
| Bitmap.SetRefines | lib/icmp/icmp.c:171 | setting an id's bit adds exactly that id to the set, for words of 8, 16 and 32 bits |
| Bitmap.ClearRefines | lib/icmp/icmp.c:279 | clearing an id's bit removes exactly that id |
| Bitmap.IsBitSetRefines | lib/icmp/icmp.c:30 | the bit test is membership, also for ids up to 31 in a narrower bitmap |
| Bitmap.LowBitOfCopy | lib/icmp/icmp.c:342-346 | the low bit of a copy shifted k times tells whether id k is in flight |
| Crc.CalcCrc16 | lib/icmp/icmp_frame.h:51-54 | the byte and bit loops compute the checksum of exactly the first len bytes |
| Crc.CrcInjectiveInRegister | lib/icmp/icmp_frame.h:51-54 | equal checksums after the same data, of any length, mean equal registers before it |
| Crc.UpdateTwiceInjective | lib/icmp/icmp_frame.h:51-54 | from any register, two different pairs of bytes never lead to the same register |
| Crc.PairErrorChangesCrc | lib/icmp/icmp_frame.h:51-54 | data altered in one byte or in two adjacent ones has a different checksum, for every length and initial value |
| Crc.JoinSplit | lib/icmp/icmp_frame.c:43-44 | the two checksum bytes that are written make up the checksum again |
| Crc.SplitJoin | lib/icmp/icmp_frame.c:78-79 | the word read from two bytes has those bytes |
| Frames.DecodeEncode | lib/icmp/icmp_frame.c:49-91 | a packed frame, whatever follows it in the buffer, unpacks to the same frame |
| Frames.EncodeDecode | lib/icmp/icmp_frame.c:11-47 | whenever a buffer is accepted, packing the result gives back its first 6 + length bytes |
| Frames.EncodePrefixFree | lib/icmp/icmp_frame.c:34-44 | no packed frame is a prefix of another, so a byte stream has at most one reading |
| Frames.EncodeLayout | lib/icmp/icmp_frame.c:34-44 | byte by byte: type, id, target, length, the payload from byte 4 on, and the checksum of all of these, high byte first |
| Frames.DetectsPair | lib/icmp/icmp_frame.c:77-84 | an alteration within two adjacent bytes that keeps the length byte and does not straddle the end of the payload is always rejected |
| Frames.DetectsByte | lib/icmp/icmp_frame.c:77-84 | an alteration of any single byte of a frame other than the length byte is always rejected |
| Frames.UndetectedAcrossPayloadEnd | lib/icmp/icmp_frame.c:41-44 | every frame with a payload has another one that differs from it only in the last payload byte and the first checksum byte and is accepted |
| Frames.LengthByteUndetected | lib/icmp/icmp_frame.c:62-84 | every frame that leaves two bytes of room is accepted in place of some longer frame whose length byte alone was altered |
| Frames.ByteAlwaysDetectedIff | lib/icmp/icmp_frame.c:60-84 | over all frames and tails, an altered byte at a position is always noticed exactly when it is not the length byte, or the payload limit is 0 |
| Frames.PairAlwaysDetectedIff | lib/icmp/icmp_frame.c:60-84 | over all frames of one length, an alteration within two adjacent bytes of the frame that keeps the length is always noticed exactly when they do not straddle the end of a payload |
| FrameBuffers.StoreFrame | lib/icmp/icmp_frame.c:34-44 | the bytes written in place are the encoding and the bytes behind them stay |
| FrameBuffers.Pack | lib/icmp/icmp_frame.c:11-47 | the result for every input, in the order of the source's checks, the bytes written, and that a failed pack leaves the buffer untouched |
| FrameBuffers.Unpack | lib/icmp/icmp_frame.c:49-91 | it accepts exactly what decodes, zeroes the payload padding, and leaves the frame untouched on failure |
| FrameBuffers.UartPhy.Send | lib/icmp/icmp_phy_uart.c:87-100 | what is given to the UART, byte by byte, and that the rest of the buffer is zero; nothing is sent when the frame is invalid |
| FrameBuffers.UartPhy.RxBufReleased | lib/icmp/icmp_phy_uart.c:48-66 | the frame is queued exactly when the buffer decodes, with the decoded fields, and the buffer is cleared only then |
| FrameBuffers.SendAndReceive | lib/icmp/icmp_phy_uart.c:48-100 | a frame arrives exactly when its type and length are valid, and then field by field, whatever an earlier rejected transfer left in the receive buffer; otherwise the receiver is untouched |
| EndToEnd.SentFramesAreWellFormed | lib/icmp/icmp.c:56-75 | in every run each frame that command, respond or notify ever enqueued, and so each one handed to the PHY, has a valid type and length and packs without error |
| EndToEnd.SentFramesArrive | lib/icmp/icmp_phy_uart.c:87-100 | in every run the encoding of each frame handed to the PHY fits the PHY's buffer and decodes to that frame, whatever bytes follow it in the receiver's buffer |
| EndToEnd.SentBytesAreOfCalls | lib/icmp/icmp.c:56-75 | in every run the bytes for the UART are those of one call: type byte 1, and the target, length and payload of an accepted icmp_command, or type byte 2 or 3 and the fields of a frame that icmp_respond or icmp_notify was asked to send |
| IcmpState.LeastFree | lib/icmp/icmp.c:77-89 | the least free id below the limit, or none exactly when all are taken |
| IcmpServer.Server.constructor | lib/icmp/icmp.c:11-48 | the initial values of the globals are the initial state of the model |
| IcmpServer.Server.RegisterTarget | lib/icmp/icmp.c:131-143 | the error cases; the given slot holds the callback afterwards, no other changes, and that is the step of the transition system |
| IcmpServer.Server.ReserveId | lib/icmp/icmp.c:163-175 | the least free id is taken, its entry is pending with the caller's callback and user data, and no other entry changes; or nothing changes and -EAGAIN is returned |
| IcmpServer.Server.SendFrame | lib/icmp/icmp.c:56-75 | the result and the state for a full slab, a full queue and neither; a frame whose enqueue fails stays allocated |
| IcmpServer.Server.Command | lib/icmp/icmp.c:146-182 | the whole function has the effect of the caller's steps, with its result in each of six cases; on success the frame with the id, target and payload is last in the queue and the entry has the callback and user data |
| IcmpServer.Server.Respond | lib/icmp/icmp.c:184-198 | it has the effect of the caller's steps; the result in every case; on success the frame of type 2 with the caller's id, target and payload is last in the queue |
| IcmpServer.Server.Notify | lib/icmp/icmp.c:200-214 | it has the effect of the caller's steps; the result in every case; on success the frame of type 3 with id 255 and the caller's target and payload is last in the queue |
| IcmpServer.Server.UartReceive | lib/icmp/icmp_phy_uart.c:48-66 | the callback from its allocation on has the effect of its two steps: nothing without a free block, the frame freed when it did not unpack, otherwise queued with its contents or, if the queue is full, left allocated |
| IcmpServer.Server.TimeoutHandler | lib/icmp/icmp.c:326-370 | it has the effect of the step, and none without the mutex |
| IcmpServer.Server.ScanInflight | lib/icmp/icmp.c:334-367 | the scan over a shifting copy removes exactly the entries in flight, stamped and older than the limit, and changes no other |
| IcmpServer.Server.HandlerCheck | lib/icmp/icmp.c:258-293 | which path is taken and which target callback is invoked, for any frame |
| IcmpServer.Server.HandlerClear | lib/icmp/icmp.c:278-283 | exactly the one id is cleared, in the bitmap and the table |
| IcmpServer.Server.DispatchBegin | lib/icmp/icmp.c:245-294 | the handler up to its callback has the effect of its steps, and the callback invoked, with its data, is the one they record |
| IcmpServer.Server.DispatchEnd | lib/icmp/icmp.c:277-302 | the handler from its callback on has the effect of its steps in whatever state the callback and the other threads left |
| Reentry.ReachedAfterCallback | lib/icmp/icmp.c:269-278 | whatever steps are taken during a response callback, calls back into the library included, the second half finds what it relies on |
| IcmpServer.Server.DispatchHandler | lib/icmp/icmp.c:245-303 | the two halves together when nothing else happens in between |
| IcmpServer.Server.Dispatch | lib/icmp/icmp.c:305-314 | the context gets the frame and the callback registered for its target |
| IcmpServer.Server.UpdateTimestamp | lib/icmp/icmp.c:316-324 | only the entry of a command's id changes, and only its stamp, which becomes the present time |
| IcmpServer.Server.ThreadIteration | lib/icmp/icmp.c:404-427 | one iteration has the effect of the thread's steps; the frame given to the PHY is the head of the queue |
| Bounds.IndicesInRange | lib/icmp/icmp.c:305-324 | in every reachable state the ids and targets that index the tables are in range and the blocks at the queue heads and in the context are allocated, which is what those methods require |
| Ownership.InitIsSound | lib/icmp/icmp_frame.c:6-9 | the initial state has every block in no place |
| Ownership.StepKeepsSound | lib/icmp/icmp.c:56-75 | every step of every thread keeps: each allocated block is in exactly one queue, hand or context or was leaked once, no other block is anywhere, and there is one token for the work context |
| Ownership.AlwaysSound | lib/icmp/icmp.c:388-427 | so it is in every state of every run, for every slab size |
| Leaks.UsedBlocks | lib/icmp/icmp_frame.h:58-66 | the used slab blocks are exactly as many as the queued, held, dispatched and leaked frames together |
| Leaks.FreedOnce | lib/icmp/icmp.c:296-298 | a block that is freed was allocated and in one place, and is in none afterwards, so nothing is freed twice |
| Leaks.ContextNeverOverwritten | lib/icmp/icmp.c:305-314 | when a frame is handed to the work context, the previous work item neither waits nor runs |
| Leaks.SemaphoreMeaning | lib/icmp/icmp.c:243-243 | the semaphore is 0 exactly while the thread is between take and hand-off or one work item is unfinished, never both |
| Leaks.EnqueueFits | lib/icmp/icmp_queue.c:6-17 | with a slab no larger than a queue, whoever holds a frame finds room in both queues |
| Leaks.SafeRunsLeakNothing | lib/icmp/icmp_phy_uart.c:50-63 | then no run leaks a frame |
| Leaks.NeverLeaksIffSlabFitsQueue | lib/icmp/icmp_queue.c:6-17 | over all runs with any number of callers, nothing ever leaks exactly when the slab has at most 8 frames, a queue's capacity |
| Recorded.StepRecords | lib/icmp/icmp.c:163-175 | what one step records, action by action: an accepted command with its own callback, user data, target and payload, an arrival, a registration, a command taken by the PHY, and so on, and nothing else |
| Recorded.HistoryAgrees | lib/icmp/icmp.c:131-214 | in every run the allocations are the accepted commands with their arguments, in order; the other frames, the arrivals and the locks are those of the actions; each target has the callback of its last registration with one |
| Serials.StepKeepsSerial | lib/icmp/icmp.c:163-175 | every step keeps: an in-flight entry holds what its latest allocation stored, and an allocation is live until it is answered or aged out |
| Serials.WindowStep | lib/icmp/icmp.c:269-278 | between unlock and relock no step of any thread changes the bit, callback, user data or owner of the id looked up |
| Serials.WindowCommand | lib/icmp/icmp.c:163-175 | a command issued during the callback gets another id and leaves the entry alone |
| Serials.WindowStable | lib/icmp/icmp.c:269-278 | the same over any number of steps, so the entry read without the mutex is the one that was checked, with a callback |
| Serials.ClearRemovesOnlyAnswered | lib/icmp/icmp.c:277-283 | the final clear removes the id of the allocation whose callback ran and no other |
| Serials.AtMostOneCallback | lib/icmp/icmp.c:245-303 | in every run, with duplicate and unexpected responses, each accepted command has at most one response callback, and it is the one icmp_command was given, with its user data |
| Serials.CallIsForLatest | lib/icmp/icmp.c:271-275 | the callback invoked belongs to the latest allocation of the frame's id and is not NULL |
| Outcomes.ExactlyOneOutcome | lib/icmp/icmp.c:277-283 | in every run each allocation is exactly one of in flight, cleared after its callback, and aged out; no command is both called back and aged out |
| Entries.FreeEntriesAreVacant | lib/icmp/icmp.c:278-283 | in every run the entry of an id that is not in flight holds no callback and no user data |
| Entries.FreeEntriesAreZero | lib/icmp/icmp.c:356-364 | in every run under a rule for responses it is all zero, its stamp included |
| Fifo.FirstInFirstOut | lib/icmp/icmp.c:404-424 | in every run the frames sent, and those dispatched, are those enqueued, in order, each once and unchanged, up to the ones still waiting |
| Requests.StepRequested | lib/icmp/icmp.c:146-214 | every step keeps: a frame in a caller's hand or enqueued is what its call asked for, and each call has at most one |
| Requests.SentAsAsked | lib/icmp/icmp.c:56-75 | in every run each frame enqueued, and so each one handed to the PHY, has the target and payload of one accepted icmp_command, or is the frame of one icmp_respond or icmp_notify, and no two come from the same call |
| Targets.TargetOfHandOver | lib/icmp/icmp.c:285-314 | whatever happens in between, the handler finds the very frame that was handed over and the target callback registered for it at that time |
| Deliveries.StepKeepsDelivered | lib/icmp/icmp.c:265-294 | every step keeps one fitting delivery for each dispatched frame |
| Deliveries.HandOversAgree | lib/icmp/icmp.c:305-314 | in every run the callback handed over with the k-th arrival is the one last registered for its target before |
| Deliveries.EachDispatchDeliversOnce | lib/icmp/icmp.c:245-303 | in every run each arrival whose handler has run leads to exactly one of a response callback, the callback last registered for its target, and a drop, with its own payload; it is dropped only when the mutex or that callback is missing |
| Matching.DispatchFindsOwnCommand | lib/icmp/icmp.c:265-268 | with the rules peer and onTime, a response finds its own command's entry, however often the id was reused, and a callback exactly when that command has one |
| Matching.CallIsDecided | lib/icmp/icmp.c:271-275 | the call made without the mutex is the one decided under it |
| Matching.OwnCallbackIffUnsettled | lib/icmp/icmp.c:265-275 | in every run, whatever the peer and the timing, dispatching a response to an accepted command invokes the callback that icmp_command was given, with its user data, exactly when there is one and the entry was neither aged out nor removed |
| Matching.RightCallbacks | lib/icmp/icmp.c:245-303 | with the rules peer and onTime, the callbacks invoked in a run are, in order, exactly those that the arrived responses ask for, each with the callback and user data its icmp_command was given and the response's payload; only a call about to be made can be missing |
| LateResponse.LateResponseReachesWrongCallback | lib/icmp/icmp.c:326-370 | a run, without the rule onTime, in which the response to one command invokes the callback of another |
| Pending.StepKeepsPending | lib/icmp/icmp.c:171-181 | in a state of the discipline every step keeps at most one unstamped frame for an allocation whose id is pending and none for any other; every step but a failing send keeps exactly one |
| Sending.StampsHitOwnEntries | lib/icmp/icmp.c:316-324 | in every run under a rule for responses, the command frame about to be stamped finds its own command's entry, still pending |
| Sending.PendingDiscipline | lib/icmp/icmp.c:350-354 | over whole runs with the rule stampedOnly: queued commands have distinct ids, an unstamped frame belongs to the pending entry of its command, and nothing is aged out before it was stamped; with sendsSucceed too, an id is pending exactly while its frame is being built, queued or just taken from the queue |
| Sending.PeerAnswersStamped | lib/icmp/icmp.c:265-268 | with the rules peer and onTime, in a state of the discipline, responses find stamped entries |
| Sending.PendingDisciplineWithPeer | lib/icmp/icmp.c:316-354 | the same over whole runs with the rules peer and onTime in place of stampedOnly |
| Stranding.FailedSendStrands | lib/icmp/icmp.c:171-181 | in a state of the discipline, a command whose send fails, because the slab or the queue is full, leaves the id taken, pending and without a frame |
| Stranding.StrandedForever | lib/icmp/icmp.c:350-354 | from then on, in every run with the rules peer and onTime, the id stays so: never aged out, answered or given out again |
| Stranding.FailedSendStrandsForever | lib/icmp/icmp.c:56-75 | the two together at any point of any run with the rules peer and onTime, whatever became of other sends |
| Stranding.StrandedIffSendFailed | lib/icmp/icmp.c:171-181 | over all runs with the rules peer and onTime: some id is stranded at the end exactly when some command's allocation found the slab full or its enqueue found the queue full |
| Stranding.EveryConfigurationStrands | lib/icmp/icmp.c:171-181 | for every configuration a run, with one caller and the rules peer and onTime, that strands an id: over a full slab if it is no larger than a queue, otherwise over a full queue |
| Timing.ScanIsExact | lib/icmp/icmp.c:356-358 | the 64-bit unsigned comparison drops exactly the sent entries whose age exceeds the limit |
| Timing.StampsStartWindows | lib/icmp/icmp.c:316-324 | in every run under a rule for responses, stamping a command puts the present time into that command's own entry |
| Timing.NeverTooOld | lib/icmp/Kconfig:64-84 | in every run with scans at most a period apart, no stamped entry is in flight for longer than the limit and one period after its stamp |
| Timing.NeverDroppedEarly | lib/icmp/icmp.c:356-363 | in every run, under no rule, a stamped command is not aged out while its age is at most the limit |
| Timing.TimeoutWindow | lib/icmp/icmp.c:326-370 | with the rules stampedOnly and period, from a state of the discipline: an unanswered command is in flight with its stamp up to the limit, and aged out after the limit and one period |
| Timing.TimeoutWindowInRuns | lib/icmp/icmp.c:326-379 | the same over whole runs from the start of the node, with the rule period and a rule for responses, whether sends fail or not |
| Drain.IterationEffect | lib/icmp/icmp.c:404-427 | one iteration and the handler shorten both queues by one, whatever fails, and are a run of the system |
| Drain.SettleEffect | lib/icmp/icmp.c:404-427 | finishing the iteration and the work item under way is a run that lengthens no queue, and does nothing when nothing is under way |
| Drain.DrainsCompletely | lib/icmp/icmp.c:258-302 | from every reachable state: once the iteration and the work item under way are finished, as many iterations as the longer queue has frames empty both queues, and only frames in callers' hands and leaked ones are still in use, even if all sends and locks fail |
| SdLog.PositionStaysIffShort | cores/control/src/sd_card/sd_card.c:92-103 | the position stays inside the buffer exactly when the line is shorter than the buffer |
| SdLog.SwapHandsOver | cores/control/src/sd_card/sd_card.c:92-100 | at a swap the text up to the terminator is the collected text, of the length of the position, whatever stale bytes follow |
| SdLog.SubmitEffect | cores/control/src/sd_card/sd_card.c:92-103 | a line that fits behind the collected text, with the terminator in 1024 characters, is only added to it; one that does not makes that text the one to be flushed and starts a new one |
| SdLog.CollectsWhatFits | cores/control/src/sd_card/sd_card.c:92-100 | in every run the collected text is that of the lines that packing, as long as they fit, leaves; nothing else makes the buffers swap |
| SdLog.ShortRunOnlyCollects | cores/control/src/sd_card/sd_card.c:92-100 | a run whose lines total less than 1024 characters leaves them all in the buffer that collects, and submits and writes nothing |
| SdLog.StepInv | cores/control/src/sd_card/sd_card.c:40-108 | every submission and every flush, successful or not, keeps: both buffers hold whole lines and the file holds whole lines, in order, each once |
| SdLog.LogIsWholeLines | cores/control/src/sd_card/sd_card.c:62-66 | in every run the file is a concatenation of submitted lines, in order, each at most once, however many flushes are missed or fail |
| SdLog.LogRefinesAppendIffInTime | cores/control/src/sd_card/sd_card.c:84-108 | file, pending text and collected text together are everything submitted exactly when each flush is stored before a line is submitted that no longer fits |
| SdLog.SdCard.constructor | cores/control/src/sd_card/sd_card.c:26-32 | the initial buffers and position |
| SdLog.SdCard.SubmitLine | cores/control/src/sd_card/sd_card.c:84-108 | the in-place code has the effect of a submission: with room, the line is added behind the text; without, the terminated text is in the other buffer, the work item submitted and the line at the start; nothing changes without the mutex |
| SdLog.SdCard.WriterWork | cores/control/src/sd_card/sd_card.c:40-82 | the handler has the effect of a flush: the text up to its terminator is appended to the file when it is written, or kept by a failed close, and not when the mount, the open or the write fails |
| Csv.DecimalRoundTrip | cores/control/src/datapoint/datapoint_helpers.c:78-92 | a rendered number reads back as the number |
| Csv.DecimalIffCanonical | cores/control/src/datapoint/datapoint_helpers.c:78-92 | a text is how a number is rendered exactly when it reads as that number and is a minus sign for a negative one followed by digits without leading zeros |
| Csv.DecimalLengths | cores/control/src/datapoint/datapoint_helpers.c:78-92 | a 64-bit number takes at most 20 characters and a 32-bit one at most 11 |
| Csv.LineLength | cores/control/src/datapoint/datapoint_helpers.c:77-135 | the length of a line is that of its six fields and six separators |
| Text.UpToNulHasNone | cores/control/src/datapoint/datapoint_helpers.c:85-85 | what is printed of a string is its part before the first NUL |
| Csv.StringCells | cores/control/src/datapoint/datapoint_helpers.c:85-127 | the cell of each string, whatever it holds, is all of it or its part before the first NUL; an absent member's cell is empty |
| Csv.LineHasNoNul | cores/control/src/datapoint/datapoint_helpers.c:85-85 | no line holds a NUL, whatever the strings hold |
| Csv.SplitsIffNoCommas | cores/control/src/datapoint/datapoint_helpers.c:77-135 | a line ends in a newline and splits back into its six fields exactly when none holds a comma |
| Csv.ReadLine | cores/control/src/datapoint/datapoint_helpers.c:77-135 | reading the line of a datapoint with plain strings gives back the datapoint, absent members included |
| Csv.Snprintf | cores/control/src/datapoint/datapoint_helpers.c:78-78 | the contract of snprintf: what is written is truncated and terminated, and the result is the untruncated length |
| Csv.TerminatedMeans | cores/control/src/datapoint/datapoint_helpers.c:78-78 | character by character what a print leaves in a buffer: the text or the part that leaves room, the terminator, and what was there before |
| Csv.PrintField | cores/control/src/datapoint/datapoint_helpers.c:77-82 | one print and its check: the buffer after it, and failure exactly when the text so far does not fit |
| Csv.DatapointToCsv | cores/control/src/datapoint/datapoint_helpers.c:68-136 | it succeeds exactly when the line is shorter than the buffer and the buffer no larger than the largest int, and then the buffer starts with the line and its terminator; the whole buffer in every case; -EINVAL for NULL |
| Csv.SchemaLength | lib/czd/schemas/datapoint.cddl:4-8 | a datapoint within the schema has a line of at most 149 characters and its float |
| Csv.LongestLine | lib/czd/schemas/datapoint.cddl:4-8 | and there is one whose line is that long |
| Csv.SinkNeverFailsIffFloatShort | cores/control/src/datapoint/datapoint.c:53-57 | the 256-byte buffer takes every datapoint of the schema with a given float exactly when the float is rendered in at most 106 characters |
| Logging.LoggableLineFits | cores/control/src/datapoint/datapoint.c:53-57 | such a line meets what the card requires: shorter than its buffer and free of NULs |
| Logging.FormatLine | cores/control/src/datapoint/datapoint.c:53-55 | the buffer and the length for every datapoint; the unchecked error code makes the length exceed the card's buffer exactly when the line does not fit the sink's |
| Logging.DpSinkSdCard | cores/control/src/datapoint/datapoint.c:53-57 | for every line that fits the sink's buffer, the card gets exactly that line, or nothing when its mutex is busy |
| Logging.ReadLogLines | cores/control/src/datapoint/datapoint_helpers.c:77-135 | reading a file of datapoints' lines gives back the datapoints |
| Logging.LogReadsBack | cores/control/src/sd_card/sd_card.c:40-108 | over whole runs: reading the log file gives datapoints that were logged, unchanged, in order, each at most once |
| Cellular.QueueRoom | lib/cellular/cellular_queue.c:8-11 | a sender that got a packet finds room in the queue |
| Cellular.StepKeepsOwned | lib/cellular/cellular.c:94-115 | every step of every sender and of the thread keeps: each allocated packet is in exactly one place, with its sender's data, and no other packet is anywhere |
| Cellular.StepKeepsOrder | lib/cellular/cellular.c:229-249 | every step keeps: the data accepted is what was handed to send(), then what is on its way, in order |
| Cellular.AcceptedIsEnqueued | lib/cellular/cellular.c:105-114 | in every run what is accepted is the data the senders were called with, in the order of their enqueues |
| Cellular.UplinkLosesNothing | lib/cellular/cellular.c:94-249 | over whole runs with any number of senders: used packets are those filled, queued and in the thread's hand, at most the pool; none leaks or is freed twice; the payloads sent are a prefix of the senders' data, in the order of their enqueues |
| Cellular.SendEffect | lib/cellular/cellular.c:105-114 | a sender with a free packet has its data accepted last and queued last |
| Cellular.Link.AllocAndFill | lib/cellular/cellular_packet.c:5-14 | the result and the state for a full pool and for a free packet, which gets the data and disturbs no other |
| Cellular.Link.Enqueue | lib/cellular/cellular_queue.c:16-21 | the result and the state; a packet whose enqueue fails stays allocated |
| Cellular.Link.SendPacket | lib/cellular/cellular.c:94-115 | invalid data and a full pool are refused and change nothing; otherwise the data is accepted, and the enqueue never fails |
| Cellular.Link.ServeUplink | lib/cellular/cellular.c:231-249 | the oldest packet's payload is handed to send() and its packet freed, whether or not the send succeeds |

## Left out

- The kernel's own objects (slabs, message queues, mutexes, semaphores, work items, timers) are given by their contracts: finite pools, bounded queues, and work handlers that exclude one another.
- The give of the semaphore after an unsuccessful dequeue, and a target callback, are in one step with the dequeue and with the check that lead to them.
- Blocks and packets are numbers into a pool that is a map or an array of values, so pointer aliasing between frames is not captured there; `FrameBuffers` works on frame objects and byte arrays.
- The UART callback and the callers are over-approximated: any number of them, in any interleaving, receiving any frame or failing to.
- UART events and DMA timing, GPIO and power rails, mounting and closing the FAT file system, sockets and name resolution appear only as nondeterministic success or failure.
- The unchecked locks with no wait at `lib/icmp/icmp.c:278` and `lib/icmp/icmp.c:320` are taken to succeed, and the uptime at a stamp to be positive, since 0 marks an entry as not sent.
- Received frames are taken to have a target below the number of targets and, when they are responses, an id below 32, as the source takes them; the declared length of a received frame is taken to fit the buffer, which the UART PHY's buffer of maximum size guarantees (`FrameBuffers.UartPhy.RxBufReleased`).
- The maximum payload size is taken to be at most 255, so that the length field can hold it.
- IcmpServer.Server.DispatchHandler: the handler run as a whole is the case of a callback that does not call back into the library; the two halves, and the transition system, cover callbacks that do.
- Logging.DpSinkSdCard: a line that does not fit the sink's buffer is left out, since the copy of a length near 4 GB that would follow has no defined effect; `Logging.FormatLine` says exactly when that is.
- SdLog.LogIsWholeLines: a flush is one step, so a swap during a running flush is not modelled, and a write takes effect wholly or not at all.
- The rendering of floats by "%.6f" is a text given with the datapoint: not empty and without commas, newlines and NULs.
- Strings are sequences of characters as long as their length field, and lengths do not exceed the largest int.
- `icmp_init`, the thread's start-up and the hook that resets the in-flight state for unit tests.
- `cellular_init`, the cellular states, the backend and the downlink half of the thread.
- `lib/coap`, the CBOR coding and `remote_commands.c`: wrappers and dispatches that would only add easy members.
- The SDI-12 thread, heartbeat, sensor polling, ADC conversion, board start-up and the Python scripts.
