# StressScan-Sim: a verified model of its protocols and algorithms

StressScan-Sim simulates a wafer-metrology machine that talks to a factory host. This project models the
parts of it that have to be right for every input and every interleaving, and proves what they promise.
`dafny verify dfyconfig.toml` checks all of it.

| file | models |
|---|---|
| `SpscRing`, `SpscRingProofs`, `SpscRingTheorems`, `SpscRingClose`, `SpscRingCalls` | the lock-free ring queue as a step system of a producer, a consumer and closers; its invariant; wake-ups and FIFO refinement; closing; what each call of push and pop returns |
| `Samples`, `SortedSeq`, `Outlier`, `OutlierCounts` | the sliding-window median/MAD filter against the brute-force filter, and that one by counting values |
| `ProcessMachine` | the process state machine and the controller's inbox items |
| `RunProtocol` | controller, scan thread and processing worker running one wafer after another |
| `Bytes`, `Frames` | HSMS frames and the incremental frame decoder |
| `Codec`, `CodecProofs`, `CodecLaws`, `CodecMethods` | the SECS-II codec: what it computes, round trips, laws of the decoder, the reader and the recursion that advances it |
| `Grammar`, `GrammarProofs`, `GrammarEncode`, `GrammarRefusals` | SECS-II items byte by byte in literal numbers: the codec reads exactly these, writes the shortest of them, and which error code every other body gets |
| `Session`, `SessionProofs`, `SessionTheorems`, `SessionWire`, `SessionSeen`, `SessionReads`, `SessionClass` | the HSMS session: timers, transactions, system bytes; the bytes the peer gets; an observer that foresees deliveries and closes from the bytes alone; splitting into reads |
| `Gem` | how the server drives session and GEM service, from a T3 expiry to S9F9 |
| `EventBus`, `EventBusCalls`, `EventBusStale` | publish and unsubscribe by any number of threads, with nested calls; whom a publish calls; unsubscribing an id that is gone already |
| `LineFit` | the quadratic least-squares fit over exact reals |

Concurrent code is a step system: a step makes at most one access to shared memory, or is one critical
section, and a theorem is about every sequence of steps. Sequential code that changes fields or runs
loops is a class or a method whose `ensures` ties it to a function, and the laws are lemmas about that
function. Fields that exist only for the proofs (event logs, the accepted and popped items of the ring,
the header bytes put on the wire) are marked where they are declared; the session, the GEM service and the
controller exist as classes that do not have them.

Where the code and its own comments disagree, the model follows the code:

- `include/ssim/core/event_bus.hpp:6-9` promises that after `unsubscribe()` no handler runs. The call that
  removes the subscription keeps that promise exactly if it is made outside the handler
  (`EventBusTheorems.RemovalReturns`, `EventBusTheorems.UnsubscribeIsSafe`). A call for an id that is not
  registered any more returns at once and keeps it exactly if no call is in flight and either the subscriber
  is marked as removed, or the only publishers that still have it in a copied list cannot go on before that:
  the remover itself, and threads that wait in `unsubscribe` for a call on such a thread
  (`EventBusStale.UnregisteredPromiseIff`). `EventBusTheorems.SecondUnsubscribeReturnsEarly` is a run in
  which the promise is broken.
- `include/ssim/core/spsc_ring_queue.hpp:77-79` promises that `pop` returns nothing only when there will
  never be another item; the class comment at `:14-17` warns that a close from another thread may discard an
  item. A close can do so exactly if it meets a push past its last look at `closed_` in `push` itself or in
  the spin loop; under the mutex it never does (`SpscRingClose.CloseLosesIff`). Such a moment is reachable in
  every configuration (`SpscRingClose.LateCloseIsReachable`), and callers avoid it, as that comment asks, by
  closing between pushes (`SpscRingClose.ProducerCloseDrains`).
- `src/machine/machine_runtime.cpp:340-342` delivers a result and then reads the state again. If a Start and
  an Abort fall between, the worker takes the Stopping of the new run for its own. The run theorems hold for
  every run without such a read (a clean run), a run keeps its phases exactly if it has none
  (`RunProtocol.RunIsCleanIff`), and it has none if no Abort is accepted while the worker still re-reads for
  an older run (`RunProtocol.WithoutEarlyAbortClean`). From every such read the wrong run ends
  (`RunProtocol.BadRereadEndsTheWrongRun`), every such Abort can lead to one
  (`RunProtocol.EarlyAbortCanEndTheWrongRun`), and one is reachable for every number of lines
  (`RunProtocol.SeparateRereadEndsTheWrongRun`).

## Model

| member | source | states |
|---|---|---|
| `SpscRingProofs.RunInvariant` | include/ssim/core/spsc_ring_queue.hpp:61-253 | in every reachable interleaving mutex ownership, indices, slots, waiting flags, counters and pending wake-ups fit together |
| `SpscRingTheorems.NoLostWakeup` | include/ssim/core/spsc_ring_queue.hpp:181-253 | a parked side whose condition holds (item, space, or closed) always has a thread on its way to notify it; both sides are never parked together |
| `SpscRingTheorems.StuckOnlyWhenWaiting` | include/ssim/core/spsc_ring_queue.hpp:93-104 | no deadlock: if no thread can move, no close is unfinished, the mutex is free and a side that waits really has nothing to do |
| `SpscRingTheorems.FirstInFirstOut` | include/ssim/core/spsc_ring_queue.hpp:134-179 | cached_tail <= tail <= cached_head <= head <= tail + capacity; popped is a prefix of accepted and the slots hold the rest in order; the producer writes only an empty slot, the consumer takes only a full one |
| `SpscRingTheorems.LiveIndicesHaveOwnSlots` | include/ssim/core/spsc_ring_queue.hpp:146-171 | two indices between tail and head never share a slot |
| `SpscRingTheorems.RefinesBoundedFifo` | include/ssim/core/queue.hpp:53-87 | every step of every run is one operation of the plain bounded FIFO (the pop that returns nothing among them), or none, exactly unless it accepts or drops an item after the close; such a step does to the items and the drop count what it would do before the close |
| `SpscRingClose.CloseDrains` | include/ssim/core/spsc_ring_queue.hpp:211-230 | pop has returned nothing only if the queue is closed and everything accepted was popped, unless the close met a push past its last look at closed_ outside the mutex |
| `SpscRingClose.CloseLosesIff` | include/ssim/core/spsc_ring_queue.hpp:77-104 | for every reachable open state: closing it has a continuation that loses an accepted item exactly if a push is past its last look at closed_ in push itself or in the spin loop |
| `SpscRingClose.ProducerCloseDrains` | include/ssim/core/spsc_ring_queue.hpp:91-104 | if every close comes while the producer is in no push, nothing accepted is lost and every step is one of the plain FIFO |
| `SpscRingClose.LateCloseIsReachable` | include/ssim/core/spsc_ring_queue.hpp:61-75 | in every configuration and for every item two steps reach a moment at which a close can lose it |
| `SpscRingTheorems.OffersAreConserved` | include/ssim/core/spsc_ring_queue.hpp:61-75 | offered = accepted + dropped + refused + one undecided; under kDropNewest nothing is refused and the producer never parks, under kBlock nothing is dropped |
| `SpscRingCalls.PushReturns` | include/ssim/core/spsc_ring_queue.hpp:58-75 | every call of push in every run: it returns true exactly if it has appended its item to the accepted ones; false, with nothing accepted, only if the queue was closed at a step of the call, or under kDropNewest and full at a step of it, which then counts one drop |
| `SpscRingCalls.PopReturns` | include/ssim/core/spsc_ring_queue.hpp:77-89 | every call of pop in every run: it returns exactly the item it has appended to the popped ones, or nothing, with nothing popped, only if the queue was closed and drained at a step of the call |
| `SpscRingCalls.OpenPushesAreConserved` | include/ssim/core/spsc_ring_queue.hpp:61-75 | pushes made while the queue is open = accepted + dropped + refused, plus at most the one in progress or caught by the close before its first check; none is refused while the queue is open |
| `SpscRingTheorems.RoundUpToPowerOfTwo` | include/ssim/core/spsc_ring_queue.hpp:124-130 | the result is the least power of two not below n |
| `SpscRingTheorems.MaskIsRemainder` | include/ssim/core/spsc_ring_queue.hpp:146 | `index & mask_` is the remainder by the slot count |
| `Outlier.TakeNext` | src/analysis/outlier_rejection.cpp:38-49 | one turn of the merge takes the next smallest deviation and never reads past either side |
| `Outlier.MedianAbsDeviation` | src/analysis/outlier_rejection.cpp:27-52 | for every sorted non-empty window the two-pointer loop returns the median of the sorted absolute deviations |
| `Outlier.MergedIsPrefix` | src/analysis/outlier_rejection.cpp:21-26 | what the merge has produced is a prefix of the sorted deviations |
| `Outlier.LeavingValue` | src/analysis/outlier_rejection.cpp:90-93 | the value that leaves is in the buffer, lower_bound finds it, and erasing it leaves the sorted permutation of the smaller window |
| `Outlier.EnteringValue` | src/analysis/outlier_rejection.cpp:94-97 | inserting at upper_bound leaves the sorted permutation of the larger window |
| `Outlier.SlideWindow` | src/analysis/outlier_rejection.cpp:87-97 | after the two inner loops the buffer is the sorted permutation of kept_z[lo..end) |
| `Outlier.JudgeSample` | src/analysis/outlier_rejection.cpp:99-109 | the verdict from the sorted buffer is the one from the raw window |
| `Outlier.CollectKept` | src/analysis/outlier_rejection.cpp:65-74 | indices and heights of the kept samples, in order |
| `Outlier.CountFlags` | src/analysis/outlier_rejection.cpp:112-114 | the number of samples that are not kept |
| `Outlier.FlagOutliers` | src/analysis/outlier_rejection.cpp:86-110 | the main loop sets exactly the flags of the brute-force verdicts |
| `Outlier.FlaggedSample` | src/analysis/outlier_rejection.cpp:104-109 | a sample changes exactly if it is judged an outlier, and then only its flag |
| `Outlier.ApplyOutlierRejection` | src/analysis/outlier_rejection.cpp:61-118 | flags, count and fraction equal those of the brute-force filter of tests/unit/analysis/outlier_equivalence_test.cpp:35-76, for every line, factor and radius |
| `OutlierCounts.OutlierIff` | src/analysis/outlier_rejection.cpp:86-104 | a height is an outlier exactly if it is further than mad_k times the middle distance from the middle of the heights at most radius away, and that product is positive; the middle is fixed by how many values are smaller and larger, without sorting |
| `OutlierCounts.KeptSampleIsFlaggedIff` | src/analysis/outlier_rejection.cpp:61-118 | a kept sample of any line is flagged in the result exactly then, with a radius of at least 1 |
| `ProcessMachine.TransitionFollowsTable` | src/core/process_state_machine.cpp:49-129 | a trigger is accepted exactly if the table has a row for it whose guard holds; a refusal changes nothing |
| `ProcessMachine.ProcessStateMachine.Apply` | src/core/process_state_machine.cpp:49-129 | state, stop flag and result code of every state, trigger and guard |
| `ControllerModel.RunIsConsistent` | src/core/controller.cpp:86-228 | any inbox items keep: state_ is the machine's state, an alarm is active exactly in Alarm, and the StateChanged events form one path of the table from Idle to that state |
| `ControllerModel.EveryRunIsConsistent` | src/core/controller.cpp:41-45 | so it is after any items from the start, in every control mode |
| `ControllerModel.HostIsLockedOut` | src/core/controller.cpp:19-38 | outside Online-Remote a host Start, Stop, Abort or ClearAlarm is refused and changes nothing |
| `ControllerModel.StartAcceptedIff` | src/core/controller.cpp:86-105 | a Start is accepted exactly in Idle, with a wafer id, from the host in Online-Remote and from the operator elsewhere; what it changes and publishes, and the reason code of each refusal |
| `ControllerModel.StopAcceptedIff` | src/core/controller.cpp:106-111 | a Stop is accepted exactly in Scanning, from the operator always and from the host in Online-Remote; reason codes |
| `ControllerModel.AbortAcceptedIff` | src/core/controller.cpp:112-121 | an Abort is accepted exactly in Scanning or Processing, from the same sources; reason codes |
| `ControllerModel.ClearAcceptedIff` | src/core/controller.cpp:122-140 | a ClearAlarm is accepted exactly in Alarm, from the same sources, and clears it; reason codes |
| `ControllerModel.SetModeAcceptedIff` | src/core/controller.cpp:141-149 | a mode request is accepted exactly from the operator, or from the host to or from Offline |
| `ControllerModel.ScanNoticesTakenIff` | src/core/controller.cpp:167-228 | the notices of the scan thread are taken exactly in Scanning and in Stopping, with the events they publish |
| `ControllerModel.FaultsTakenIff` | src/core/controller.cpp:174-218 | a fault is taken exactly in Scanning and Processing, and leads to Alarm with the alarm active and published |
| `ControllerModel.ResultTakenIff` | src/core/controller.cpp:174-207 | a result is taken exactly in Processing, and leads back to Scanning exactly if more wafers are pending and no Stop was accepted |
| `ControllerModel.DriverCalls` | src/core/controller.cpp:96-121 | the scan driver is called exactly by an accepted Start or Abort, once |
| `ControllerModel.AcceptedStopEndsTheLot` | src/core/controller.cpp:106-111 | after an accepted Stop no items lead from Processing back to Scanning before the next accepted Start |
| `ControllerModel.StartForgetsStop` | src/core/process_state_machine.cpp:65-67 | an accepted Start acts the same whether or not an earlier run was stopped |
| `ControllerModel.Controller.FireTrigger` | src/core/controller.cpp:156-165 | the new fields and the published change of state |
| `ControllerModel.Controller.HandleCommandItem` | src/core/controller.cpp:86-154 | the new fields, events, driver calls and result of each command from each source, which the lemmas above fix in literal terms |
| `ControllerModel.Controller.HandleItem` | src/core/controller.cpp:167-228 | the same for every inbox item |
| `RunProtocol.RunInvariant` | src/machine/machine_runtime.cpp:274-347 | in every state of a clean run the phase of the current run fits the machine's state, and the history is in order |
| `RunProtocol.WaferGetsItsOwnLines` | src/machine/machine_runtime.cpp:294-305 | in a clean run every processed wafer got exactly its own run's lines, complete and in line order, each run at most once |
| `RunProtocol.DiscardStaysInItsRun` | src/machine/machine_runtime.cpp:274-292 | in a clean run a discard takes only blocks of its own run |
| `RunProtocol.BlocksAreConserved` | src/hw/scan_thread.cpp:106-178 | in a clean run pushed blocks are the taken ones followed by the queue; in Idle and Alarm the queue and the jobs are empty and no scan runs |
| `RunProtocol.JoinIsImmediate` | src/machine/machine_runtime.cpp:114-119 | in a clean run the controller's join inside start never waits: the old scan thread is over |
| `RunProtocol.QueuesNeverFill` | src/machine/machine_runtime.cpp:189-200 | in a clean run no push of a block or of a job finds its queue full |
| `RunProtocol.RunsEnd` | src/machine/machine_runtime.cpp:282-347 | in a clean run, while a run is not over some thread can move without a command, and every move lowers a finite bound |
| `RunProtocol.RunIsCleanIff` | src/machine/machine_runtime.cpp:340-346 | a run fits its phases throughout exactly if it never re-reads the state for an older run while the current one is stopping |
| `RunProtocol.WithoutEarlyAbortClean` | src/core/controller.cpp:112-121 | a run in which no Abort is accepted while the worker re-reads for an older run is clean |
| `RunProtocol.BadRereadEndsTheWrongRun` | src/machine/machine_runtime.cpp:342-346 | after every such re-read, whatever else happens meanwhile, the worker's next report ends the newer run: the machine is Idle while that run has a scan thread or a job left |
| `RunProtocol.EarlyAbortCanEndTheWrongRun` | src/machine/machine_runtime.cpp:340-346 | every such Abort can lead there |
| `RunProtocol.SeparateRereadEndsTheWrongRun` | src/machine/machine_runtime.cpp:340-346 | for every number of lines there is such a run |
| `Bytes.LoadBe` | src/secsgem/secs2/codec.cpp:19-26 | the big-endian value of the bytes |
| `Bytes.StoreBe` | src/secsgem/secs2/codec.cpp:28-33 | the big-endian bytes of the value |
| `Frames.STypeRoundTrip` | src/secsgem/hsms/frame.cpp:46-69 | a byte is understood as an SType exactly if it is the byte of that SType |
| `Frames.EncodeFrameTo` | src/secsgem/hsms/frame.cpp:96-113 | length, header and body in order, or kErrFrameTooBig exactly if the length does not fit 32 bits |
| `FrameDecoding.TakeFrames` | src/secsgem/hsms/frame_decoder.cpp:29-60 | the loop finds all complete frames, the leftover and the error of the recursive parse |
| `FrameDecoding.FrameDecoder.FeedBytes` | src/secsgem/hsms/frame_decoder.cpp:20-62 | the new buffer, failure and result |
| `FrameDecoding.ChunkingIndependence` | src/secsgem/hsms/frame_decoder.cpp:20-62 | any split of a stream into feeds gives the frames and the leftover of the whole; a bad stream ends in the same error, with a prefix of the frames delivered |
| `FrameDecoding.LeftoverIsBounded` | src/secsgem/hsms/frame_decoder.cpp:40-47 | after a feed without error fewer than 4 + max_frame_bytes bytes are buffered |
| `FrameDecoding.EncodedFramesDecode` | src/secsgem/hsms/frame.cpp:96-113 | the concatenated encodings of frames within the limit decode to those frames with nothing left |
| `FrameDecoding.NoByteIsLost` | src/secsgem/hsms/frame_decoder.cpp:29-60 | the parsed frames written again, followed by the leftover, are the stream |
| `FrameDecoding.ParseByPosition` | src/secsgem/hsms/frame_decoder.cpp:29-60 | the front of a stream byte by byte in literal numbers: the length, its two errors, the ten header bytes, the body, and the rest |
| `Secs2Items.FormatRoundTrip` | src/secsgem/secs2/codec.cpp:95-132 | the codes accepted are exactly those of the formats that can be encoded |
| `Secs2Codec.WholeMeansMultiple` | src/secsgem/secs2/codec.cpp:233-237 | the length check of an array is divisibility by the element size |
| `Secs2Proofs.EncodeSucceedsIff` | src/secsgem/secs2/codec.cpp:265-289 | encode succeeds exactly for at most 32 nested lists, lengths up to 0xFFFFFF and no JIS-8 |
| `Secs2Proofs.EncodedReadsBack` | src/secsgem/secs2/codec.cpp:184-242 | wherever an encoding stands in a buffer, decoding there gives the normalised item and ends right after it |
| `Secs2Proofs.RoundTrip` | src/secsgem/secs2/codec.cpp:344-371 | decode_body(encode(x)) is x with booleans normalised to 0 or 1 |
| `Secs2Laws.DecodeIsStable` | src/secsgem/secs2/codec.cpp:184-242 | bytes that follow never change an accepted item or where it ends |
| `Secs2Laws.StrictPrefixIsRejected` | src/secsgem/secs2/codec.cpp:353-371 | no strict prefix of a body that decodes exactly holds an item |
| `Secs2Laws.AcceptedShrinks` | src/secsgem/secs2/codec.cpp:211-227 | an accepted item is valid, encodes at its depth to no more bytes than were read, and has at most half as many nodes as bytes |
| `Secs2Laws.NormEncodesAlike` | src/secsgem/secs2/codec.cpp:303-307 | an item and its normal form have the same encoding |
| `Secs2Laws.ReencodingIsFixed` | src/secsgem/secs2/codec.cpp:344-371 | an accepted body encodes to no more bytes, and from there encoding and decoding change nothing |
| `Secs2Grammar.DecodesExactlyTheTable` | src/secsgem/secs2/codec.cpp:136-242 | decode_body accepts exactly the bytes that a table in literal numbers gives an item: format byte, one to three length bytes, however many, elements of 1, 2, 4 or 8 bytes high byte first in two's complement, lists at most 32 deep |
| `Secs2Writing.EncodesIff` | src/secsgem/secs2/codec.cpp:265-289 | which items encode accepts, in literal numbers |
| `Secs2Writing.EncodesByTheTable` | src/secsgem/secs2/codec.cpp:246-340 | what encode writes is by that table the item with booleans as 0 or 1, and no other bytes of it are shorter |
| `Secs2Writing.ArrayByPosition` | src/secsgem/secs2/item.cpp:41-64 | byte i of element k of an encoded array stands i bytes after k times the width of its format, behind a format byte and the shortest length field |
| `Secs2Refusals.BodyRefusedIff` | src/secsgem/secs2/codec.cpp:184-371 | exactly which bodies decode_body refuses with which code, by the first thing that is wrong: cut short, no length bytes, format, length, count, depth, trailing bytes |
| `Secs2Methods.EncodeHeader` | src/secsgem/secs2/codec.cpp:246-256 | the format byte and one to three length bytes are appended, or kErrTooLong |
| `Secs2Methods.EncodeAtDepth` | src/secsgem/secs2/codec.cpp:265-340 | the recursion over the byte vector appends the encoding, which `Secs2Writing.EncodesByTheTable` gives byte by byte, or its error |
| `Secs2Methods.EncodeItem` | src/secsgem/secs2/codec.cpp:344-351 | the encoding of a whole item |
| `Secs2Methods.Reader.Take` | src/secsgem/secs2/codec.cpp:81-88 | the next n bytes and an advance by n, or nothing and no advance exactly if fewer remain |
| `Secs2Methods.ReadHeader` | src/secsgem/secs2/codec.cpp:185-205 | format, length and position after the header, or the error of the first check that fails |
| `Secs2Methods.BuildArray` | src/secsgem/secs2/codec.cpp:136-182 | the elements packed into the bytes |
| `Secs2Methods.DecodeAtDepth` | src/secsgem/secs2/codec.cpp:184-242 | the recursion that advances the reader gives the item and its end, or the error, as `Secs2Grammar.DecodesExactlyTheTable` and `Secs2Refusals.BodyRefusedIff` fix them |
| `Secs2Methods.DecodeWholeBody` | src/secsgem/secs2/codec.cpp:362-371 | the item, the item's error, or kErrTrailingBytes |
| `SessionLedger.OpenedIsEndedOrOpen` | include/ssim/secsgem/hsms/session.hpp:18-20 | in any event history a ledger accepts, the openings of an id equal its endings, plus one if it is open |
| `SessionLedger.RequestsAreConserved` | src/secsgem/hsms/session.cpp:210-218 | opened = ended + still open |
| `SessionProofs.StepKeeps` | src/secsgem/hsms/session.cpp:44-302 | every call keeps the invariant, and its events explain the change of open transactions |
| `SessionTheorems.SessionInvariant` | src/secsgem/hsms/session.cpp:35-229 | after any calls: T7 runs iff NotSelected, T8 iff a partial frame is buffered, T6 iff a linktest is pending; transactions only while Selected, within the bound, without 0 and the linktest; NotConnected means everything is reset |
| `SessionTheorems.TransactionsAreConserved` | src/secsgem/hsms/session.cpp:123-218 | over any run every request ends at most once, by reply, T3, reject, deselect or disconnect, or is still open |
| `SessionTheorems.RunShown` | src/secsgem/hsms/session.cpp:128-137 | over any run the replies matched and the timeouts reported to the caller are exactly those of the history, in order |
| `SessionTheorems.NoEarlyReport` | src/secsgem/hsms/session.cpp:286-288 | each T3 report is of a request opened at least t3 earlier and not ended since |
| `SessionTheorems.TickReportsOverdue` | src/secsgem/hsms/session.cpp:210-218 | a tick that does not close reports exactly the overdue requests, once each and in ascending order, and keeps the others |
| `SessionTheorems.ReportedByTheNextTick` | src/secsgem/hsms/session.cpp:210-218 | after any run, a tick that does not close reports a request that was sent and has not ended since exactly if sent + t3 has come |
| `SessionTheorems.RequestAcceptedIff` | src/secsgem/hsms/session.cpp:271-285 | exactly when a request is accepted; a refused one sends and opens nothing |
| `SessionTheorems.RequestIsTracked` | src/secsgem/hsms/session.cpp:247-291 | an accepted request gets an unused id, leaves one frame with it, and opens a transaction exactly if it has the W-bit |
| `SessionWire.PeerReadsWholeFrames` | src/secsgem/hsms/session.cpp:67-72 | all that a run sends, as one byte stream, is read by a decoder with the same limit as exactly the frames sent, in order, with no error and nothing left |
| `SessionWire.RefusedIff` | src/secsgem/hsms/session.cpp:74-181 | a frame is refused exactly for an unsupported PType or SType, data while not selected, or a response nobody waits for; it changes nothing and gets one Reject.req with that reason, and no other frame gets one |
| `SessionWire.StatusTellsTheChange` | src/secsgem/hsms/session.cpp:138-156 | Select.req and Deselect.req get one frame of the matching SType with their system bytes; the state afterwards is the one asked for, and the status byte is 0 exactly if it changed |
| `SessionWire.ReplyOnWire` | src/secsgem/hsms/session.cpp:293-302 | a reply is accepted exactly while selected with a body that fits, and is one frame, byte by byte, with the request's system bytes and no W-bit; no field changes |
| `SessionWire.RequestOnWire` | src/secsgem/hsms/session.cpp:271-291 | an accepted request is one frame, byte by byte, with its stream, function, W-bit and new system bytes |
| `SessionWire.LinktestIsAnswered` | src/secsgem/hsms/session.cpp:157-160 | Linktest.req gets one Linktest.rsp, byte by byte, with its system bytes |
| `SessionWire.RejectionOnWire` | src/secsgem/hsms/session.cpp:74-80 | the fourteen bytes of a Reject.req |
| `SessionSeen.EveryRunIsForeseen` | src/secsgem/hsms/session.cpp:82-229 | an observer that knows only the calls, the bytes and the other outputs foresees every run: each read delivers, in order and unchanged, exactly the frames with PType 0 and SType 0 it completes while selected and before a close, as replies exactly if the function is even and the id open; a tick closes exactly if T7, T8 or T6 has passed since the connect or deselect, the last bytes with a frame unfinished, or the Linktest.req, and otherwise sends one exactly if the interval has passed |
| `SessionReads.OpenIsInTheLedger` | src/secsgem/hsms/session.cpp:128-137 | the ids that are open for that observer are those of the ledger |
| `SessionReads.ReadInTwo` | src/secsgem/hsms/session.cpp:82-108 | bytes that come in two reads instead of one are delivered alike and leave the same state, except that one read with a framing error at its end delivers nothing and two deliver the first half |
| `SessionReads.SplitsDeliverAlike` | src/secsgem/hsms/session.cpp:82-108 | without a framing error any split into reads, at any times, delivers the same |
| `SessionProofs.AllocationEnds` | src/secsgem/hsms/session.cpp:231-245 | with fewer than 2^32 - 2 open ids the search ends within open + 3 tries with a free id |
| `SessionTheorems.FreeIdIff` | src/secsgem/hsms/session.cpp:231-245 | the search can end exactly if some id is free |
| `SessionTheorems.AllocatesFirstFree` | src/secsgem/hsms/session.cpp:231-245 | every id the search passes over, counted around the 32-bit wrap, is taken, and the generator moves just past the result |
| `SessionClass.FindFree` | src/secsgem/hsms/session.cpp:231-245 | the loop returns that id and that generator |
| `SessionClass.EraseOverdue` | src/secsgem/hsms/session.cpp:210-218 | the T3 loop over the map |
| `SessionClass.QueueDataBytes` | src/secsgem/hsms/session.cpp:247-269 | the encoded frame, or the error of the body, the size or the frame |
| `SessionClass.Session.Apply` | src/secsgem/hsms/connection_state.cpp:35-68 | the next connection state; an illegal trigger changes nothing |
| `SessionClass.Session.HandleConnect` | src/secsgem/hsms/session.cpp:44-53 | new fields and output of on_connect |
| `SessionClass.Session.HandleDisconnect` | src/secsgem/hsms/session.cpp:55-59 | new fields of on_disconnect |
| `SessionClass.Session.HandleOne` | src/secsgem/hsms/session.cpp:110-186 | new fields and output for every frame; `SessionSeen.EveryRunIsForeseen` says what they mean |
| `SessionClass.Session.HandleBytes` | src/secsgem/hsms/session.cpp:82-108 | new fields and output of on_bytes; `SessionSeen.EveryRunIsForeseen` says what is delivered |
| `SessionClass.Session.HandleTick` | src/secsgem/hsms/session.cpp:188-229 | new fields and output of on_tick |
| `SessionClass.Session.Request` | src/secsgem/hsms/session.cpp:271-291 | new fields, output and result of send_request |
| `SessionClass.Session.Reply` | src/secsgem/hsms/session.cpp:293-302 | output and result of send_reply, which changes no field |
| `GemModel.GemService.Sent` | src/secsgem/gem/gem_service.cpp:156-172 | the header remembered for a request with the W-bit |
| `GemModel.GemService.Data` | src/secsgem/gem/gem_service.cpp:283-289 | a matched reply is forgotten |
| `GemModel.GemService.TransactionTimeout` | src/secsgem/gem/gem_service.cpp:267-277 | a known request is forgotten and its S9F9 posted |
| `GemModel.GemService.SessionState` | src/secsgem/gem/gem_service.cpp:256-265 | leaving Selected forgets every request |
| `GemTheorems.TaskKeeps` | src/secsgem/hsms/server.cpp:68-106 | every I/O task keeps: state notified, open transactions known to the service by the header sent, one S9F9 per expiry |
| `GemTheorems.EveryExpiryPostsItsHeader` | src/secsgem/gem/gem_service.cpp:256-288 | after any tasks the session's open transactions are among open_requests_ with the ten bytes that went on the wire, and the S9F9s posted are exactly one per T3 expiry, in order, with those bytes |
| `GemTheorems.ExpiriesAreTicks` | src/secsgem/hsms/server.cpp:179-191 | expiries come from ticks that do not close, one per overdue transaction, and from nothing else |
| `EventBusProofs.NextKeeps` | src/core/event_bus.cpp:15-90 | every step of every thread keeps the invariant: counts, nesting, registry, removed subscriptions |
| `EventBusCalls.ListsAreTheBook` | src/core/event_bus.cpp:15-43 | in every run the list of each type holds the ids that the calls of subscribe and unsubscribe so far have left, in order |
| `EventBusCalls.PublishCallsItsTargets` | src/core/event_bus.cpp:56-90 | a publish that ends without a throw has called, once each and in subscription order, exactly the handlers registered for its type when it began and not marked removed when it reached them, one after the other; after a throw the same holds of those it reached |
| `EventBusCalls.StayingHandlersAreCalled` | src/core/event_bus.cpp:56-90 | a handler registered when the publish begins and unsubscribed by nobody before it ends is called, unless another one throws |
| `EventBusTheorems.UnsubscribeIsSafe` | src/core/event_bus.cpp:26-54 | once the removing unsubscribe has returned to a caller outside the handler, no thread is calling the handler and none ever does |
| `EventBusTheorems.RemovalReturns` | src/core/event_bus.cpp:46-53 | when the removing call returns, no thread calls the handler then or later exactly if the call was made outside it, and from inside it returns at once |
| `EventBusTheorems.WaitsOnlyForOthers` | src/core/event_bus.cpp:49-53 | a thread that waits in unsubscribe makes none of the calls it waits for, and as long as it has to wait another thread is in one |
| `EventBusTheorems.RunningCountsCalls` | src/core/event_bus.cpp:68-87 | running is the number of calls in flight on all threads, also after a handler threw |
| `EventBusStale.UnregisteredPromiseIff` | src/core/event_bus.cpp:29-33 | for every reachable state and unregistered id the call returns at once, and no thread calls the handler then or later exactly if no call is in flight and the subscriber is removed or only threads that cannot go on before that have it in a list |
| `EventBusTheorems.SecondUnsubscribeReturnsEarly` | src/core/event_bus.cpp:29-33 | a run in which a second unsubscribe is over while the handler runs |
| `LineFitProofs.FitIsLeastSquares` | src/analysis/line_fit.cpp:65-79 | no other (a, b, c) has a smaller residual sum on the kept samples |
| `LineFitProofs.FitIsUnique` | src/analysis/line_fit.cpp:65-79 | any (a, b, c) with no larger residual sum is the fit |
| `LineFitProofs.SolutionIsNormal` | src/analysis/line_fit.cpp:23-32 | Cramer's rule solves the normal equations |
| `LineFitProofs.OnlySolution` | src/analysis/line_fit.cpp:70-79 | the normal equations have no other solution when det(M) is not 0 |
| `LineFitProofs.ParabolaIsRecovered` | include/ssim/analysis/line_fit.hpp:3-11 | samples on a parabola are fitted by exactly that parabola, with no residual and no variance |
| `LineFitProofs.DetIsTriples` | src/analysis/line_fit.cpp:17-21 | det(M) is the sum over triples of kept positions of their squared Vandermonde product |
| `LineFitProofs.DetSign` | src/analysis/line_fit.cpp:71-75 | det(M) >= 0, and det(M) > 0 exactly if three different positions are kept |
| `LineFitProofs.ValidIff` | src/analysis/line_fit.cpp:60-75 | the fit is valid exactly if three different positions are kept |
| `LineFitProofs.CofactorIsNonNegative` | src/analysis/line_fit.cpp:96-99 | cofactor00 >= 0 |
| `LineFitProofs.RootsAreDefined` | src/analysis/line_fit.cpp:92-101 | what stands under both square roots is never negative |
| `LineFitProofs.FirstOfInverse` | src/analysis/line_fit.cpp:96-99 | cofactor00 / det(M) is the first entry of the inverse of the normal matrix |
| `LineFitProofs.ErrorsAreScaled` | src/analysis/line_fit.cpp:82-101 | the mean square times n is the least residual sum, and the variance times n - 3 is that sum times the first entry of the inverse |
| `LineFitProofs.CurvatureIsSecondDifference` | src/analysis/line_fit.cpp:80 | the curvature is the second difference of the fitted parabola |
| `LineFitMethods.CramerSolve` | src/analysis/line_fit.cpp:24-32 | the determinant of m with column col replaced by rhs, over det(m) |
| `LineFitMethods.Accumulate` | src/analysis/line_fit.cpp:39-58 | the sums over the kept samples |
| `LineFitMethods.FitSamples` | src/analysis/line_fit.cpp:35-105 | the whole result |

## Left out

- Qt panel, CLI, Asio sockets, logger, configuration files and result writers: I/O and library wrappers.
- C++ weak memory: interleavings are sequentially consistent; the acquire/release annotations are taken as sufficient for that.
- Wrap-around of the ring's `size_t` indices and of `SubscriptionId`: both are unbounded here.
- The texts of errors and close reasons: only the reason codes are modelled.
- Floating-point rounding, NaN and the square roots: heights and fits are exact reals, F4 and F8 elements are bit patterns, and `residual_rms_m` and `se_curvature_per_m` appear as the values under their roots.
- Taking an item out of a ring slot and resetting the slot is one step, and so are the last read and the release of the mutex in a call that returns while it holds it.
- SessionModel: the bound on open transactions is taken to be at most 2^32 - 3; above it `allocate_system_bytes` can loop for ever (`SessionTheorems.FreeIdIff`).
- RunProtocol: shutdown and `notify_fault` during a scan are excluded, and inbox items are served in any order.
- Gem: session and service use one device id, both being built from the same configuration.
- GemModel.GemService.Data: states only what a delivery does to `open_requests_`; the replies and the other S9 messages of `on_data` touch no open transaction.
- GemModel.GemService.SessionState: does not model `comm_`, which no open transaction depends on.
- LineFitMethods.FitSamples: gives what stands under the square roots of `residual_rms_m` and `se_curvature_per_m`, because the roots are not exact.
- EventBus: that a waiting unsubscribe ends at all is not claimed; two handlers that unsubscribe each other wait for ever.
- Wafer map, forward model, Stoney formula, uncertainty and fault injector: trigonometry, randomness or single formulas.
- Script runner, pattern parser and text dump: their grammars differ, so there is no print/parse inverse to state.
