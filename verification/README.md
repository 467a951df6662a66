# A model of CAML's media runtime

CAML compiles a YAML manifest of camera pipelines into a graph and runs it: sources
fill pooled buffers, a router fans the frozen buffers out to sinks, a supervisor
restarts failing pipelines, a WebRTC sink sends H.264 to the network, and an FFmpeg
filter graph draws overlays. The modules here model its hardest parts and state what
holds of them over all inputs, all runs and all interleavings.

| module | what it is about |
|---|---|
| `BufferPool`, `PoolRuns`, `PoolWrites` | the slot table, write handles and reference-counted read handles; runs of any operations, and what handles hold after them |
| `Fanout`, `FanoutRuns`, `FanoutTries`, `FanoutSkips` | the fan-out router, its bounded queues and actors, interleaved over the pool; what reaches a sink, what is discarded, and what never comes to it |
| `SinkQueue`, `SinkProtocol`, `SinkLog`, `SinkRuns`, `SinkAdmissions` | the WebRTC sink: one caller, one sender task, a locked queue and one `Notify` |
| `Supervisor`, `SupervisorEnds`, `Script`, `StatusBoard` | restarts, back-off and end of one pipeline, the scripted mock source, and all pipelines' published statuses with shutdown |
| `StartCode`, `CodedStream`, `Avcc`, `AvccErrors`, `Keyframe`, `Framing`, `DecoderRecord` | H.264 framing: Annex B (section B.1 of ITU-T H.264) and length-prefixed units with their decoder configuration record (section 5.3.3.1 of ISO/IEC 14496-15:2017) |
| `Manifest`, `Capabilities`, `Compiler`, `CompilerResults`, `HostChecks`, `CompiledNumbers`, `Template`, `TemplateErrors`, `MemoryPlan` | the manifest compiler: probes, validation, resource plan, overlay templates |
| `Overlay`, `Escape`, `FilterGraph`, `FilterWiring`, `FilterText` | the overlay filter graph as text, as wiring, and its segments read back |
| `FilterReader`, `FilterValues`, `Expansion`, `FilterMeaning`, `WatermarkMeaning`, `OverlayMeaning`, `Turns` | a reader of filter chains, and what it finds in the written ones: options, corners, colours, clocks, and turned pixels |
| `TimeMath` | packet time to duration to RTP samples |
| `Common`, `Arithmetic`, `Text` | shared types and facts |

Code that changes state in place is a class or a loop proved equal to a specification
function; concurrency is a state machine whose steps are what a task does between two
points where others can run, and its results are stated over every list of moves.

Where the code does not do what it says, or what one would expect, the model follows
the code, and an exact condition is proved:

- The router's DropOldest policy evicts nothing. When both tries find the queue full it
  discards the incoming payload (runtime.rs:658-666 against the comment at :567 and
  frontend.rs:68). See `DiscardedExactly` and `DropOldestDropsTheNewest`.
- A write handle whose vector was replaced by one without capacity never gives its slot
  back (runtime.rs:209-211, 263-269). See `LostExactlyWithoutCapacity` and `ASlotGetsLost`.
- A sink's call can wait for ever under Block, for every limit, and in two ways (webrtc
  lib.rs:331-349). See `CallsCanHangExactly`, `HangsExactly` and the two witnesses.
- Only the first `shutdown` call waits; a later one returns Ok at once
  (runtime.rs:862-881). See `OnlyTheFirstCallWaits`.
- A hardware_decode pipeline with a hardware encoder on a Raspberry Pi 4 needs the
  encoder without listing it as a requirement (compiler.rs:601-615, 878-916). See
  `UnlistedExactly`.
- A payload that begins like a start code is taken as Annex B even when it is a
  length-prefixed one (h264.rs:106-107). See `MistakenForAnnexB` and `NormalizeRoundTrip`.
- Going through nanoseconds can lose one RTP sample (device.rs:160-184, webrtc
  lib.rs:559-566). See `MatchingClock`.
- A keyframe with a parameter set missing from both payload and configuration grows every
  time it is normalised (h264.rs:119-126). See `NormalizeIdempotent` and
  `IncompleteKeyframesGrow`.
- Semicolons and brackets in overlay values are not escaped (transcode.rs:549-565). See
  `OverlayReadsBackExactly`.
- Colours stand outside quotes and commas in them are not escaped, and quotes and closing
  braces in a timestamp format are not kept from the time expansion (transcode.rs:489-501,
  560-565). See `TextReadsBack` and `TimestampReadsBack`.
- A tick count of zero has no duration as a packet's, and one of zero nanoseconds otherwise
  (device.rs:152-168). See `PacketDurationExactly`.

`dafny verify dfyconfig.toml` checks everything.

## Model

| member | source | states |
|---|---|---|
| `BufferPool.BufferPool.constructor` | crates/caml-core/src/runtime.rs:110-120 | a new pool has no slot, nothing free, and a buffer size of at least one |
| `BufferPool.BufferPool.Preallocate` | crates/caml-core/src/runtime.rs:122-136 | adds exactly `count` free slots of the pool's buffer size, on top of the free list, and raises the watermark to the new total |
| `BufferPool.BufferPool.Acquire` | crates/caml-core/src/runtime.rs:155-190 | hands out the last free slot with its vector cleared, or a new slot when none is free; the rest of the pool stays |
| `BufferPool.MediaBuffer.ExtendFromSlice` | crates/caml-core/src/runtime.rs:213-215 | appends to the bytes, keeping the capacity when they fit and leaving any that is enough otherwise |
| `BufferPool.MediaBuffer.Freeze` | crates/caml-core/src/runtime.rs:229-260 | puts the bytes into the slot with their length and a count of one, and returns the handle of that slot |
| `BufferPool.MediaBuffer.Drop` | crates/caml-core/src/runtime.rs:263-280 | returns the slot to the free list with an empty vector, unless the vector has no capacity |
| `BufferPool.PooledBuffer.AsSlice` | crates/caml-core/src/runtime.rs:299-307 | the bytes cached by freeze, read from the slot |
| `BufferPool.PooledBuffer.Clone` | crates/caml-core/src/runtime.rs:321-335 | counts one more handle of the same slot and changes nothing else |
| `BufferPool.PooledBuffer.Drop` | crates/caml-core/src/runtime.rs:337-355 | counts one handle less and frees the slot exactly when it was the last |
| `PoolRuns.StepKeepsInv` | crates/caml-core/src/runtime.rs:155-355 | no operation on a live handle panics, and each keeps slots, counts and free list in agreement with the handles alive |
| `PoolRuns.EverySlotAccountedFor` | crates/caml-core/src/runtime.rs:122-355 | after any run each slot is free once, held by one write handle, frozen with a count equal to its live handles, or lost; and every live read handle still reads the bytes it was frozen with |
| `PoolRuns.FreeIsListed` | crates/caml-core/src/runtime.rs:155-190 | a free slot is on the free list, so it can be acquired again |
| `PoolRuns.StatsCountHandles` | crates/caml-core/src/runtime.rs:138-147 | in every reachable state the reported in-use number is the number of slots that are not free, and the watermark the number of slots |
| `PoolRuns.WatermarkIsPeak` | crates/caml-core/src/runtime.rs:122-190 | after one preallocation of n the slots, the allocated count and the watermark are always the larger of n and the peak in use: allocation on demand happens exactly beyond n |
| `PoolRuns.LostExactlyWithoutCapacity` | crates/caml-core/src/runtime.rs:263-280 | after any run from a fresh pool a slot is lost if and only if some operation of the run dropped its write handle with a vector of capacity zero |
| `PoolRuns.ASlotGetsLost` | crates/caml-core/src/runtime.rs:209-211 | from a fresh pool of any buffer size three operations lose its first slot |
| `PoolRuns.NothingLost` | crates/caml-core/src/runtime.rs:209-211 | when no write handle's vector is replaced by one without capacity, no slot is ever lost, for any buffer size including zero |
| `PoolRuns.WritersHaveRoom` | crates/caml-core/src/runtime.rs:155-190 | when no vector is replaced, every live write handle has at least the capacity of the pool's buffers, on a recycled slot too |
| `PoolWrites.WriterHoldsAppended` | crates/caml-core/src/runtime.rs:155-215 | in every run a live write handle holds exactly the payloads appended under it since it was acquired, in order, and nothing of what its slot held before |
| `PoolWrites.ReadsWhatWasAppended` | crates/caml-core/src/runtime.rs:229-307 | a live read handle reads what had been appended to its write handle when that was frozen into its slot |
| `PoolWrites.LastFreedFirst` | crates/caml-core/src/runtime.rs:155-190 | a slot freed by any operation is the one the next acquisition hands out, without a new slot |
| `Fanout.MoveHandles` | crates/caml-core/src/runtime.rs:639-671 | every move of router, actors and main loop changes the number of handles, wherever they are, exactly as its one pool operation changes the slot's count |
| `Fanout.MoveKeepsOrder` | crates/caml-core/src/runtime.rs:639-671 | every move keeps each queue within its limit and each sink's traffic an in-order, repetition-free part of the ingress |
| `Fanout.MoveKeepsBlock` | crates/caml-core/src/runtime.rs:647-653 | every move keeps a running Block sink in receipt of all it was offered |
| `FanoutTries.MoveKeepsTries` | crates/caml-core/src/runtime.rs:639-671 | every move of router, actors and main loop keeps the account of a payload at a sink: not yet tried, tried once without success, or done with |
| `FanoutTries.EnqueuedExactly` | crates/caml-core/src/runtime.rs:639-671 | in every run a sink has been sent a payload if and only if some move of the run was a try of that payload at that sink which found the queue open and not full |
| `FanoutTries.DiscardedExactly` | crates/caml-core/src/runtime.rs:647-668 | a payload the router is done with was tried once, under DropOldest again after a failure, and not at all only behind a terminated Block sink; it is discarded exactly when no try found room, whatever the sink receives between the tries |
| `FanoutSkips.SkippedExactly` | crates/caml-core/src/runtime.rs:639-653 | in every run a payload the router is done with was never tried at a sink if and only if some Block sink before it was found closed for that payload, where the router returned its error |
| `FanoutTries.DropOldestDropsTheNewest` | crates/caml-core/src/runtime.rs:658-666 | for every limit there is a run from the start in which the newest payload is discarded while all older ones stay queued |
| `FanoutRuns.PoolNeverRefuses` | crates/caml-core/src/runtime.rs:321-355 | no clone or drop by the router or an actor is ever of a dead handle |
| `FanoutRuns.CountsAgreeEverywhere` | crates/caml-core/src/runtime.rs:592-671 | in every interleaving a frozen slot's count is the number of its handles in main loop, router, queues and sinks together, it is not on the free list, and each handle reads the frozen bytes |
| `FanoutRuns.NothingLeftBehind` | crates/caml-core/src/runtime.rs:337-355 | when no handle is left anywhere, every slot is free again or was lost by a drop without capacity |
| `FanoutRuns.EachSinkInOrder` | crates/caml-core/src/runtime.rs:596-671 | every sink is sent an in-order, duplicate-free subsequence of the ingress; its queue never exceeds the limit and nothing sent to a running sink is evicted |
| `FanoutRuns.BlockSinksGetEverything` | crates/caml-core/src/runtime.rs:647-653 | while no Block sink has terminated, every Block sink has been sent the whole ingress, whatever happens to other sinks |
| `SinkQueue.WebRtcShared.DropOldestPreferDelta` | crates/caml-webrtc/src/lib.rs:541-547 | removes exactly the oldest packet that is no keyframe, or the oldest of all, keeping the order of the rest |
| `SinkQueue.WebRtcShared.Offer` | crates/caml-webrtc/src/lib.rs:331-369 | the section under the lock: refused when closed, queued when there is room, otherwise by policy |
| `SinkQueue.WebRtcShared.Take` | crates/caml-webrtc/src/lib.rs:445-476 | what the sender finds: an error, a packet, an empty closed queue, or nothing yet |
| `SinkQueue.VictimIndex` | crates/caml-webrtc/src/lib.rs:541-547 | the victim is a keyframe exactly when all queued packets are, and every packet before it is a keyframe |
| `SinkQueue.KeyframeEvictedOnlyAmongKeyframes` | crates/caml-webrtc/src/lib.rs:350-362 | DropOldest evicts a keyframe exactly when every queued packet is one |
| `SinkProtocol.MoveKeepsWake` | crates/caml-webrtc/src/lib.rs:325-384 | every step of caller and sender, split at each lock release and each poll, keeps the wake-up invariant |
| `SinkAdmissions.OfferedExactly` | crates/caml-webrtc/src/lib.rs:331-370 | the locked section refuses exactly when closed, accepts exactly when open with room or under DropOldest, evicts, rejects or starts to wait exactly when open, full and of that policy |
| `SinkAdmissions.OfferedQueue` | crates/caml-webrtc/src/lib.rs:342-362 | an accepted packet is at the end of the queue, behind all others when there was room, and in place of one when there was not |
| `SinkAdmissions.OnlyForItsReason` | crates/caml-webrtc/src/lib.rs:325-476 | no step of any task accepts, evicts, rejects or refuses a packet without these reasons |
| `SinkAdmissions.RoomMeansAccepted` | crates/caml-webrtc/src/lib.rs:342-349 | under any policy an open, error-free run whose queue had room at every locked section has accepted every packet, and written, in flight, queued and pending ones are all that was submitted, in order |
| `SinkAdmissions.SenderWritesOne` | crates/caml-webrtc/src/lib.rs:418-476 | from every reachable state without error in which a packet is queued or in flight, the sender writes one more within three of its steps, unless under Block it sleeps unwoken |
| `SinkRuns.NoLostWakeUp` | crates/caml-webrtc/src/lib.rs:343-476 | unless the policy is Block a sender waiting beside a non-empty queue has a permit, a newer epoch or a delivered wake; a producer waiting while there is room always has a newer epoch or a wake |
| `SinkRuns.CallsCanHangExactly` | crates/caml-webrtc/src/lib.rs:331-349 | for every limit and policy some run hangs if and only if the policy is Block |
| `SinkRuns.HangsExactly` | crates/caml-webrtc/src/lib.rs:331-349 | a call hangs exactly under Block, parked unwoken on a full queue with the sender asleep unwoken or stopped on an error; never under the dropping policies |
| `SinkRuns.StolenPermitHangs` | crates/caml-webrtc/src/lib.rs:343-349 | for every limit a reachable hang: the producer's own wait takes the permit meant for the sender |
| `SinkRuns.ErrorBehindTheCheckHangs` | crates/caml-webrtc/src/lib.rs:528-539 | for every limit a reachable hang: the sender sets its error between the producer's check and its wait |
| `SinkLog.MoveConserves` | crates/caml-webrtc/src/lib.rs:325-476 | every step keeps the number of packets of any kind in all places equal to the number submitted |
| `SinkLog.EvictionNeedsKeyframes` | crates/caml-webrtc/src/lib.rs:350-362 | a step that evicts a keyframe starts with `limit` undelivered keyframes filling the queue |
| `SinkRuns.EveryPacketAccountedFor` | crates/caml-webrtc/src/lib.rs:325-476 | in every reachable state a submitted packet is in exactly one of: written, in flight, lost to the error, queued, evicted, rejected, refused, still with the caller |
| `SinkRuns.WrittenInOrder` | crates/caml-webrtc/src/lib.rs:418-443 | writes, then what is in flight, lost and queued, follow submission order without repetition; at most one packet is lost; the queue stays within its limit; eviction and rejection only under their own policies |
| `SinkRuns.BlockLosesNothing` | crates/caml-webrtc/src/lib.rs:342-349 | under Block what was written, in flight, lost, queued and refused is, in this order, all that was submitted so far; without an error nothing is lost, and nothing refused before the close |
| `SinkRuns.FlushedMeansWritten` | crates/caml-webrtc/src/lib.rs:372-384 | when end of stream returns Ok the queue is empty and every packet not evicted, rejected or refused has been written; under Block all in order |
| `SinkRuns.FlushEnds` | crates/caml-webrtc/src/lib.rs:372-443 | once closing is announced the sender finishes within 8 * limit + 5 of its own steps, whichever writes fail, and the caller goes on |
| `SinkRuns.FlushAlwaysEnds` | crates/caml-webrtc/src/lib.rs:372-384 | from every reachable state in which end of stream awaits the sender, it does finish |
| `SinkRuns.KeyframesSurvive` | crates/caml-webrtc/src/lib.rs:350-362 | a run in which undelivered keyframes always number fewer than the limit evicts none |
| `SinkRuns.NoKeyframeLost` | crates/caml-webrtc/src/lib.rs:350-362 | under DropOldest and without error every keyframe of such a run is written, on its way, or refused by a closed sink |
| `Supervisor.SupervisePipeline` | crates/caml-core/src/runtime.rs:900-1011 | the loop with its in-place restart count computes the recursive account of statuses, restarts and end |
| `Supervisor.TurnPath` | crates/caml-core/src/runtime.rs:909-1009 | one turn publishes a legal stretch of statuses, terminal exactly when the loop ends and Recovering otherwise |
| `Supervisor.TraceIsLegal` | crates/caml-core/src/runtime.rs:900-1011 | whatever builds, runs and cancellations do, the statuses follow the automaton from Spawning and the last is terminal exactly when the supervisor has finished |
| `Supervisor.PathsAreLifetimes` | crates/caml-core/src/runtime.rs:909-1009 | the automaton's paths are exactly the prefixes of (Running Stalled Recovering)* Running? (Stopped or Failed) |
| `Supervisor.RestartBound` | crates/caml-core/src/runtime.rs:950-1003 | with total running time T there are at most max_restarts * (1 + T / reset_after) restarts |
| `Supervisor.CancellationEnds` | crates/caml-core/src/runtime.rs:910-1003 | once a turn begins after the cancellation the supervisor is finished, with at most four statuses more than before the turn that was going on |
| `Supervisor.BackoffGrows` | crates/caml-core/src/runtime.rs:985-993 | for any real multiplier of at least one the back-off does not shrink with the restart number and is at most max_backoff |
| `Supervisor.BackoffsGrowBetweenResets` | crates/caml-core/src/runtime.rs:950-1003 | in any supervised run restarts count 1 to max_restarts, begin again at 1 after a run of at least reset_after, and back-offs in between never decrease or exceed the maximum |
| `SupervisorEnds.FinishesExactly` | crates/caml-core/src/runtime.rs:909-1009 | a supervisor finishes exactly when some turn is a cancellation, an end of stream, a failed build, a fatal exit or a failure beyond the budget counted since the last long run |
| `SupervisorEnds.TraceExactly` | crates/caml-core/src/runtime.rs:900-1011 | it has then published Running, Stalled, Recovering for every turn before that one, and Running or not, Stalled or not, and the final status for that one |
| `SupervisorEnds.EndStatusExactly` | crates/caml-core/src/runtime.rs:909-1009 | the last status is Stopped exactly when the turn that ended it was a cancellation (before the build, in the run or in the sleep) or an end of stream, and Failed exactly when it was a failed build, a fatal exit or a failure beyond the budget |
| `SupervisorEnds.GoesOn` | crates/caml-core/src/runtime.rs:950-1009 | while no turn ends it, it makes one restart and publishes three statuses a turn |
| `SupervisorEnds.SleepsExactly` | crates/caml-core/src/runtime.rs:985-1003 | each restart after a long run, and the first, sleeps for the initial back-off, and every other for the multiple of the sleep before, cut at the maximum |
| `Script.MockSourcePlan.Next` | crates/caml-core/src/runtime.rs:1189-1231 | takes the first action off the shared script and answers as it says; an exhausted script is a fatal error |
| `Script.MockSinkRecorder.Consume` | crates/caml-core/src/runtime.rs:1281-1293 | records the payload behind those recorded before |
| `Script.RunPipelineLoop` | crates/caml-core/src/runtime.rs:1038-1097 | one run delivers the packets up to its end and leaves the rest of the script; end of stream does not reach the sink |
| `Script.Recover` | crates/caml-core/src/runtime.rs:900-1011 | supervised runs deliver and end as the recursive account says |
| `Script.PlayedIsDelivered` | crates/caml-core/src/runtime.rs:900-1097 | across restarts the sink receives the packets of the played part of the script, each once and in order |
| `Script.StopsAtEndOfStream` | crates/caml-core/src/runtime.rs:900-1097 | with runs shorter than reset_after, the pipeline ends Stopped if and only if at most max_restarts failures precede the first end of stream, and then every packet before it was delivered |
| `Script.FailsAfterTooMany` | crates/caml-core/src/runtime.rs:956-1003 | otherwise it ends Failed after exactly the packets before failure max_restarts + 1 |
| `Script.FailsWhenExhausted` | crates/caml-core/src/runtime.rs:1189-1205 | a script without end of stream and with few enough failures delivers every packet and then fails |
| `Script.RecoveredIsSupervised` | crates/caml-core/src/runtime.rs:900-1011 | the scripted run's final status is the last one the supervisor publishes |
| `StatusBoard.MoveKeepsBoard` | crates/caml-core/src/runtime.rs:799-881 | every step of engine, supervisors and shutdown calls keeps each entry and event list in agreement with what its task is doing |
| `StatusBoard.EventsAndEntriesAgree` | crates/caml-core/src/runtime.rs:1108-1124 | in any interleaving each pipeline's events are a prefix of Spawning and a lifetime, and its entry is the last published status when no publish is in progress |
| `StatusBoard.SupervisedOnBoard` | crates/caml-core/src/runtime.rs:900-1011 | on the board a spawned supervisor can publish exactly the statuses of any supervised run, and finish |
| `StatusBoard.JoinsEnd` | crates/caml-core/src/runtime.rs:874-878 | when every pipeline has finished, a waiting shutdown call returns after one step for each handle it holds |
| `StatusBoard.FinishedIsFinal` | crates/caml-core/src/runtime.rs:900-1011 | a finished pipeline's entry is terminal and no later step changes it or adds an event |
| `StatusBoard.ShutdownMeansStopped` | crates/caml-core/src/runtime.rs:862-881 | once the first shutdown call returns Ok every entry is terminal and stays as it is |
| `StatusBoard.OnlyTheFirstCallWaits` | crates/caml-core/src/runtime.rs:862-881 | a shutdown call's Ok means that all pipelines have stopped if and only if it is the first call |
| `StartCode.FindsTheFirst` | crates/caml-ffmpeg/src/h264.rs:204-216 | what is found is a start code and the first one, in its 4-byte form when a zero byte precedes; nothing is found exactly when there is none |
| `StartCode.ScanStartCode` | crates/caml-ffmpeg/src/h264.rs:204-216 | the index loop computes that search |
| `StartCode.SplitSuffix` | crates/caml-ffmpeg/src/h264.rs:180-216 | splitting from a position depends only on the bytes from there on |
| `StartCode.SplitUnitsCodeFree` | crates/caml-ffmpeg/src/h264.rs:180-216 | no unit obtained by splitting contains a start code |
| `StartCode.FirstCodeIsLong` | crates/caml-ffmpeg/src/h264.rs:204-216 | zero bytes at the end of a unit do not move the 4-byte code that follows it |
| `StartCode.SplitOfAnnexB` | crates/caml-ffmpeg/src/h264.rs:204-216 | splitting gives back code-free units exactly, in order, trailing zeros included |
| `Avcc.ConvertAvcc` | crates/caml-ffmpeg/src/h264.rs:131-174 | the cursor loop computes the units of the payload behind start codes, or the first error |
| `Avcc.UnitsOfEncode` | crates/caml-ffmpeg/src/h264.rs:141-165 | reading the encoding of units gives the units |
| `Avcc.UnitsAreTheEncoding` | crates/caml-ffmpeg/src/h264.rs:141-165 | a payload that is read completely is the encoding of the units read |
| `Avcc.AvccRoundTrip` | crates/caml-ffmpeg/src/h264.rs:131-174 | for lengths of 1 to 4 bytes converting encoded units fails exactly when there are units but all are empty; otherwise splitting gives back the non-empty units if and only if none contains a start code |
| `Avcc.AcceptsExactlyEncodings` | crates/caml-ffmpeg/src/h264.rs:131-174 | conversion accepts exactly the encodings of no unit or of some non-empty one |
| `AvccErrors.ErrorsExactly` | crates/caml-ffmpeg/src/h264.rs:131-174 | each error of a conversion comes exactly from what is left behind the units that can be read: too little for a length, a unit cut short, or nothing though all units are empty |
| `CodedStream.SplitExactly` | crates/caml-ffmpeg/src/h264.rs:180-216 | splitting a stream gives certain units if and only if the stream spells them: each behind a 3- or 4-byte code, none with a code inside, no 3-byte code after a zero byte |
| `Framing.MistakenForAnnexB` | crates/caml-ffmpeg/src/h264.rs:106-107 | for every length size from 1 to 4 a payload passes for Annex B exactly when its first lengths read as a start code; with 4 bytes a first length of 1 or 256 to 511 |
| `Framing.NormalizeRoundTrip` | crates/caml-ffmpeg/src/h264.rs:101-174 | normalising encoded units fails exactly when there are units but all are empty; otherwise splitting gives back the non-empty ones exactly when none contains a start code or, for a payload taken for Annex B, when its bytes spell them |
| `Framing.RoundTripAt4` | crates/caml-ffmpeg/src/h264.rs:101-174 | with 4-byte lengths a payload taken for Annex B still gives its units exactly when each is a single byte |
| `Framing.RoundTripWithoutEmpty` | crates/caml-ffmpeg/src/h264.rs:101-174 | with shorter lengths and no empty unit the only payloads taken for Annex B have 3-byte lengths and a first unit of one byte; they give their units exactly when all are single bytes and none but the last is zero |
| `Framing.KeyframeUnits` | crates/caml-ffmpeg/src/h264.rs:101-129 | a normalised keyframe splits into its parameter sets, when one is missing, and its own units |
| `Keyframe.AnnexBParameterSets` | crates/caml-ffmpeg/src/h264.rs:180-202 | the scanning loop reports exactly whether some unit is an SPS and some unit a PPS |
| `Keyframe.NalsOfJoin` | crates/caml-ffmpeg/src/h264.rs:180-216 | joined to a stream that begins with a start code, any bytes have the unit types of both, start codes across the join included |
| `Keyframe.NormalizePayload` | crates/caml-ffmpeg/src/h264.rs:101-129 | the method computes the normal form: converted unless it looks like Annex B, parameter sets in front of a keyframe that lacks one |
| `Keyframe.NormalizedShape` | crates/caml-ffmpeg/src/h264.rs:101-129 | with a configuration of any stream the result is empty or begins with a start code |
| `Keyframe.KeyframesCarryParameterSets` | crates/caml-ffmpeg/src/h264.rs:119-128 | with a configuration holding both, every normalised keyframe has an SPS and a PPS and ends with the plain result |
| `Keyframe.NormalizeIdempotent` | crates/caml-ffmpeg/src/h264.rs:101-129 | normalising twice equals normalising once exactly unless it is a keyframe, there are parameter sets to put in front, and an SPS or a PPS is neither among them nor in the payload, as it stands or converted |
| `Keyframe.IncompleteKeyframesGrow` | crates/caml-ffmpeg/src/h264.rs:119-126 | in that case every further normalisation adds all parameter sets again |
| `Keyframe.SpsAloneGrows` | crates/caml-ffmpeg/src/h264.rs:119-126 | such an input: a slice, and a configuration that holds an SPS only |
| `DecoderRecord.ConfigsAreFit` | crates/caml-ffmpeg/src/h264.rs:11-48 | whatever a stream's extra data, its configuration has a length size of 1 to 4 and either no parameter sets or some behind start codes |
| `DecoderRecord.AppendUnits` | crates/caml-ffmpeg/src/h264.rs:62-79 | the loop over one counted list appends each unit behind a start code, or stops at the first error |
| `DecoderRecord.ReadRecord` | crates/caml-ffmpeg/src/h264.rs:50-82 | the method computes length size and parameter sets of a record, or its error |
| `DecoderRecord.RecordRoundTrip` | crates/caml-ffmpeg/src/h264.rs:50-99 | parsing the record of any SPS and PPS lists gives its length size and all of them behind start codes, whatever follows |
| `DecoderRecord.CompleteExactly` | crates/caml-ffmpeg/src/h264.rs:180-202 | a stream of units has both parameter sets if and only if some unit is of type 7 and some of type 8 |
| `DecoderRecord.ConfigurationsRead` | crates/caml-ffmpeg/src/h264.rs:11-48 | a record gives a configuration of its own length size and all its sets, units behind start codes one of size 4 and those units |
| `DecoderRecord.NoConfigurationExactly` | crates/caml-ffmpeg/src/h264.rs:15-41 | no configuration comes exactly from no data or data that begins neither with a start code nor the byte 1; an error only from data that begins with that byte |
| `DecoderRecord.StartCodesMakeKeyframesComplete` | crates/caml-ffmpeg/src/h264.rs:32-129 | extra data that is an SPS and a PPS behind start codes makes every normalised keyframe carry both, once and for all |
| `Framing.WithoutConfiguration` | crates/caml-ffmpeg/src/h264.rs:101-117 | without a configuration a payload is read with lengths of four bytes and its units come back, and the keyframe flag changes nothing |
| `DecoderRecord.RecordMakesKeyframesComplete` | crates/caml-ffmpeg/src/h264.rs:50-129 | a record with an SPS and a PPS makes every keyframe normalised against it carry both |
| `TimeMath.TimeBaseNeverOverflows` | crates/caml-ffmpeg/src/device.rs:160-184 | no 128-bit product overflows: the conversion fails exactly for a missing or negative value, a time base that is not positive, or a result beyond 64 bits of nanoseconds |
| `TimeMath.PacketDurationExactly` | crates/caml-ffmpeg/src/device.rs:152-184 | a packet has a duration exactly for at least one tick, a positive time base and 64 bits of nanoseconds; zero ticks have none, where the conversion alone gives zero |
| `TimeMath.FrameIsOneTick` | crates/caml-ffmpeg/src/device.rs:186-201 | a frame of a rate lasts one tick of the inverse time base, with no duration below a nanosecond |
| `TimeMath.SamplesNeverSaturate` | crates/caml-webrtc/src/lib.rs:559-566 | the saturating product is exact for every duration |
| `TimeMath.DurationMonotone` | crates/caml-ffmpeg/src/device.rs:160-184 | a later packet time never gives a shorter duration, nor fails where a longer one succeeds |
| `TimeMath.SamplesMonotone` | crates/caml-webrtc/src/lib.rs:559-566 | a longer duration never gives fewer samples; there is always at least one and at most the 32-bit maximum |
| `TimeMath.DoubleFloor` | crates/caml-webrtc/src/lib.rs:559-566 | rounding through whole nanoseconds loses at most one from the exact quotient for every 10^9 of the clock rate or part of it |
| `TimeMath.TicksToSamples` | crates/caml-ffmpeg/src/device.rs:152-184 | a packet of t ticks at any time base and any clock rate becomes the exact number of samples rounded down, or less by what the clock rate can lose, within 1 and the 32-bit maximum |
| `TimeMath.MatchingClock` | crates/caml-ffmpeg/src/device.rs:160-184 | at time base 1/r and clock rate r the tick count comes back exactly when r divides t * 10^9 or t is 1; otherwise one is lost |
| `Capabilities.FoldProbes` | crates/caml-core/src/compiler.rs:162-174 | the fold loop computes the recursive fold up to the first failure |
| `Capabilities.FoldFinds` | crates/caml-core/src/compiler.rs:85-113 | what the fold finds is met exactly when some probe says so, and its model is the one some probe names |
| `Capabilities.FoldSucceedsExactly` | crates/caml-core/src/compiler.rs:85-174 | folding succeeds exactly when no probe fails and no two probes name different models |
| `Capabilities.PermutedProbes` | crates/caml-core/src/compiler.rs:162-174 | any permutation of the probes succeeds with the same result or fails too |
| `Capabilities.FoldOrderIrrelevant` | crates/caml-core/src/compiler.rs:162-174 | neither order nor repetition of probes matters |
| `Compiler.CapabilityRequirementsFor` | crates/caml-core/src/compiler.rs:878-916 | the vector built step by step is the list of requirements of input, outputs, codec path and overlay |
| `Compiler.CompileInternal` | crates/caml-core/src/compiler.rs:428-524 | the method computes the graph: host check, pipelines in order with the first error, plan |
| `Compiler.CompileAll` | crates/caml-core/src/compiler.rs:437-448 | the loop over pipelines with its set of seen ids collects each outcome or the first error |
| `Compiler.EstimatePools` | crates/caml-core/src/compiler.rs:458-471 | the loop plans each pipeline's pool and their saturating sum |
| `Compiler.EstimateBackends` | crates/caml-core/src/compiler.rs:480-502 | the loop computes the saturating sum of the backend estimates |
| `CompilerResults.AllCompileExactly` | crates/caml-core/src/compiler.rs:437-448 | the pipelines compile exactly when each does given those before it, and then in manifest order |
| `CompilerResults.ErrorOfTheFirst` | crates/caml-core/src/compiler.rs:437-448 | an error is that of the first pipeline at fault |
| `CompilerResults.LayersInOrder` | crates/caml-core/src/compiler.rs:759-815 | overlay layers compile one by one and keep their order |
| `CompilerResults.GraphKeepsPipelines` | crates/caml-core/src/compiler.rs:437-448 | a graph has the manifest's pipelines, each valid, each compiled by itself, with ids unlike those before |
| `CompilerResults.DistinctIds` | crates/caml-core/src/compiler.rs:439-443 | the ids of a graph are distinct |
| `CompilerResults.GraphStartsBoard` | crates/caml-core/src/runtime.rs:809-812 | a compiled graph is a start state of the status board |
| `CompilerResults.CompiledPolicyBounds` | crates/caml-core/src/compiler.rs:686-737 | under its compiled policy every pipeline keeps the restart bound, with back-offs from 250 milliseconds to a minute |
| `CompilerResults.PlanIsExact` | crates/caml-core/src/compiler.rs:458-508 | the saturating plan is the true sums cut at the largest 64-bit number; it is refused, or carries the warning, exactly by the true sums when the limit is below that number |
| `CompilerResults.LimitExceededExactly` | crates/caml-core/src/compiler.rs:428-478 | ResourceLimitExceeded is reported exactly when all else is in order, the limit is below the largest 64-bit number and the pools really ask for more |
| `CompilerResults.ProbedExactly` | crates/caml-core/src/compiler.rs:428-447 | a manifest compiles on a host exactly when it compiles unchecked and the host fits, and to the same graph |
| `CompilerResults.ListedRequirementsMet` | crates/caml-core/src/compiler.rs:629-633 | every requirement listed in a graph compiled with a probe is met |
| `CompilerResults.RequirementsExactly` | crates/caml-core/src/compiler.rs:878-936 | the list holds a requirement exactly when input, outputs, codec path or overlay need it |
| `CompilerResults.GuardrailsHold` | crates/caml-core/src/compiler.rs:527-636 | no graph for a Raspberry Pi 5 encodes in hardware; with a probe a hardware encoder or decoder is used only where one was found, and no graph for a Raspberry Pi 4 comes from a Pi 5 host or the other way round |
| `HostChecks.FoldedFields` | crates/caml-core/src/compiler.rs:85-174 | each single ability of the folded host, and its model, is there exactly when some probe reports it |
| `HostChecks.CompilesExactly` | crates/caml-core/src/compiler.rs:527-636 | a manifest compiles on a host exactly when it compiles unchecked, the host is not known to be the other Raspberry Pi, and it has what each pipeline's input, outputs, codec and overlay use, named field by field |
| `HostChecks.OwnModelCompiles` | crates/caml-core/src/compiler.rs:531-545 | a host that names no model or the target's own, and any host for a generic target, compiles whatever it can run to the unchecked graph |
| `HostChecks.OtherModelNever` | crates/caml-core/src/compiler.rs:531-545 | on a host known to be the other Raspberry Pi nothing compiles |
| `HostChecks.ErrorOfPipelineExactly` | crates/caml-core/src/compiler.rs:437-448 | each error of a pipeline comes exactly from its own cause, a used id, parts against the strategy, a hardware encoder on a Raspberry Pi 5, a lacking host or a template, in this order |
| `HostChecks.HardwareEncoderNames` | crates/caml-core/src/compiler.rs:586-615 | exactly the two encoder names, in any case and padding, ask for hardware |
| `CompiledNumbers.MemoryOfPipeline` | crates/caml-core/src/compiler.rs:643-670 | a compiled pipeline's pool, its buffers outside it and its watchdog, in bytes and seconds of the manifest |
| `CompiledNumbers.LimitOfGraph` | crates/caml-core/src/compiler.rs:449-478 | the limit of a graph is that for contiguous memory, else that for media, else zero, and its pools keep within it |
| `CompiledNumbers.GivesUpAfterItsSleeps` | crates/caml-core/src/compiler.rs:686-737 | a pipeline that keeps failing, supervised under its compiled policy, sleeps for its class's doubling series of seconds, one after the other, and then fails for good |
| `CompiledNumbers.LongRunsRecover` | crates/caml-core/src/compiler.rs:702-727 | after a run as long as its class asks for, a pipeline always restarts |
| `CompiledNumbers.OverlayDrawsTheId` | crates/caml-core/src/compiler.rs:938-946 | in a compiled graph a layer of the camera's name draws its own pipeline's id, whatever variables the caller supplies |
| `CompilerResults.ShapeOfCompiled` | crates/caml-core/src/compiler.rs:553-588 | packets are passed through exactly without processing, and then with a network profile and no overlay |
| `CompilerResults.UnlistedExactly` | crates/caml-core/src/compiler.rs:601-633 | meeting the listed requirements is enough exactly except for hardware_decode with a hardware encoder on a Raspberry Pi 4 |
| `CompilerResults.MoreCapable` | crates/caml-core/src/compiler.rs:1003-1078 | a host of the same model that can do more compiles the same graphs |
| `CompilerResults.ProbeOrderIrrelevant` | crates/caml-core/src/compiler.rs:419-426 | reordering or repeating probes does not change whether a manifest compiles or to what |
| `CompilerResults.EntryPointsAgree` | crates/caml-core/src/compiler.rs:371-426 | what compiles with a probe compiles unchecked to the same graph, and without a probe exactly for a generic target |
| `MemoryPlan.WithinPlanExactly` | crates/caml-core/src/runtime.rs:1019-1033 | the memory reported after a run is within the plan exactly when no more buffers were in use at once than planned; a plan for buffers of size zero is exceeded by any buffer |
| `Text.TrimIgnoresPadding` | crates/caml-core/src/compiler.rs:975 | white space around a name makes no difference |
| `Template.ExpandOverlayTemplate` | crates/caml-core/src/compiler.rs:948-994 | the character loop computes the recursive expansion, errors included |
| `Template.ReadKey` | crates/caml-core/src/compiler.rs:957-966 | the inner loop reads exactly up to the next closing brace and passes over it, or reads to the end without one |
| `Template.ExpandConcatenation` | crates/caml-core/src/compiler.rs:948-994 | when a expands, a followed by b expands to that followed by the expansion of b, failing as b fails; when a fails, so does the whole, unless a's last placeholder is only unterminated |
| `Template.ExpandsExactly` | crates/caml-core/src/compiler.rs:948-994 | a template expands exactly when it is made of plain characters and placeholders of known variables, to those characters and the values as they are: values are never expanded again |
| `TemplateErrors.FailsExactly` | crates/caml-core/src/compiler.rs:948-994 | a template fails with an error exactly when some front part of it expands and the rest begins with its cause: a closing brace, a placeholder never closed, or one of that unknown name |
| `Template.NamesStandForTheId` | crates/caml-core/src/compiler.rs:938-946 | camera_id and pipeline_id, however padded, expand to the pipeline id whatever the caller supplies |
| `Template.BlanksAreIgnored` | crates/caml-core/src/compiler.rs:975 | spaces, tabs and line ends around the two names make no difference |
| `Text.TrimsBlanks` | crates/caml-core/src/compiler.rs:975 | among ASCII characters just the space and those from tab to carriage return are trimmed |
| `Template.CallersNamesIgnored` | crates/caml-core/src/compiler.rs:938-946 | the caller's own values for these two names never matter to any template |
| `Escape.FilterValueIsEscaped` | crates/caml-ffmpeg/src/transcode.rs:549-554 | the three replacements one after the other put a backslash before each backslash, colon and quote, and nowhere else |
| `Escape.DrawtextTextIsEscaped` | crates/caml-ffmpeg/src/transcode.rs:556-558 | the same with the percent sign |
| `Escape.EscapedValuesReadBack` | crates/caml-ffmpeg/src/transcode.rs:549-558 | unescaping gives every value back, and none of its special characters stands bare |
| `Escape.FormatReadsBackInTwo` | crates/caml-ffmpeg/src/transcode.rs:560-565 | unescaping a timestamp format once leaves backslashes and colons guarded, and twice gives it back |
| `FilterGraph.BuildFilterSpec` | crates/caml-ffmpeg/src/transcode.rs:414-466 | the loop writes exactly the segments of rotation, layers and end, joined by semicolons |
| `FilterGraph.BuildLayers` | crates/caml-ffmpeg/src/transcode.rs:422-463 | the loop over layers keeps the current label and writes the segments of rotation and layers so far |
| `FilterWiring.NumberOfDecimal` | crates/caml-ffmpeg/src/transcode.rs:423-427 | a decimal label suffix reads back as its number |
| `FilterWiring.NamesDiffer` | crates/caml-ffmpeg/src/transcode.rs:423-464 | the names of two labels, whether stage, watermark, `in` or `out`, are equal exactly when the labels are |
| `FilterWiring.EachLabelOnce` | crates/caml-ffmpeg/src/transcode.rs:414-466 | every internal label is written once and read once, `in` is only read, once, `out` only written, once, and there are no others |
| `FilterWiring.EachNameOnce` | crates/caml-ffmpeg/src/transcode.rs:414-466 | as strings, every internal label's name is written once and read once, and no other label has the same name |
| `FilterWiring.OneChainFromInToOut` | crates/caml-ffmpeg/src/transcode.rs:414-466 | connecting the segments never clashes and ends with `out` alone: the rotated input under all layers in manifest order |
| `FilterText.ReadsBackExactly` | crates/caml-ffmpeg/src/transcode.rs:414-466 | the written text, read at semicolons and brackets, gives back labels and chains exactly when no chain holds a semicolon or an opening bracket |
| `FilterText.OverlayReadsBackExactly` | crates/caml-ffmpeg/src/transcode.rs:414-565 | for an overlay that is exactly when no path, format, text or colour in it holds one, since escaping leaves both as they are |
| `FilterText.FromInToOut` | crates/caml-ffmpeg/src/transcode.rs:414-466 | every description begins with the pad `[in]` and ends with the pad `[out]` |
| `FilterReader.OneFilter` | crates/caml-ffmpeg/src/transcode.rs:487-501 | a text is read as a single filter if and only if no comma in it is bare |
| `FilterReader.NextOption` | crates/caml-ffmpeg/src/transcode.rs:497-500 | an option written behind a filter is read behind its options and disturbs none of them |
| `FilterValues.AlphaRead` | crates/caml-ffmpeg/src/transcode.rs:567-570 | a percentage is written as a fraction that reads back as so many hundredths |
| `FilterValues.TextInCorner` | crates/caml-ffmpeg/src/transcode.rs:525-534 | for all sizes of frame and text, evaluating the written expressions puts the text into its corner with the margin to both sides |
| `FilterMeaning.TextReadsBack` | crates/caml-ffmpeg/src/transcode.rs:479-501 | a text layer's chain reads back as one drawing filter with its font, text, corner, margin, size, colours, opacity and padding if and only if its colours have no comma |
| `FilterMeaning.TimestampReadsBack` | crates/caml-ffmpeg/src/transcode.rs:468-501 | the same of a timestamp layer, whose text is a call of its timezone's clock with its format if and only if the format has neither quote nor closing brace |
| `Expansion.ClockReadsBack` | crates/caml-ffmpeg/src/transcode.rs:468-477 | the time expansion gives back its clock and its format, with nothing left over, exactly then |
| `WatermarkMeaning.ImageReadsBack` | crates/caml-ffmpeg/src/transcode.rs:503-523 | the image's chain reads back as its file, its width when limited, and its opacity when below 100, whatever the path holds |
| `WatermarkMeaning.PlaceReadsBack` | crates/caml-ffmpeg/src/transcode.rs:536-543 | the overlaying chain reads back as one filter that, for all sizes of video and image, puts the image into its corner with its margin |
| `OverlayMeaning.TextDrawnAsAsked` | crates/caml-core/src/compiler.rs:759-838 | from manifest to filter text a text layer is drawn as asked, in white of size 18 on black of 60 percent, padded by 6 and 12 off the corner where nothing is asked |
| `OverlayMeaning.TimestampDrawnAsAsked` | crates/caml-core/src/compiler.rs:780-802 | the same of a timestamp, with the format the manifest gives or the default of its timezone |
| `OverlayMeaning.WatermarkDrawnAsAsked` | crates/caml-core/src/compiler.rs:803-813 | the same of a watermark, opaque and 12 off the corner where nothing is asked |
| `Turns.AcceptsQuarterTurns` | crates/caml-ffmpeg/src/transcode.rs:655-666 | an angle is accepted if and only if it is a whole number of quarter turns and less than a whole turn either way |
| `Turns.TurnsByTheAngle` | crates/caml-ffmpeg/src/transcode.rs:644-673 | reading the filters written for an accepted angle, every pixel goes where that many clockwise quarter turns about the middle take it, in a picture of the rotated dimensions |
| `Turns.ClockUndone` | crates/caml-ffmpeg/src/transcode.rs:644-653 | the filters of a turn against the clock undo those of one along it, and the other way round |
| `Turns.FourTurnsUndone` | crates/caml-ffmpeg/src/transcode.rs:644-653 | the filters of two clockwise turns do what those of a half turn do, and four move no pixel |
| `Turns.PassMovesNothing` | crates/caml-ffmpeg/src/transcode.rs:464 | the filter behind the last layer moves no pixel |

## Left out

- FFmpeg, libcamera, V4L2 and sysfs calls: foreign calls without visible semantics; they appear as outcomes, and extra data as the bytes it holds.
- YAML, serde and URL parsing, `units.rs`, `frontend.rs` validation and builders: the model starts from a parsed manifest.
- The `rtp` packetizer, `TrackLocalStaticRTP` and `stable_ssrc`: writing a packet is a step that succeeds or fails.
- Raw pointers, `ManuallyDrop` and memory orderings: pool operations hold the pool lock, so each is one step on the bytes themselves.
- The broadcast channel's 256 entries and receiver lag: the model keeps the whole event log.
- Task panics and aborts, dropped futures and poisoned locks: stage calls return, a run of the model ends when sink or router is dropped, and a `shutdown` call once begun is not cancelled.
- Metrics and error message texts: errors keep their variant, and a template error its cause.
- Counters of 2^64 handles or slots: no count is taken that far; `usize` is 64 bits.
- The capture profile, the manifest version and most fields of output profiles: they add only easy members.
- FFmpeg's own quoting rules: the readers take a backslash as a guard inside quotes too, an option is unquoted once, and reading segments back knows no quotes; what a filter does is modelled for the rotations only.
- The router's `consume`: modelled as one move per point where it can wait, not as a method, because actors run between them; likewise `enqueue_packet`, `close_and_flush` and `run_sender_loop`, whose sections under the lock are methods.
- The mock script's Sleep action: one within the watchdog timeout only passes time, and a run's length is a parameter; a longer one is cut by the timeout and is then a recoverable failure, like Stall.
- The path of the drawtext font file is a parameter.
- The alpha percentage is written from whole hundredths; the source divides in 32-bit floating point and rounds to the same two decimals.
- The rounding of the back-off, which the source computes in 32-bit floating point, and its panic when the product is no duration: it is a real number here.
- NoLostWakeUp: a wait takes a stored permit before it looks at the epoch, as tokio's Notify does; nothing is stated about fairness.
- StopsAtEndOfStream: runs shorter than reset_after only, as the property is about one series of restarts; longer runs are covered by RestartBound.
