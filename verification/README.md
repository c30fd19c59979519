# A verified model of the C64 Stream core

C64 Stream is an OBS source plugin: it receives UDP video and audio packets from a
C64 Ultimate, reorders and delays them, conceals lost audio, and switches from one
device to another without a gap on screen. This project models the parts of it that
are not I/O and proves what they promise. `dafny verify dfyconfig.toml` checks it all.

| file | models |
|---|---|
| `Words.dfy` | C integers: 16- and 64-bit wrap-around, truncating division; optional values; counting |
| `RingIndex.dfy` | index arithmetic of the circular buffers |
| `ReorderRing.dfy`, `RingRuns.dfy`, `NetworkBuffer.dfy` | the reorder and delay ring, its runs, and the pair of rings |
| `RetryWorker.dfy` | schedulers, the background retry worker and the destroy latch, access by access |
| `StopQueues.dfy`, `DeviceSwitch.dfy` | the queue of devices to stop, its drain loop, and the make-before-break switch |
| `PacketFifo.dfy`, `Handover.dfy` | the receive FIFO and the cut-over from the old device's packets to the new one's |
| `AudioTimeline.dfy`, `Concealment.dfy`, `AudioOutput.dfy` | sequence numbers to timestamps, the fill of a gap, delivery to OBS and to the WAV |
| `Md5.dfy` | the streaming MD5 |
| `DirectoryScan.dfy` | the cycle-safe playlist scan |
| `DeviceRegistry.dfy` | discovery workers, resolution of their results, the device registry |
| `RecordWriter.dfy` | the bounded recording queue |

Code that updates state in place is a class whose methods are proved against functions
on values (`Pushed`, `Redelayed`, `Pass`, `Advance`, `Discovered`, ...); the theorems
are about those functions. Code whose point is the interleaving of threads is a step
system, one action per access to shared state, with theorems over every run. Clocks,
network answers, file outcomes and what another thread writes in between are
parameters of the methods and of the actions.

Slots of the ring own payload buffers through pointers; here a slot names a row of the
payload store. The two branches of `rb_push` for an invalid slot inside the queue and
for a shift beyond the limit are kept as `assert false`: they are proved unreachable.

## Where a promise has a condition

- **Order in the ring.** The search never compares the oldest slot, so a packet older
  than every other is put at the newest end. `RingRuns.PushKeepsSortedIff` states exactly
  when a push keeps the order, `RingRuns.RunsStayOrderedIff` exactly which runs stay in
  order, and `RingRuns.LateFrontPacketWitness` breaks it. The keys queued at one time must
  share half of the 16-bit circle; which half may move with the stream, so runs wrap
  around any number of times.
- **Wake-ups of the retry worker.** A scheduler tests the flags in one step and sets
  `retry_requested` in the next (`src/c64-source.c:696-699`). `RetryWorker.FlagIsNoticedIff`
  is the exact condition, over every run, for the flag to be noticed: the slot is held, the
  worker has not returned, or another scheduler is about to reserve the slot. A flag set in
  time is served (`RetryWorker.FlagInTimeIsServed`); after one set too late no task run
  starts until another request is made (`RetryWorker.LateFlagIsLost`), and
  `RetryWorker.SplitTestLosesWakeUp` is such a run. Were the two steps one, no accepted
  request would be lost (`RetryWorker.DueRequestIsServed`). That at most one worker runs and
  none after destroy holds either way.
- **Stranded devices.** The comment at `src/c64-source.c:2130` says that without a start
  in flight there is nothing to stop. That fails when a device was told to stream and the
  source stopped streaming without a confirmed stop. `DeviceSwitch.StepStrandsIff` gives
  the exact condition under which a change of device strands one,
  `DeviceSwitch.StepStaysGoodIff` the exact two steps that can bring it about, and the
  two witnesses complete runs that do.
- **Purity of a handover.** `Handover.CloseIsPureIff` is the exact condition at the step
  that closes the handover for every continuation to hold only packets of the selected
  device once no flush is pending: no untagged packet of another device is queued or on
  its way into a FIFO, and the flush has not been used up while something foreign was held.
  `Handover.ExpiryIsPureIff` is the same for the retry worker ending the handover, which
  publishes no flush. `Handover.QueuedPacketSpoilsFlush` and `Handover.ExpiryMixesStreams`
  are runs that miss it, and `Handover.PureAfterFlush` shows that dequeuing the old untagged
  packets at any time before the close is enough.
- **One flush.** The two receive threads publish and close in separate writes.
  `Handover.CloseFlushesOnceIff` is the exact condition at the close for every continuation
  to signal exactly one flush, with the first untagged packet dequeued: the flush has not
  been used up by then, and the other thread has not found the handover open as well. It
  never comes more than twice (`Handover.FlushedAtMostTwice`); `Handover.FlushComesTwice`
  is a run in which it does.
- **Timeline.** Sixteen bits identify a packet only near the newest one;
  `AudioTimeline.ResyncExactlyOutsideWindow` says how near.
- `src/network/c64-network-buffer.h:56` says that a change of the delay flushes the
  buffer and `src/network/c64-network-buffer.h:65` that a pop returns an aligned pair. The
  code trims and retimestamps, and pops the streams independently; the model follows it.

## Model

| member | source | states |
|---|---|---|
| ReorderRing.Ring.constructor | src/network/c64-network-buffer.c:429-477 | a new ring is valid, empty, without delay |
| ReorderRing.Ring.Push | src/network/c64-network-buffer.c:129-336 | the queue becomes a[..k] + [new] + a[k..] for the searched k, a full ring or short packet changes nothing, no other packet's payload or key changes, and the consumer's scratch is not touched |
| ReorderRing.Ring.FindInsertPos | src/network/c64-network-buffer.c:205-265 | the backward search returns the physical index of the position proved to be the newest candidate |
| ReorderRing.Ring.OpenHole | src/network/c64-network-buffer.c:268-299 | the swap-shift moves positions k..n-1 one step towards the head and the head slot into the hole; the shift limit cannot be exceeded |
| ReorderRing.Ring.Pop | src/network/c64-network-buffer.c:340-384 | hands out a copy of the oldest packet exactly when it is old enough, and removes only it |
| ReorderRing.Ring.Trim | src/network/c64-network-buffer.c:577-612 | keeps exactly the newest packets of the new capacity, in order |
| ReorderRing.Ring.Retimestamp | src/network/c64-network-buffer.c:614-650 | every queued packet gets the given timestamp, nothing else changes |
| ReorderRing.Ring.Reset | src/network/c64-network-buffer.c:390-413 | empties the ring and sets the active slots within the capacity |
| ReorderRing.Ring.SetDelay | src/network/c64-network-buffer.c:529-656 | clamps the delay; a reduction flushes and sets the active slots, or trims and retimestamps and leaves them; an increase changes no packet |
| ReorderRing.SearchFindsPosition | src/network/c64-network-buffer.c:214-265 | the search finds the newest position behind a packet that is not newer, never the one behind the oldest packet and never beyond the search depth, else the newest end |
| ReorderRing.FilledView | src/network/c64-network-buffer.c:268-319 | filling the hole inserts one packet in the middle and leaves all other packets, payload bytes included, as they were |
| ReorderRing.FilledLayout | src/network/c64-network-buffer.c:268-319 | slots stay valid exactly in [tail, head) and payload rows stay distinct |
| ReorderRing.DropOldest | src/network/c64-network-buffer.c:359-381 | releasing the tail slot removes exactly the oldest packet |
| ReorderRing.RowsArePermutation | src/network/c64-network-buffer.c:437-446 | the per-slot data pointers are always a permutation of the payload buffers |
| ReorderRing.RetimedIsReady | src/network/c64-network-buffer.c:618-634 | a packet with the timestamp of a delay reduction passes the age test at every later time, under 64-bit wrap-around |
| RingRuns.ComparisonIsRankOrder | src/network/c64-network-buffer.c:235-256 | inside half of the 16-bit circle the wrap-around comparison is the order of the true distances |
| RingRuns.PushKeepsSortedIff | src/network/c64-network-buffer.c:214-265 | a push keeps a sorted ring sorted if and only if the ring is empty, the packet is not older than the newest, or a compared packet is not newer |
| RingRuns.PushKeepsOrderedIff | src/network/c64-network-buffer.c:214-265 | the same condition in terms of the comparison itself, with no reference point |
| RingRuns.NewerBehind | src/network/c64-network-buffer.c:233-262 | everything behind an inserted packet is strictly newer, so equal keys stay in arrival order |
| RingRuns.OldestArrivalIsAppended | src/network/c64-network-buffer.c:222-226 | a packet older than all compared ones goes to the newest end |
| RingRuns.LateFrontPacketWitness | src/network/c64-network-buffer.c:222-226 | a sorted ring and a late packet after which it is not sorted |
| RingRuns.StepIsRingStep | src/network/c64-network-buffer.c:129-413 | the steps of the runs are the ones the ring's methods are proved to take |
| RingRuns.RunsConserve | src/network/c64-network-buffer.c:129-413 | over every run of critical sections each accepted packet is popped, trimmed, flushed or queued, exactly once, with its payload and keys unchanged |
| RingRuns.RunsStayOrderedIff | src/network/c64-network-buffer.c:214-265 | over every run, through any number of wrap-arounds, the ring is in order at all times if and only if every accepted packet met that condition |
| RingRuns.ReductionKeepsNewest | src/network/c64-network-buffer.c:577-614 | in every run, whatever is pushed and popped between the two critical sections of a delay reduction, exactly the newest packets of the new capacity have been popped since or are still queued, in order |
| RingRuns.ReductionMakesReady | src/network/c64-network-buffer.c:614-650 | the second critical section removes nothing, and then every queued packet, also one pushed in between, passes the age test at every later time |
| NetworkBuffer.Buffer.Pop | src/network/c64-network-buffer.c:798-863 | each stream is popped by its own readiness only; the reported timestamp is the smaller of those popped |
| NetworkBuffer.Buffer.SetDelay | src/network/c64-network-buffer.c:529-749 | sets both delays, clamped, and changes each ring and its active slots by its own old delay and new slots |
| NetworkBuffer.Buffer.Flush | src/network/c64-network-buffer.c:865-880 | empties both rings and keeps their active slot counts |
| NetworkBuffer.Buffer.PushVideo | src/network/c64-network-buffer.c:751-767 | pushes into the video ring in microseconds and leaves the audio ring alone |
| NetworkBuffer.Buffer.PushAudio | src/network/c64-network-buffer.c:769-779 | pushes into the audio ring in microseconds and leaves the video ring alone |
| RetryWorker.OwnerStep | src/c64-source.c:691-747 | the mutex is held by the thread whose program counter says so, across every step |
| RetryWorker.ThreadStep | src/c64-source.c:713-744 | no thread is about to be created once the latch is set, and an unjoined worker stays joinable |
| RetryWorker.SlotStep | src/c64-source.c:623-747 | until the latch the slot has one holder and both flags say what it is doing |
| RetryWorker.DueStep | src/c64-source.c:667-700 | a due request that a thread is committed to run the task for, or is giving up, stays so under every step, the split test included |
| RetryWorker.RunsAreSafe | src/c64-source.c:623-747 | every run keeps the three invariants above |
| RetryWorker.OneWorkerPastTheGate | src/c64-source.c:681-711 | in every run, until the latch, at most one thread is past the gate, in-progress implies active, and neither in-progress swap can fail |
| RetryWorker.NoWorkerAfterDestroy | src/c64-source.c:1685-1700 | in every run, after destroy's critical section there is no worker and none is ever created, unless the join failed |
| RetryWorker.HelperCanMove | src/c64-source.c:623-747 | while a request is due some identified thread can take a step, unless destroy is about to latch |
| RetryWorker.StepTowardsRun | src/c64-source.c:623-747 | that thread's steps bring the task run closer and no other thread's step moves it away |
| RetryWorker.CommittedRequestIsServed | src/c64-source.c:623-747 | in every run a request a thread is committed to gets its task run within fourteen steps of the helper, unless a join or create fails or destroy latches |
| RetryWorker.DueRequestIsServed | src/c64-source.c:696-700 | with the test and the flag as one step every accepted request is served so |
| RetryWorker.FlagIsNoticedIff | src/c64-source.c:696-702 | in every run a flag set after the test is noticed if and only if the slot is held, the worker has not returned, or a scheduler is about to reserve the slot |
| RetryWorker.FlagInTimeIsServed | src/c64-source.c:667-676 | a flag set in time is served like an atomic one |
| RetryWorker.LateFlagIsLost | src/c64-source.c:667-676 | after a flag set too late the request stays due and no task run starts until another request is made |
| RetryWorker.SplitTestLosesWakeUp | src/c64-source.c:696-702 | with the test and the flag as two steps a run exists that loses the wake-up |
| StopQueues.StopQueue.Add | src/device/c64-device-switch.c:6-39 | refreshes, appends, or drops the oldest of four and reports it; refuses an empty or receive-only host |
| StopQueues.StopQueue.Cancel | src/device/c64-device-switch.c:41-53 | removes the entry of host and port, and says whether there was one |
| StopQueues.StopQueue.RemoveAt | src/device/c64-device-switch.c:55-63 | the memmove removes exactly the entry at the index |
| StopQueues.StopQueue.RecordFailure | src/device/c64-device-switch.c:65-71 | counts one failure of one entry and says when the attempts are used up |
| StopQueues.StopQueue.ProcessStops | src/c64-source.c:2862-2953 | the drain loop terminates and does what the pass specifies; the handover ends only when the queue is empty |
| StopQueues.AddKeepsSound | src/device/c64-device-switch.c:6-39 | never two entries for one device, none without one, never more than four; exactly the added device joins and the dropped one leaves |
| StopQueues.RemoveKeepsSound | src/device/c64-device-switch.c:55-63 | removal takes out exactly that device |
| StopQueues.CancelKeepsSound | src/device/c64-device-switch.c:41-53 | after a cancel exactly that device is no longer queued |
| StopQueues.FailKeepsSound | src/device/c64-device-switch.c:65-71 | an entry leaves by failure only with its fifth failure |
| StopQueues.PassKeepsSound | src/c64-source.c:2872-2948 | the queue stays sound whatever the devices answer |
| StopQueues.FinishedPassClearsSelected | src/c64-source.c:2878-2887 | with a stable selection a finished pass leaves no stop queued for the selected device |
| StopQueues.FinishedPassCountsFailure | src/c64-source.c:2893-2947 | every entry that survives a finished pass has failed once more |
| StopQueues.PassesExhaustAttempts | src/c64-source.c:2803-2805 | five finished passes without a new entry empty the queue |
| DeviceSwitch.StepKeepsSane | src/c64-source.c:2812-2838 | the device being started is the selected one or the next transition, and the queue stays sound |
| DeviceSwitch.StepStrandsIff | src/c64-source.c:2130-2160 | a step strands a device if and only if it is a change of device away from one that is owed a stop and would not be recorded |
| DeviceSwitch.StepStaysGoodIff | src/c64-source.c:2862-2887 | from a good state a step stays good exactly when it is not one of the two risky ones |
| DeviceSwitch.RunsStrandNobody | src/c64-source.c:2449-2464 | over every run without a risky step each device told to stream is selected, pending, queued, or has confirmed a stop, been given up on or overflowed |
| DeviceSwitch.RiskIsReal | src/c64-source.c:2137-2160 | a risky step followed by one change of device strands a device |
| DeviceSwitch.SelectedIsLastStarted | src/c64-source.c:2834-2838 | over every run, once a start has succeeded and no transition waits, the last command the selected device can have got is a start and no step sends it a stop, whatever is queued |
| DeviceSwitch.StepKeepsCommandInv | src/c64-source.c:2878-2930 | a stop under way was compared with the selection, and a selection changed since then is recorded as a transition |
| DeviceSwitch.FailedStartStrands | src/c64-source.c:2709-2726 | a failed start with an unconfirmed stop, then a switch: a complete run that strands a device |
| DeviceSwitch.DiscardedEntryStrands | src/c64-source.c:2883-2887 | a stop discarded for a device that is selected but not restarted: a complete run that strands it |
| PacketFifo.Fifo.PushTagged | src/network/c64-network-fifo.h:55-84 | appends unless the packet is too large or the queue holds capacity - 1, and counts each rejection for fullness |
| PacketFifo.Fifo.Peek | src/network/c64-network-fifo.h:92-106 | finds the oldest packet if there is one |
| PacketFifo.Fifo.CommitPop | src/network/c64-network-fifo.h:108-117 | removes exactly the packet peeked at |
| PacketFifo.Fifo.Reset | src/network/c64-network-fifo.h:44-53 | empties the queue and the counter |
| PacketFifo.StepRefinesQueue | src/network/c64-network-fifo.h:55-117 | each access of either thread is a step of a bounded queue, and a push is rejected exactly when it is full |
| PacketFifo.RunsAreFifo | src/network/c64-network-fifo.h:55-117 | under every interleaving packets come out in push order with their tags, none lost or duplicated, every full rejection counted, and no access misses the array |
| PacketFifo.PeekedEntryIsStable | src/network/c64-network-fifo.h:73-83 | the producer never writes the entry the consumer looks at before its commit |
| Handover.Filter.PacketAdmit | src/network/c64-ingest-filter.h:69-86 | admits expected and handover senders, closes the handover with the flush published, and notes rejected senders |
| Handover.Filter.ShouldDrop | src/network/c64-ingest-filter.h:106-117 | drops tagged packets of a closed handover and uses up the flush with an untagged one |
| Handover.StepsAreAdmit | src/network/c64-ingest-filter.h:69-86 | test, publication and close without interference are one call of the admission |
| Handover.NoTaggedPacketPasses | src/network/c64-ingest-filter.h:106-111 | once the handover is closed, whoever closed it, no packet tagged as the previous device's is passed on until the next switch |
| Handover.FlushedAtMostTwice | src/network/c64-ingest-filter.h:74-78 | however the two receive threads interleave, the flush comes at most twice after the close, and one still pending then comes with the first untagged packet dequeued |
| Handover.FlushesOnceIff | src/network/c64-ingest-filter.h:112-116 | in any state with the handover closed, every continuation signals exactly one flush, with the first untagged packet, if and only if a flush is pending and no thread is about to publish another |
| Handover.CloseFlushesOnceIff | src/network/c64-ingest-filter.h:69-86 | the exact condition for one flush at the close |
| Handover.PureIffSettled | src/network/c64-ingest-filter.h:69-117 | in any state with the handover closed, every continuation is pure whenever no flush is pending if and only if the state is settled |
| Handover.CloseIsPureIff | src/network/c64-ingest-filter.h:69-86 | the exact condition at the close |
| Handover.ExpiryIsPureIff | src/c64-source.c:2949-2952 | the exact condition when the retry worker ends the handover |
| Handover.PureAfterFlush | src/c64-source.c:2198-2209 | in every run in which only tagged packets are queued at some time before the close, and the selected host keeps an address from then to the close, everything held after it is the selected device's whenever no flush is pending |
| Handover.PureAfterSwitch | src/c64-source.c:2198-2209 | in particular in every run from a switch with nothing untagged queued |
| Handover.QueuedPacketSpoilsFlush | src/video/c64-video.c:1637-1675 | a packet queued before the switch uses the flush up: a run that mixes the streams |
| Handover.ExpiryMixesStreams | src/c64-source.c:2949-2952 | a handover ended by the worker has no flush: a run that mixes the streams |
| Handover.FlushComesTwice | src/network/c64-ingest-filter.h:74-78 | a run in which both receive threads publish and the second flush discards a packet of the new device |
| AudioTimeline.Timeline.AdvanceTo | src/audio/c64-audio-timeline.c:20-87 | the fields move as the specified clock, in all four outcomes |
| AudioTimeline.AdvanceTracks | src/audio/c64-audio-timeline.c:38-68 | one packet moves the 16-bit clock as the unbounded one |
| AudioTimeline.ClockTracksNewest | src/audio/c64-audio-timeline.c:20-87 | across any number of wrap-arounds the index is the newest true number counted from the first, and the counters balance |
| AudioTimeline.VerdictIsTrueOrder | src/audio/c64-audio-timeline.c:38-68 | a packet is played exactly when its true number exceeds all before, at that index, after concealing exactly the numbers skipped |
| AudioTimeline.ResyncExactlyOutsideWindow | src/audio/c64-audio-timeline.c:70-86 | the clock re-anchors exactly outside the window of -250 to +1251 |
| AudioTimeline.IndexGrows | src/audio/c64-audio-timeline.c:59-86 | a packet that is not dropped has a larger index than any before it |
| Concealment.HeldStep | src/audio/c64-audio-timeline.c:91-97 | the fade moves by at most 8 counts a sample |
| Concealment.FillStartsAndEndsExactly | src/audio/c64-audio-timeline.c:99-121 | the fill starts at the last real sample and ends at the next, for all endpoints and lengths |
| Concealment.FillStaysInRange | src/audio/c64-audio-timeline.c:113-127 | no sample leaves the int16 range, so the casts lose nothing |
| Concealment.FillHasNoClick | src/audio/c64-audio-timeline.h:50-57 | every step between samples is below 600 counts |
| Concealment.PacketsFormOneSignal | src/audio/c64-audio-timeline.c:107-128 | the n packets decode to one signal of n * 192 frames |
| Concealment.FillPacket | src/audio/c64-audio-timeline.c:99-129 | packet k holds frames k * 192 onwards in little-endian bytes; an index out of range gives silence |
| AudioOutput.Processor.ConcealGap | src/audio/c64-audio.c:316-338 | at most 25 fill packets go to OBS at their own timestamps and the whole gap goes to the WAV, the same bytes |
| AudioOutput.Processor.PlayPacket | src/audio/c64-audio.c:367-486 | the fill and then the packet are submitted and recorded, and the next gap starts from its last frame |
| AudioOutput.Processor.Process | src/audio/c64-audio.c:341-486 | short and late packets are neither submitted nor recorded; any other is, byte for byte, after its fill |
| AudioOutput.DeliverKeepsInv | src/audio/c64-audio.c:316-396 | indices keep increasing and the recorder gets as many packets as the index advances |
| AudioOutput.RunsDeliverInOrder | src/audio/c64-audio.c:341-486 | over every run submitted indices strictly increase, resyncs included, and between resyncs recorded packets equal the index advance |
| AudioOutput.TimestampsStrictlyIncrease | src/audio/c64-audio.c:236-239 | with a fixed start and interval all timestamps given to OBS strictly increase |
| AudioOutput.RecordingMatchesTimeline | src/audio/c64-audio-timeline.h:42-44 | without a resync the recording has packet index + 1 packets |
| Md5.Context.constructor | src/automation/c64-automation-hvsc.c:160-167 | a new context has hashed nothing |
| Md5.Context.Update | src/automation/c64-automation-hvsc.c:169-186 | after any input the state is the fold over the whole blocks and the buffer holds the remainder |
| Md5.Context.CompleteBlock | src/automation/c64-automation-hvsc.c:176-183 | completing the buffered block and the block loop fold every whole block of the input |
| Md5.Context.Final | src/automation/c64-automation-hvsc.c:188-208 | the digest is that of the padded whole message, whatever the updates were |
| Md5.PadBuilt | src/automation/c64-automation-hvsc.c:190-200 | the padding of final is that of RFC 1321 sections 3.1 and 3.2, also when the bit count wraps |
| Md5.PadFillsBlocks | src/automation/c64-automation-hvsc.c:197-200 | padding fills whole blocks and adds at most one |
| Md5.CountGivesIndex | src/automation/c64-automation-hvsc.c:171-172 | the buffer index taken from the wrapping bit count is the length modulo 64 |
| Md5.HashFile | src/automation/c64-automation-hvsc.c:221-233 | however the file is read in chunks, the digest is that of the whole file |
| DirectoryScan.ScanEntries | src/automation/c64-automation-playlist.c:546-619 | one directory adds exactly its subfolders and playable files unless a limit is hit |
| DirectoryScan.ScanLocal | src/automation/c64-automation-playlist.c:356-453 | terminates on any finite file system, visits no directory twice and only reachable ones; without a limit lists exactly their files and leaves no subfolder out; a limit needs that many files, or a way down through more different directories than the cap has levels, so on any other file system, of any number of directories, every reachable one is visited, cycles or not |
| DirectoryScan.FewDirectoriesAreNotDeep | src/automation/c64-automation-playlist.c:580-583 | with no more directories than levels no way is too deep |
| DirectoryScan.ClosedVisitsReachable | src/automation/c64-automation-playlist.c:425-453 | a scan without a limit has visited every directory there is a way to, cycles or not |
| DeviceRegistry.ScanStep | src/device/c64-device-scan.c:560-593 | no interleaving of the workers claims an index twice in a pass or adds a second result for it |
| DeviceRegistry.ScansClaimOnce | src/device/c64-device-scan.c:867-931 | the same over all phases and the retry pass |
| DeviceRegistry.DerivedIdIsCanonical | src/device/c64-device.c:59-76 | a host-derived id is a valid id or empty, and deriving it again changes nothing |
| DeviceRegistry.Registry.Upsert | src/device/c64-device.c:208-231 | replaces or appends one entry, or fails without a change |
| DeviceRegistry.Registry.Delete | src/device/c64-device.c:291-306 | removes one entry, or fails without a change |
| DeviceRegistry.Registry.UpsertDiscovered | src/device/c64-device.c:241-289 | merges a discovered device and absorbs the profile derived from its host |
| DeviceRegistry.DiscoveryMerges | src/device/c64-device.c:241-289 | ids stay distinct, the user's name and ports survive, and no entry changes but the device's and the absorbed one |
| DeviceRegistry.Registry.ApplyResults | src/device/c64-device-scan.c:661-711 | applies the result with the lowest index of each device, with every outcome of writing and removing profile files |
| DeviceRegistry.EarliestIsRegistered | src/device/c64-device-scan.c:646-660 | if the registry has room for the ids on file and found together, the address enumerated first is the one registered if its file can be written, whatever becomes of the other files |
| DeviceRegistry.CompletionOrderIrrelevant | src/device/c64-device-scan.c:642-660 | every completion order registers each device under the same address, the one with the lowest index |
| RecordWriter.InvStep | src/record/c64-record-writer.c:43-97 | the byte count is the sum of the queued sizes and at most 8 MiB, and every drop is accounted for |
| RecordWriter.RunsBalance | src/record/c64-record-writer.c:43-185 | accepted nodes reach the file step once and in order, and all of them have when the writer has ended |
| RecordWriter.StopDrains | src/record/c64-record-writer.c:130-147 | after a stop request the writer can always go on and each of its turns shortens what is left |

## Left out

- Sockets, DNS, HTTP, FTP, OBS callbacks, rendering, logging and statistics: foreign calls; their outcomes are parameters.
- Memory order: accesses to shared flags are sequentially consistent steps.
- The compression function of MD5 is a parameter, so the results hold for any; opening the file and the hexadecimal text of the digest are not modelled.
- The fields `next_expected_seq` and `seq_initialized` of the ring are written but never decide anything; the debug order check is off in release builds.
- Waiting for `stream_start_ns`, the choice of the audio interval and its change on format detection: start and interval are fixed for a run.
- AudioOutput.TimestampsStrictlyIncrease: for runs whose timestamps stay below 2^64 nanoseconds, as the product in the source wraps beyond.
- RetryWorker.DueRequestIsServed: for test and flag in one step; the source's two steps have the exact condition of RetryWorker.FlagIsNoticedIff. Bounds the steps of the helping thread; that the operating system eventually schedules it is not modelled. A request accepted while another thread is giving up the slot is lost with it in the source and is not promised anything.
- DeviceSwitch.RunsStrandNobody: hosts are resolved addresses, and taking the transition, raising the in-flight flag and reading the address to start are one step; passwords and REST demotion are not modelled.
- ReorderRing.Ring.SetDelay: one call without interference; pushes and pops between its critical sections are in RingRuns.ReductionKeepsNewest and RingRuns.ReductionMakesReady.
- NetworkBuffer.Buffer.SetDelay: likewise.
- DeviceSwitch.SelectedIsLastStarted: devices get commands in the order they are sent; the stop that ends streaming when the source is destroyed is not modelled.
- Handover.PureAfterFlush: while the host of the selected device has no address the filter lets every sender in untagged and the handover cannot close, so the promise starts when it is resolved. Reading the peer fields, tagging and the push of a packet that ends no handover are one step; palette cut-over, which follows the same packets, is not modelled.
- PacketFifo.RunsAreFifo: the fields of an entry are written and copied in one step each; the reset runs only while both threads are stopped.
- DirectoryScan.ScanLocal: allocation failures and paths too long for their buffer are not modelled, the file system does not change during a scan, and for completeness two paths to one directory list the same subfolders.
- DeviceRegistry.CompletionOrderIrrelevant: for scans whose ids the registry has room for and profiles that can be written; which other address becomes the peer address does depend on completion order.
- DeviceRegistry.DerivedIdIsCanonical: truncation to the id buffer is not modelled.
- RecordWriter.RunsBalance: the queue is a sequence rather than linked nodes, and AVI header refreshes are not modelled.
- The WAV, AVI and BMP writers, CSV logs, songlength lookup, playlist playback, JSON scanning and the Python tools would add only easy members or have no clear meaning to preserve.
