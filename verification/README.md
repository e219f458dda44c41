# Verified model of the video link, the scheduler and the robot models

This project models the parts of the client where packets, buffers, threads and user input meet, and
proves what they promise over whole runs.

- **Frame reassembly** (`PacketHeader`, `FramePool`, `VidRender`, `Reassembly*`). Packets of at most
  1400 bytes arrive unordered, duplicated, padded and interleaved; five slots assemble them in ten
  pool buffers that travel between the free list, the slots and the video pipeline. The state
  machine has one step per received packet, per slot scan, per buffer freed by the pipeline and per
  change of the "push incomplete frames" option. Main results: the bytes of a pushed frame are those
  that were sent, each buffer always has one owner, the pipeline's buffers never change, indices
  only move forward in a session, a frame is pushed at exactly its last missing section, no slot is
  evicted while at most five frames take turns, and any frame that is cut into packets and sent
  arrives. When a session starts, what is evicted and what a scan gives up or pushes is said by the
  events, times and fields.
- **The receive loop** (`Receiver*`) that drives the reassembler: what it asks of the reassembler,
  every received packet included, is a run of it; no slot is older than 65 ms when the loop goes to
  receive, nor older than 115 ms at any time, also when a packet comes in.
- **The periodic scheduler** (`Scheduler*`): one step per critical section of its event loop, half
  of `doJob` and call of another thread, in any interleaving. Main results: queue and task map
  agree, no task is lost or duplicated by stopping, tasks live and keep their interval as they were
  added, an overdue entry is overtaken at most three times by any other task and dispatched within a
  bounded number of the loop's steps, and executions keep to the grid and, but for those that a stop
  made early, to the rate.
- **The MQTT adapter's generation fence** (`MqttFenceModel`, `MqttFence`, `MqttReach`, `MqttOnce`,
  `MqttLate`, `MqttHistory`, `MqttAdapter`): bindings, registrations, messages of old and new
  clients, two queued hops, checks and calls, in any interleaving. A handler gets only messages of
  the binding it was registered under, all of them while that binding is current, and no delivery
  twice. The class is the object graph: clients with the slots connected to them, and the channels
  that disconnect their slot when they go.
- **Subscriptions of the MQTT client** (`SubscriptionModel`, `SubscriptionHistory`, `MqttClient`):
  registration in any number of threads against connecting, losing the connection and synchronising.
- **The hero's deploy mode** (`HeroModel`, `HeroHistory`, `Hero`): keys, hold timer, server status
  and performance mode. State and outputs are determined by the inputs so far.

Each part has a specification (`*Model`: datatypes, functions, a step function), lemmas about all
its runs, among them (`*History`, `ReassemblySession`, `ReassemblyPolicy`) what its state means in
terms of the events alone, and classes whose methods change fields in place as the source does and
are proved to perform exactly the specification's steps. Choices of the environment (clock readings,
which free index a concurrent queue hands out, what the media library answers) are parameters of the
steps.

What the model asks of the environment, as `requires` or as the condition under which a step is
possible:

- a datagram has at most 1400 bytes (core/img_trans/TRecv.cpp:92);
- the section of a packet starts inside the frame of the slot it is stored into: exactly then the
  copy stays inside the buffer (`CopyInsideIff`; `SectionBeyondFrame` is a first packet that is
  accepted although the size of its copy is near 2^32), beyond it the source's copy has no meaning;
- a receive returns within the socket's timeout of 50 ms
  (core/img_trans/inc/img_trans/net/TRecv.hpp:113);
- clock readings do not go back and are below the largest time point, which the slot search uses as
  its starting minimum (core/img_trans/TReassembly.cpp:109-110);
- the pipeline frees only buffers it was given, once;
- the animation reports its end no earlier than its duration after its start.

Where the code and its documentation differ, the model follows the code:

- `getLastPushedIdx` is documented as the last pushed index, or 0 before the first push; a new
  session sets it to one before the session's first index without pushing anything
  (core/img_trans/TReassembly.cpp:207-208).
- The receive loop logs its six failures for want of memory as being "in a row"; timeouts and
  interruptions in between do not reset the count (`ReceiverTiming.LoopEndsIff`).
- A frame of length zero counts as complete as soon as its slot is open, so `fill` refuses its
  packets and it is never pushed (`EmptyFramesAreNotPushed`).
- `stopAsync` leaves the thread joinable, so a `run` before `stop` has joined it does nothing.
- `isBefore` holds in both directions for indices exactly 32768 apart (`SerialOrder`).
- A stop requested during a wait lets the loop take the awaited entry early (`StopBreaksTheRate`).
  An entry is taken before its key if and only if a stop was requested when its wait ended too soon
  (`TakenEarlyIff`), which happens at most once before the loop is started anew
  (`EarlyOncePerStop`). An execution can break the rate only if its own take was such a one; the
  executions before and after it keep it (`NthRunNotBefore`, `NextRunInRun`).
- The second check of a message is made in the handler's thread. For a handler in another thread
  than the adapter's the binding can change between that check and the call:
  `RemoteHandlersMayBeLate` is such a run. At the call it is still current if and only if no step in
  between replaced or removed it (`StillCurrentIff`).

`dafny verify dfyconfig.toml` checks the whole project.

## Model

| member | source | states |
|---|---|---|
| PacketHeader.Diff | core/img_trans/inc/img_trans/net/TReassembly.hpp:52-55 | the difference is a signed 16-bit number that leads from the second index to the first modulo 65536 |
| PacketHeader.SerialOrder | core/img_trans/inc/img_trans/net/TReassembly.hpp:52-71 | `isAfter` is the serial-number order of section 3.2 of RFC 1982 for 16 bits and asymmetric; `isBefore` is its converse except for indices half the space apart, which are before each other |
| PacketHeader.HeaderBytes | core/img_trans/inc/img_trans/net/TReassembly.hpp:41-46 | the fields are the first 2, the next 2 and the next 4 bytes, in the given byte order |
| PacketHeader.HeaderRoundTrip | core/img_trans/TReassembly.cpp:39-69 | a header written by the sender in either byte order parses back to itself, whatever follows it |
| PacketHeader.HeaderRoundTripBack | core/img_trans/TReassembly.cpp:39-69 | the wire bytes are recovered from the parsed header, so parsing loses nothing |
| PacketHeader.FromLiInplace | core/img_trans/TReassembly.cpp:39-43 | fails exactly on fewer than 8 bytes; else the little-endian reading |
| PacketHeader.FromBiInplace | core/img_trans/TReassembly.cpp:45-54 | converts the header in the buffer so that its host-order reading is the big-endian header; the payload is untouched; short buffers are left alone |
| FramePool.TFramePool.constructor | core/img_trans/inc/img_trans/vid_render/TFramePool.hpp:118-125 | ten distinct zeroed buffers of 2 MiB, each index free once |
| FramePool.TFramePool.Acquire | core/img_trans/inc/img_trans/vid_render/TFramePool.hpp:102-107 | fails exactly on an empty list; otherwise one free index, any, becomes owned by the handle, counted over all places |
| FramePool.TFramePool.Restore | core/img_trans/inc/img_trans/vid_render/TFramePool.hpp:110-115 | an index outside the pool is refused, any other is enqueued |
| FramePool.TFramePool.Destroy | core/img_trans/inc/img_trans/vid_render/TFramePool.hpp:58-61 | a destroyed handle gives back what it owns and only that |
| FramePool.TFramePool.MoveAssign | core/img_trans/inc/img_trans/vid_render/TFramePool.hpp:75-91 | assignment restores the target's index, moves the source's and leaves the source owning nothing: ownership is conserved per index |
| VidRender.TVidRender.TryPushFrame | core/img_trans/TVidRender.cpp:527-588 | succeeds exactly for a valid non-empty frame the library accepts; on every exit path the index is in one place: the caller's handle, the free list or the pipeline |
| VidRender.TVidRender.Release | core/img_trans/TVidRender.cpp:559-567 | the free callback moves exactly the freed buffer's index back to the list |
| ReassemblyModel.CopyInsideIff | core/img_trans/TReassembly.cpp:79-96 | for a packet that `fill` accepts, the copy, its size computed in wrapping 32-bit arithmetic, stays inside the buffer if and only if the section starts inside the frame; then also inside the frame |
| ReassemblyRun.SectionBeyondFrame | core/img_trans/TReassembly.cpp:71-96 | for one it does not: received first, it parses, opens a slot and is accepted, and the size of its copy wraps |
| ReassemblyModel.ChoiceUnique | core/img_trans/TReassembly.cpp:103-151 | the slot policy (match, else first vacant, else oldest small, else oldest large) determines one slot |
| ReassemblyModel.ChoiceExists | core/img_trans/TReassembly.cpp:103-151 | it always determines a slot, so the search never comes back empty-handed |
| ReassemblyInvariant.SectionsFit | core/img_trans/inc/img_trans/net/TReassembly.hpp:104-107 | every section of a frame that fits a buffer has a number below 1507, so the bitmap of 1536 never refuses a legal one |
| ReassemblyInvariant.CapacityBound | core/img_trans/TReassembly.cpp:87-98 | any set of sections has at most as many bytes as the frame, and all of them have exactly as many only if no section is missing |
| ReassemblyInvariant.SlotsDontAlias | core/img_trans/TReassembly.cpp:224-233 | two occupied slots never own the same buffer |
| ReassemblyInvariant.SlotAndPipelineDontAlias | core/img_trans/TReassembly.cpp:96-96 | a slot never owns a buffer the pipeline holds |
| ReassemblyInvariant.PipelineDoesntAlias | core/img_trans/TVidRender.cpp:551-567 | two buffers in the pipeline are different |
| ReassemblyInvariant.FreeIsUnowned | core/img_trans/inc/img_trans/vid_render/TFramePool.hpp:102-115 | a free index is owned by no slot and no pipeline buffer |
| ReassemblyInvariant.BufferAvailable | core/img_trans/TReassembly.cpp:224-229 | with a vacant slot and at most five buffers in the pipeline the free list is not empty |
| ReassemblyInvariant.ScanFromInv | core/img_trans/TReassembly.cpp:265-283 | the scan keeps the invariant: conservation, unique indices, exact vacant slots, bounded counters |
| ReassemblyRun.RouteInv | core/img_trans/TReassembly.cpp:155-233 | up to `fill`, a packet leaves all bytes and pipeline buffers alone, touches no slot but its own except by emptying it, and reaches a slot of its index that was there or is fresh; a session start leaves no other occupied slot |
| ReassemblySession.SessionStartsIff | core/img_trans/TReassembly.cpp:155-214 | a legal packet starts a session if and only if it is the first one admitted, or a clock reading after the last admitted one, its own included, was more than 1000 ms later, or its index is 181 to 32768 behind the last pushed; it is admitted if and only if it is one of these or its index is not 0 to 180 behind |
| ReassemblyPolicy.EvictedIff | core/img_trans/TReassembly.cpp:103-148 | within a session a packet empties an occupied slot if and only if all five are taken by other frames and this one goes first: frames below 5000 bytes before longer ones, then the one opened first, then the lower position |
| ReassemblyPolicy.EvictionInRun | core/img_trans/TReassembly.cpp:103-233 | the same at every packet of every run that starts no session |
| ReassemblyPolicy.PlacedIn | core/img_trans/TReassembly.cpp:112-134 | a packet goes to the slot of its frame, or else to the first vacant one |
| ReassemblyPolicy.ScanInRun | core/img_trans/TReassembly.cpp:256-284 | a scan empties exactly the slots older than 60 ms, and pushes of them exactly those that are 95 % complete and 1 to 32767 ahead of the last pushed index, if the option was last set on; the others stay as they are |
| ReassemblyPolicy.CompletedIsOffered | core/img_trans/TVidRender.cpp:527-588 | a completed frame is in the pipeline afterwards exactly if it is not empty, the pipeline exists, is not a file's, is below its level, and took the buffer |
| ReassemblyRun.StepInv | core/img_trans/TReassembly.cpp:153-284 | every step keeps the invariant |
| ReassemblyRun.RunInv | core/img_trans/TReassembly.cpp:153-284 | every state of every run satisfies the invariant, and no step of a run is undefined |
| ReassemblyRun.PoolConservation | core/img_trans/inc/img_trans/vid_render/TFramePool.hpp:58-115 | in every reachable state each of the ten indices is in exactly one place: free list, one slot or one pipeline buffer |
| ReassemblyRun.SlotTable | core/img_trans/inc/img_trans/net/TReassembly.hpp:124-150 | in every reachable state at most one occupied slot per index, and a vacant slot has zero counter and empty bitmap |
| ReassemblyRun.AcceptedPacketGetsBuffer | core/img_trans/TReassembly.cpp:216-229 | while the pipeline holds at most five buffers, every packet that passes the length and index checks gets a slot with a buffer |
| ReassemblyHistory.SlotHistory | core/img_trans/TReassembly.cpp:71-101 | every occupied slot of every reachable state has a history inside the session: who opened it, and for each written position the packet that carried the byte now there |
| ReassemblyDelivery.PushedBytes | core/img_trans/TReassembly.cpp:71-240 | byte p of a pushed frame is byte p mod 1392 of the payload of the one packet of section p / 1392 that `fill` accepted since the slot was opened, in the current session; no refused packet has a part in it and nothing is left of the buffer's earlier use |
| ReassemblyDelivery.CounterIsExact | core/img_trans/TReassembly.cpp:77-98 | the byte counter is the number of distinct positions written and never exceeds the length; it equals it if and only if every byte is written, also with short sections |
| ReassemblyDelivery.CutIsSection | core/img_trans/TReassembly.cpp:45-101 | a packet the sender cuts from a frame, padded at will, carries the frame's bytes at its section's place |
| ReassemblyDelivery.EndToEnd | core/img_trans/TReassembly.cpp:71-240 | if the packets of its index since its slot was opened were cut from one content, in any order, duplicated, padded, short and interleaved, the pushed frame is that content, also when the index was used for other contents before |
| ReassemblyDelivery.StepKeepsInFlight | core/img_trans/TReassembly.cpp:96-96 | no step changes a byte of a buffer the pipeline holds |
| ReassemblyDelivery.InFlightStable | core/img_trans/TVidRender.cpp:551-567 | from a push until the pipeline frees the buffer its bytes stay the same |
| ReassemblyOrder.SessionOrder | core/img_trans/TReassembly.cpp:187-238 | within a session the pushed indices, unwrapped, grow by 1 to 32767 at each push, on the completion and the timeout path, and the last is congruent to `lastPushedIdx` |
| ReassemblyOrder.NoRepeatWithinWrap | core/img_trans/TReassembly.cpp:267-272 | an index pushed twice in a session is at least 65536 frames further on |
| ReassemblyProgress.LastSectionPushes | core/img_trans/TReassembly.cpp:87-100 | while its slot is kept, a packet of a frame pushes it if and only if the packets so far bring all its sections: exactly at the last missing one |
| ReassemblyKept.FiveFramesFit | core/img_trans/TReassembly.cpp:103-151 | while the packets of a session have brought at most five indices, no packet evicts an occupied slot |
| ReassemblyKept.UndisturbedIsKept | core/img_trans/TReassembly.cpp:103-284 | a frame keeps its slot if nothing starts a new session, none of its packets is late or short, the session has brought at most five indices, no scan comes more than 60 ms after the opening, and its sections are not all there |
| ReassemblyKept.UndisturbedIsPushed | core/img_trans/TReassembly.cpp:87-254 | under these conditions on what arrives alone, a packet of the frame pushes it if and only if it brings the last missing section |
| ReassemblyTransmission.FrameArrives | core/img_trans/TReassembly.cpp:153-254 | from the initial state, any packets cut from a frame, in any order, repeated and padded, can be received; nothing is pushed before the first one that leaves no section missing, and after it the pipeline holds one buffer, with the frame's bytes |
| ReassemblyTransmission.PartRoute | core/img_trans/TReassembly.cpp:155-224 | while a frame is being assembled each of its packets is admitted, starts no session and reaches the frame's own slot, with nothing else changed |
| ReassemblyProgress.RunNotIdleComplete | core/img_trans/TReassembly.cpp:235-253 | no slot with a non-empty frame is left complete between two steps |
| ReassemblyProgress.EmptyFramesAreNotPushed | core/img_trans/TReassembly.cpp:71-73 | a frame of length zero is pushed neither on completion nor at its timeout |
| Reassembly.ReassemblingFrame.Clear | core/img_trans/inc/img_trans/net/TReassembly.hpp:124-131 | the slot is as new and its buffer, if any, is free again |
| Reassembly.ReassemblingFrame.Steal | core/img_trans/inc/img_trans/net/TReassembly.hpp:133-143 | the handle changes hands and the slot owns nothing |
| Reassembly.ReassemblingFrame.Fill | core/img_trans/TReassembly.cpp:71-101 | accepts exactly the packets the specification accepts and writes exactly their section, less padding; otherwise changes nothing |
| Reassembly.TReassembly.SearchSlots | core/img_trans/TReassembly.cpp:105-132 | the single pass finds the match, or else the first vacant slot and the oldest frame of each size class |
| Reassembly.TReassembly.FindReAsmSlot | core/img_trans/TReassembly.cpp:103-151 | returns the policy's slot and clears exactly that one if it had to be evicted |
| Reassembly.TReassembly.RouteFrame | core/img_trans/TReassembly.cpp:179-233 | length check, old-index and duplicate checks, resync and slot opening are the specification's |
| Reassembly.TReassembly.OnPacketRecv | core/img_trans/TReassembly.cpp:153-254 | on the object graph, receiving is the specification's receive step and keeps the invariant |
| Reassembly.TReassembly.ReAsmSlotScan | core/img_trans/TReassembly.cpp:256-284 | on the object graph, scanning is the specification's scan step and keeps the invariant |
| Reassembly.TReassembly.OnBufferFreed | core/img_trans/TVidRender.cpp:566-566 | the free callback is the specification's release step |
| Reassembly.TReassembly.AllowPushIncompleteFrames | core/img_trans/inc/img_trans/net/TReassembly.hpp:218-218 | changes the option and nothing else |
| ReceiverModel.LoopDrivesReassembler | core/img_trans/TRecv.cpp:85-99 | what the loop asks of the reassembler is one of its runs: a scan at each turn more than 5 ms after the last, every received packet, of 1 to 1400 bytes, in order and with its reading, and what happens in the background; so every result above holds under the loop |
| ReceiverTiming.SlotsAreYoung | core/img_trans/TRecv.cpp:82-92 | in every state of every run no slot is older than 115 ms, and none older than 65 ms when the loop goes to its blocking receive |
| ReceiverTiming.SlotsAreYoungAtReception | core/img_trans/TRecv.cpp:92-99 | nor is any older than 115 ms when a packet is received: the receive may have taken 50 ms |
| ReceiverTiming.LoopEndsIff | core/img_trans/TRecv.cpp:94-150 | the loop ends from inside exactly at an unknown error or at the sixth failure for want of memory since the last successful receive |
| Receiver.TRecv.BeginTurn | core/img_trans/TRecv.cpp:85-90 | the first half of a turn is the loop model's step |
| Receiver.TRecv.OnReceived | core/img_trans/TRecv.cpp:92-150 | the second half is the loop model's step for every outcome of the receive |
| SchedulerModel.StepInv | core/utils/TScheduler.cpp:24-88 | every critical section, half of `doJob` and call of another thread keeps distinct queued handles and the agreement of queue and map |
| SchedulerRun.RunInv | core/utils/TScheduler.cpp:24-88 | so does every interleaving |
| SchedulerRun.QueueAndTasksAgree | core/utils/inc/utils/TScheduler.hpp:196-222 | in every reachable state a live task has exactly one queued entry, whose key is its next run, unless it is the one the loop holds, which has none |
| SchedulerRun.NothingLostWhileStopped | core/utils/inc/utils/TScheduler.hpp:163-176 | whenever the loop is not running, each live task has its one entry: stop and run lose and duplicate nothing |
| SchedulerRun.InsertAlwaysAdds | core/utils/inc/utils/TScheduler.hpp:196-222 | `addTask` never takes its failure branch: its handle is new to map and queue |
| SchedulerHistory.LiveIff | core/utils/inc/utils/TScheduler.hpp:196-222 | the live tasks are those that were added and not removed since |
| SchedulerHistory.IntervalAsAsked | core/utils/TScheduler.cpp:12-16 | as long as it lives a task has the interval it was added with, or a second if that is not positive |
| SchedulerHistory.AddedIsDue | core/utils/inc/utils/TScheduler.hpp:196-222 | a task is queued under the least time point when it is added |
| SchedulerHistory.OnlyLiveRun | core/utils/TScheduler.cpp:67-86 | an entry is looked up, run and queued again exactly if its task has not been removed by then |
| SchedulerHistory.LoopEndsIff | core/utils/TScheduler.cpp:36-41 | the loop ends exactly at a test after a stop that was requested since it was started, and is started exactly if it never was or has been joined |
| SchedulerHistory.TakesFirst | core/utils/TScheduler.cpp:51-65 | the entry that is taken has the least key, and the least handle among those with it |
| SchedulerRun.DanglingWasRemoved | core/utils/TScheduler.cpp:24-34 | an entry without a task was left by an earlier `removeTask` of its live task |
| SchedulerRun.EndJobGrid | core/utils/inc/utils/TScheduler.hpp:74-96 | a run leaves the task on its grid, with its key at least one interval further |
| SchedulerRun.RunGrid | core/utils/inc/utils/TScheduler.hpp:74-96 | in every reachable state every task's key is its start time plus a whole number of intervals, or the smallest time before the first run |
| SchedulerFairness.BoundedBypass | core/utils/TScheduler.cpp:51-65 | while an entry with key t is queued, another task with key s and interval d is taken at most floor((t - s) / d) + 1 times, a removed entry at most once |
| SchedulerFairness.BypassOnceDue | core/utils/inc/utils/TScheduler.hpp:80-95 | once the entry is due, at most three times, whatever the other task's key and interval are |
| SchedulerFairness.OvertakenBoundedly | core/utils/TScheduler.cpp:51-65 | all others together are taken at most a fixed number of times while an entry stays queued, and three more times for each task added once it is due |
| SchedulerFairness.EventuallyTaken | core/utils/TScheduler.cpp:51-65 | a queued entry leaves the queue in no other way than by being taken, and does so before the loop has taken more others than that |
| SchedulerFairness.OverdueIsDispatched | core/utils/TScheduler.cpp:41-86 | from any state in which the loop runs and an entry is due, the entry is taken before the loop has made 18 steps for each other task, entry or addition and six more, unless the loop test finds a stop requested |
| SchedulerFairness.LoopIsEnabled | core/utils/TScheduler.cpp:41-86 | and a loop that has not exited always has a possible step, at the latest when the awaited time has come |
| SchedulerFairness.DueMeansNoWait | core/utils/TScheduler.cpp:51-65 | while some entry is due the loop does not wait |
| SchedulerTiming.CatchUp | core/utils/inc/utils/TScheduler.hpp:82-95 | a run ending at most one interval after the next grid point keeps it, a later one moves to the first grid point strictly after its end; never more than an interval in the past |
| SchedulerTiming.EarlyIffStopped | core/utils/TScheduler.cpp:51-65 | the loop takes an entry before its time exactly if a stop is requested while it waits for it and it is still the top |
| SchedulerTiming.TakenEarlyIff | core/utils/TScheduler.cpp:51-65 | of all the steps that take an entry, exactly those that end a wait too soon with a stop requested take it before its key |
| SchedulerTiming.EarlyOncePerStop | core/utils/TScheduler.cpp:36-65 | between two early takes, of whatever tasks, the loop was started anew |
| SchedulerTiming.UnstoppedIsNeverEarly | core/utils/TScheduler.cpp:51-65 | a run in which no wait ends with a stop requested wakes nothing early |
| SchedulerTiming.NthRunNotBefore | core/utils/inc/utils/TScheduler.hpp:74-96 | the n-th execution of a task, from 0, starts no earlier than its first one plus n of the intervals it was added with, whatever happened to the ones before it, unless its own take was early |
| SchedulerTiming.NextRunInRun | core/utils/inc/utils/TScheduler.hpp:74-96 | after each execution the key is on the grid of the interval the task was added with, at least one interval further and at most one interval before the end of the execution, and at most one after it unless its own take was early |
| SchedulerEarlyWake.StopBreaksTheRate | core/utils/TScheduler.cpp:54-62 | the run in which a stop during the wait makes a task of interval 10 execute at 0 and again at 3 |
| Scheduler.PeriodicTask.constructor | core/utils/TScheduler.cpp:12-16 | a non-positive interval becomes one second; the first run is due at once |
| Scheduler.PeriodicTask.BeginJob | core/utils/inc/utils/TScheduler.hpp:74-78 | a cancelled task does nothing; the first run sets the start time |
| Scheduler.PeriodicTask.EndJob | core/utils/inc/utils/TScheduler.hpp:80-95 | the fields after the job are those of the catch-up rule |
| Scheduler.TScheduler.TakeHandle | core/utils/inc/utils/TScheduler.hpp:119-196 | hands out the value of the counter that all schedulers share, which no other call of any of them gets; for this scheduler it may skip numbers |
| Scheduler.TScheduler.InsertTask | core/utils/inc/utils/TScheduler.hpp:196-222 | the critical section of `addTask` is the model's step |
| Scheduler.TScheduler.RemoveTask | core/utils/TScheduler.cpp:24-34 | erases and cancels exactly the given task; the queue keeps its entry |
| Scheduler.TScheduler.Run | core/utils/TScheduler.cpp:36-40 | does nothing while a thread is joinable |
| Scheduler.TScheduler.StopAsync | core/utils/inc/utils/TScheduler.hpp:176-176 | asks a joinable thread to stop and changes nothing else |
| Scheduler.TScheduler.JoinLoop | core/utils/inc/utils/TScheduler.hpp:163-169 | after the thread has ended a new one can be started |
| Scheduler.TScheduler.CheckStop | core/utils/TScheduler.cpp:41-41 | the loop ends exactly at a requested stop |
| Scheduler.TScheduler.PeekQueue | core/utils/TScheduler.cpp:44-60 | the first critical section up to the wait is the model's step |
| Scheduler.TScheduler.WakeFromWait | core/utils/TScheduler.cpp:54-65 | after the wait the entry is popped if its handle is still on top, else the loop starts over |
| Scheduler.TScheduler.FindTask | core/utils/TScheduler.cpp:68-76 | the second critical section is the model's step |
| Scheduler.TScheduler.BeginTask | core/utils/TScheduler.cpp:78-78 | the job is called exactly if its task is still live |
| Scheduler.TScheduler.EndTask | core/utils/TScheduler.cpp:78-78 | the end of the run is the model's step |
| Scheduler.TScheduler.RequeueTask | core/utils/TScheduler.cpp:80-85 | a task removed meanwhile is not queued again, any other is, under its new key |
| MqttFenceModel.StepInv | app/modules/core_adapter/mqtt/GMqttAdapter.cpp:86-187 | every channel in the register belongs to the current binding, generation and client numbers only grow, and slots of the current generation have their channel |
| MqttFenceModel.FirstHopDropsTheStale | app/modules/core_adapter/mqtt/GMqttAdapter.cpp:282-287 | the first hop drops exactly the posts of other generations; the missing-channel branch is never taken |
| MqttFence.GenerationIsBinding | app/modules/core_adapter/mqtt/GMqttAdapter.cpp:86-183 | in a run one generation number is one binding, and different generations are different client objects |
| MqttFence.StillCurrentIff | app/modules/core_adapter/mqtt/GMqttAdapter.cpp:24-183 | a binding is still current later if and only if no step in between stored another snapshot or removed it: a replaced one never comes back |
| MqttFence.HandlersAreFenced | app/modules/core_adapter/mqtt/GMqttAdapter.cpp:269-310 | whenever a handler is called, it was registered under a binding that was current at the check, and the payload was received, for its topic, by the client of that same binding; it is current at the call too exactly if nothing rebound in between, and always for a handler in the adapter's thread |
| MqttLate.RemoteHandlersMayBeLate | app/modules/core_adapter/mqtt/GMqttAdapter.cpp:180-309 | the run from the initial state in which a handler in another thread is called after its binding was replaced |
| MqttOnce.TokensStep | app/modules/core_adapter/mqtt/GMqttAdapter.cpp:282-310 | no step adds to the ways in which a given delivery can still reach a given handler, and a call uses one up |
| MqttOnce.AtMostOnce | app/modules/core_adapter/mqtt/GMqttAdapter.cpp:277-310 | no delivery reaches a handler twice |
| MqttFence.CurrentMessagesArrive | app/modules/core_adapter/mqtt/GMqttAdapter.cpp:269-310 | nothing else is held back: a post of the binding a handler was registered under leads to its call, which is made exactly if the binding is still current |
| MqttReach.RegisteredIsConnected | app/modules/core_adapter/mqtt/GMqttAdapter.cpp:272-297 | while its binding is current a registered handler's topic has a slot at the binding's client |
| MqttReach.CurrentMessagesReach | app/modules/core_adapter/mqtt/GMqttAdapter.cpp:277-310 | as long as the binding is current, a message delivered under it is on its way to each handler registered for its topic before, or that handler has been called with it |
| MqttHistory.BindOutcome | app/modules/core_adapter/mqtt/GMqttAdapter.cpp:44-86 | bind fails when shutting down, changes nothing exactly if identifier and address are both those of the current binding, fails if the client cannot be made, and otherwise gives the next number |
| MqttHistory.RegisterOutcome | app/modules/core_adapter/mqtt/GMqttAdapter.cpp:207-267 | rejected exactly when shutting down, without context, topic or handler; then, without a binding, for want of one; otherwise registered |
| MqttHistory.PublishOutcome | app/modules/core_adapter/mqtt/GMqttAdapter.cpp:319-358 | shutting down, no binding, a number that is not the current one's, and passing to the current client, each exactly in its case |
| MqttFence.PublishIsFenced | app/modules/core_adapter/mqtt/GMqttAdapter.cpp:329-361 | a message that is handed to a client was asked for under the generation that was current at the checks, and the client is the one of every binding of that number in the run |
| MqttFence.PublishChecksBinding | app/modules/core_adapter/mqtt/GMqttAdapter.cpp:319-358 | the checks pass exactly if the binding under which the number was obtained is still current |
| MqttAdapter.GMqttAdapter.BeginBind | app/modules/core_adapter/mqtt/GMqttAdapter.cpp:37-86 | shutting down, unchanged, failed and changed bindings are told apart as in the source; only the last takes a number |
| MqttAdapter.GMqttAdapter.ClearRegister | app/modules/core_adapter/mqtt/GMqttAdapter.cpp:180-180 | the channels go, and with them every slot is disconnected from every client, before the new binding becomes current |
| MqttAdapter.GMqttAdapter.StoreSnapshot | app/modules/core_adapter/mqtt/GMqttAdapter.cpp:183-183 | the new binding becomes current |
| MqttAdapter.GMqttAdapter.Bind | app/modules/core_adapter/mqtt/GMqttAdapter.cpp:37-197 | uninterrupted: the result's number, a client made for it, no channel, no slot connected to any client, a larger generation than before; otherwise nothing changes |
| MqttAdapter.GMqttAdapter.RegisterTopic | app/modules/core_adapter/mqtt/GMqttAdapter.cpp:199-313 | rejections in the source's order; otherwise the handler joins its topic's channel, made and connected to the current client on first use; the connected slots stay exactly those of the channels |
| MqttAdapter.GMqttAdapter.OnMessage | core/comm/TMqttClient.cpp:54-72 | a message of any client, old or new, is posted once if the client is the current one and the topic has a channel, and not at all otherwise |
| MqttAdapter.GMqttAdapter.OnPayload | app/modules/core_adapter/mqtt/GMqttAdapter.cpp:277-292 | a slot posts its payload under the topic and generation it captured |
| MqttAdapter.GMqttAdapter.DispatchPost | app/modules/core_adapter/mqtt/GMqttAdapter.cpp:282-290 | the first hop is the model's step |
| MqttAdapter.GMqttAdapter.CheckCall | app/modules/core_adapter/mqtt/GMqttAdapter.cpp:303-305 | the second hop's check is the model's step |
| MqttAdapter.GMqttAdapter.CallHandler | app/modules/core_adapter/mqtt/GMqttAdapter.cpp:307-307 | and the call that follows it: handler and payload are those that were checked, and for a handler in the adapter's thread their generation is the current one |
| MqttAdapter.GMqttAdapter.CheckPublish | app/modules/core_adapter/mqtt/GMqttAdapter.cpp:319-358 | the checks are the model's step; what passes keeps the client of the snapshot it was checked against |
| MqttAdapter.GMqttAdapter.HandOverMessage | app/modules/core_adapter/mqtt/GMqttAdapter.cpp:360-376 | whatever is bound by then, the message lands at that client and at no other, or at none if the client throws |
| MqttAdapter.GMqttAdapter.Publish | app/modules/core_adapter/mqtt/GMqttAdapter.cpp:315-377 | uninterrupted: each of the five outcomes exactly in its case; then the message is the current client's next one, or no client gets any |
| MqttAdapter.GMqttAdapter.Destroy | app/modules/core_adapter/mqtt/GMqttAdapter.cpp:24-35 | the destructor leaves no binding, no channel and no slot connected to any client |
| SubscriptionModel.StepInv | core/comm/TMqttClient.cpp:135-193 | while connected, a registered topic without a subscribe has one coming: from its registering thread, the synchronisation under way or a callback still to run |
| SubscriptionModel.NoLostSubscription | core/comm/TMqttClient.cpp:162-193 | in every interleaving, once nothing is under way and the client is connected, every registered topic has had a subscribe on this connection and is subscribed unless the library refused it |
| SubscriptionHistory.SubscribedIff | core/comm/TMqttClient.cpp:135-193 | a topic is subscribed, or was refused, exactly if a subscribe for it was issued on this connection and answered so; when all is quiet every registered topic is one or the other |
| SubscriptionModel.WorkEnds | core/comm/TMqttClient.cpp:37-46 | each step under way uses up one unit of a finite measure |
| SubscriptionModel.WorkIsEnabled | core/comm/TMqttClient.cpp:135-155 | until all is quiet some step can be taken: the lock causes no deadlock |
| SubscriptionModel.DrainedIsSubscribed | core/comm/TMqttClient.cpp:37-193 | from any connected state, the steps under way, in any order, end with every topic's subscribe issued |
| SubscriptionModel.SyncOneKeeps | core/comm/TMqttClient.cpp:142-151 | the outcome of a synchronisation does not depend on the order of its topics |
| MqttClient.TMqttClient.SubscribeAll | core/comm/TMqttClient.cpp:135-155 | while the connection comes and goes and other threads subscribe between its turns, the loop is a run of the model's steps that tries every topic; the topics reported are exactly those whose subscribe threw |
| MqttClient.TMqttClient.SubscribeAllAlone | core/comm/TMqttClient.cpp:135-155 | undisturbed, it reaches the outcome common to all orders |
| MqttClient.TMqttClient.InsertHandler | core/comm/TMqttClient.cpp:166-173 | keeps the register equal to the history: under each topic ever registered, all its registrations that are still connected; a topic is new exactly if the history has none of it |
| MqttClient.TMqttClient.Disconnect | core/utils/inc/utils/TSignal.hpp:28-87 | so does disconnecting one of them, in whatever order the signal keeps the others |
| MqttClient.TMqttClient.SubscribeNew | core/comm/TMqttClient.cpp:175-190 | the subscribe of a new topic is the model's step; a failure is swallowed |
| MqttClient.TMqttClient.HandlersFor | core/comm/TMqttClient.cpp:54-72 | a message reaches exactly the handlers registered for its topic and still connected, each registration once, in their order unless one of the topic was disconnected |
| HeroModel.StepInv | app/modules/models/bots/hero/GHeroModel.cpp:214-387 | every event keeps: deployed implies deploy video implies ranged, and a pending press means its key is down, in ranged mode, while not in the mode asked for |
| HeroModel.RunInv | app/modules/models/bots/hero/GHeroModel.cpp:214-387 | the same in every state of every run |
| HeroHistory.DeployedIff | app/modules/models/bots/hero/GHeroModel.cpp:214-244 | the robot is deployed exactly if the server's last status since the connection was last lost is 1 and the last performance reported is 4; the video and the keys are what the events make them |
| HeroHistory.OutputsIff | app/modules/models/bots/hero/GHeroModel.cpp:274-387 | commands and restarts are determined by the inputs: which holds start, what ends them, and what they publish |
| HeroModel.CommandAfterHold | app/modules/models/bots/hero/GHeroModel.cpp:274-387 | each published command ends one uninterrupted hold of at least 500 ms, begun by a press of its key, with mode and performance unchanged and nothing published in between |
| HeroModel.OneCommandPerPress | app/modules/models/bots/hero/GHeroModel.cpp:127-143 | the press behind a command comes after every earlier command: a press yields at most one |
| HeroModel.HoldPublishes | app/modules/models/bots/hero/GHeroModel.cpp:378-387 | conversely, an uninterrupted hold publishes at exactly the first tick 500 ms after its press |
| HeroModel.RestartsSpaced | app/modules/models/bots/hero/GHeroModel.cpp:327-341 | the deploy video is restarted at most once in 500 ms |
| Hero.GHeroModel.constructor | app/modules/models/bots/hero/GHeroModel.cpp:357-400 | a new model agrees with itself: video items, mode, timer |
| Hero.GHeroModel.SetDeployVt | app/modules/models/bots/hero/GHeroModel.cpp:51-62 | the video is shown only in ranged mode, and of the two items exactly the matching one is visible |
| Hero.GHeroModel.SetDeployMode | app/modules/models/bots/hero/GHeroModel.cpp:64-74 | an unchanged mode changes nothing; a change ends a pending press and takes the video along |
| Hero.GHeroModel.StartDeployModePress | app/modules/models/bots/hero/GHeroModel.cpp:127-136 | starts the timer exactly in ranged mode, for the other mode, with nothing pending |
| Hero.GHeroModel.CancelDeployModePress | app/modules/models/bots/hero/GHeroModel.cpp:138-143 | nothing is pending and the timer is stopped |
| Hero.GHeroModel.UpdateEffectiveDeployMode | app/modules/models/bots/hero/GHeroModel.cpp:214-224 | afterwards the mode is the server's and ranged |
| Hero.GHeroModel.OnDeployModeStatus | app/modules/models/bots/hero/GHeroModel.cpp:226-244 | keeps mode equal to server mode and ranged, items matching, timer running exactly while pending; the model's step |
| Hero.GHeroModel.OnStaticStatusChanged | app/modules/models/bots/hero/GHeroModel.cpp:392-397 | the same for a change of the performance mode |
| Hero.GHeroModel.OnKeyReset | app/modules/models/bots/hero/GHeroModel.cpp:278-285 | the same for a loss of the keyboard |
| Hero.GHeroModel.OnNewKeyEvent | app/modules/models/bots/hero/GHeroModel.cpp:287-325 | the same for every press and release; a restart happens exactly as specified |
| Hero.GHeroModel.ResetStatus | app/modules/models/bots/hero/GHeroModel.cpp:343-355 | the same for a lost or failed connection |
| Hero.GHeroModel.Tick | app/modules/models/bots/hero/GHeroModel.cpp:378-387 | the same for the timer; the handler's own checks never fail, so each completed hold is published |

## Left out

- Pipeline construction, decoder choice, play, pause, restart and flush of the video renderer: foreign library calls.
- Sockets, binding, error texts and the sleep after a failure for want of memory in the receiver: system I/O.
- Thread-safety of the concurrent queue, mutexes, condition variables, signals and Qt's event delivery: each is one atomic step or an abstract collection, and returning an index to the pool's queue always succeeds.
- The 32-bit floating-point completeness ratio: the threshold is exactly 95 %, and no property here depends on its rounding.
- Overflow of 64-bit time arithmetic: a task's start time plus its intervals, and the difference of two clock readings, are unbounded integers. Handles and generation numbers are unbounded too.
- Handles are values with an explicit moved-out state, not C++ objects; a bitmap is a set of bit numbers; Qt's event queues and receiver lists are fields of the adapter's class, and a client object keeps the set of slots connected to its signals.
- The receive path of the reassembler is split into methods for its parts; the free list has no order, and the handle a pool hands out is the environment's choice.
- Reassembly.TReassembly.constructor: the null renderer that release builds reject is excluded by the type.
- Scheduler.TScheduler.PeekQueue: the priority queue is a multiset with a least element, and waiting is the time between two steps.
- ReassemblyRun.AcceptedPacketGetsBuffer: nothing is claimed while the pipeline holds more than five buffers; then a packet may be dropped for want of one.
- ReassemblyTransmission.FrameArrives: the packets of the run it builds come alone and at one clock reading; what other packets, scans and times do is in the results about all runs.
- Reassembly.ReassemblingFrame.Fill: a packet that is accepted although its section starts beyond the frame, as its copy leaves the buffer (ReassemblyModel.CopyInsideIff says exactly when).
- Reassembly.TReassembly.OnPacketRecv: the same packet.
- Receiver.TRecv.OnReceived: the same packet.
- SchedulerFairness.OverdueIsDispatched: counts the loop's steps, not time: how long a job runs is up to the job.
- MqttAdapter.GMqttAdapter.CheckPublish: the test for shutting down and the reading of the snapshot are one step, and what the network does with a message is not modelled.
- MqttClient.TMqttClient.HandlersFor: finding the signal under the lock and emitting it after the lock are one step; the signal library itself is not part of this model.
- SubscriptionModel.NoLostSubscription: a subscribe that the library refuses while connected is not retried by the source until the next connection, so the topic is only claimed to have been tried.
- Hero.GHeroModel.Tick: the progress shown while a key is held, the serialisation of commands and their rejection by the adapter.
- User interface, configuration, protobuf status models, robot factory, infantry model, input dispatcher and cursor code: they would add only easy members or are window-system callbacks.
