# EdgeSentinel: verified model

EdgeSentinel is a fixed-capacity, concurrent event pipeline that drives a motor-protection state
machine, with a UART codec beside it. This project models its core in Dafny and proves what holds for
every input, every run and every interleaving. `dafny verify dfyconfig.toml` checks it.

## What is modelled

* **The runtime** (`edge_runtime.dfy`, `runtime_*.dfy`). `start`, `stop`, `publish`, the control loop and
  the sensor loop are a labelled step system. Every locked section and every atomic operation is one
  step, threads take steps in any order, and there may be any number of publishing threads. The
  capacities are parameters; 256 and 128 are used where they matter.
* **The bounded queue** (`bounded_queue.dfy`, `queue_signalling.dfy`, `queue_calls.dfy`). A ring buffer class refines a
  bounded sequence. The condition-variable discipline is a step system of its own, with notifications
  after the unlock, spurious wake-ups and deadlines.
* **The object pool** (`fixed_object_pool.dfy`). A class with an index-linked free list in an array refines
  a partial map; the move-only handle is a class beside it.
* **The metrics** (`runtime_metrics.dfy`). Concurrent latency recording with a weak compare-exchange.
* **The protection state machine** (`motor_state_machine.dfy`, `protection_runs.dfy`, `hysteresis.dfy`,
  `fault_response.dfy`). A class that updates its fields, its specification on values, and the properties of
  whole runs.
* **The UART codec** (`gf2.dfy`, `crc16.dfy`, `uart_*.dfy`). The register loops of the CRC, the encoder and the
  decoder as methods and a class; the CRC as polynomial division over GF(2), with polynomials as natural
  numbers; the decoder over unbounded byte streams.

The same value models of queue, pool and machine specify the classes and are the parts of the runtime's
state, so what is proved of the classes and what is proved of the runtime meet.

## Where the code does not keep a promise

Four properties one might expect are false. Each has its exact condition, proved both ways, or a
bound that is attained.

* `stop` is documented to request a fail-safe shutdown. Its request can be refused by a full queue or an
  exhausted pool, and the motor then stays as it was. Called in any reachable state, `stop` guarantees
  SafeShutdown if and only if a shutdown is already under way at that moment
  (`RuntimeShutdown.StopGuarantee`).
* A stream of critical samples latches a fault within 2 * critical_samples - 1 samples, but not for every
  configuration: a degraded motor can take critical samples for a recovery, if recovery_samples is 0 or if
  some critical reading lies below its warning threshold and within its recovery threshold.
  `FaultResponse.HealthyResponse` and `FaultResponse.DegradedResponse` give the exact conditions for all
  configurations, and `FaultResponse.ResponseIsBounded` says when there is any bound at all.
* The pool can be exhausted, but only by 128 or more callers at once
  (`RuntimeTheorems.PoolNeverExhausted`, `RuntimeScenarios.RealCrowdIs128`).
* A decoder that joins in the middle is aligned after one frame, from every state, if and only if that frame
  holds the magic only at its start (`UartResync.AlignsExactly`, and `UartResync.WindowSpent` for each state).
  There are streams it never joins (`UartResync.NeverResynchronises`).

Where the documentation and the code differ the model follows the code: the state diagram in README.md
shows an internal fault only from Healthy and Degraded, but the code latches it from every state except
SafeShutdown.

## Model

| member | source | states |
|---|---|---|
| `RuntimeTheorems.SystemRefinement` | include/edge_sentinel/runtime/edge_runtime.hpp:123-205 | In every reachable state of every interleaving, the events ever pushed are the handled ones, then the one the control loop has popped, then the queue, in that order; the machine is the fold of `handle` over the handled events; and each thread's entries in that log are exactly its calls that returned `published`, in program order, plus the one about to return |
| `RuntimeTheorems.UniqueOwnership` | include/edge_sentinel/runtime/edge_runtime.hpp:128-204 | In every reachable state a slot is occupied if and only if some handle owns it, no two owners (a caller's local, a ring cell, the control loop's local) share a slot, no release was ever foreign or double, slots in use = queued + callers owning an event + control loop owning one, and allocations = releases + in use |
| `RuntimeTheorems.ShutdownDrains` | include/edge_sentinel/runtime/edge_runtime.hpp:91-120 | Once `stop` has joined the control loop: the queue is closed and empty, everything ever pushed has been handled once, slots in use = callers still owning an event (when all have returned, every object is destroyed), and the motor is in SafeShutdown if and only if a shutdown request was pushed, which holds if stop's own call returned `published` |
| `RuntimeTheorems.DrainedForever` | include/edge_sentinel/runtime/edge_runtime.hpp:91-120 | From then on, whatever late callers do, the queue stays closed and empty and the log and the machine never change again |
| `RuntimeTheorems.ConservationEver` | include/edge_sentinel/runtime/edge_runtime.hpp:123-205 | In every reachable state: calls past the gate = published + dropped + inside; pushed = popped + queued = published + about to be recorded; failures + timeouts + closed rejections = dropped + about to be dropped; allocations = pushed + timeouts + closed rejections + handles not yet through the queue; the maximum latency is the largest one recorded |
| `RuntimeTheorems.Conservation` | include/edge_sentinel/runtime/edge_runtime.hpp:123-152 | With nobody inside `publish` the balances close exactly, and between events the transition count is the number of state changes of the machine over the handled events |
| `RuntimeAnswers.AnswersAgree` | include/edge_sentinel/runtime/edge_runtime.hpp:123-152 | In every reachable state, over all threads and all their calls: calls told `published` = published; calls told anything but `not_running` = published + dropped; calls told `pool_exhausted`, `queue_timeout` or `queue_closed`, each with the callers about to be, = the pool's failures, the queue's timeouts, the closed rejections; nobody is told `queue_full` |
| `RuntimeAnswers.GateAnswers` | include/edge_sentinel/runtime/edge_runtime.hpp:124-126 | A call is told `not_running`, and changes nothing else, exactly before start opens the gate and after stop shuts it; in between it is admitted with its event |
| `RuntimeAnswers.StartAnnounces` | include/edge_sentinel/runtime/edge_runtime.hpp:66-88 | When `start` returns it has published startup and then the passed self test, in that order, and neither call was turned away at the gate |
| `RuntimeTheorems.LatchedAcrossRuns` | include/edge_sentinel/runtime/edge_runtime.hpp:187-205 | Along every continuation of every run: from FaultLatched to a later Healthy or Degraded state the control loop has handled a reset request and, later, a passed self test; SafeShutdown is never left |
| `RuntimeTheorems.ExhaustionNeedsCallers` | include/edge_sentinel/runtime/edge_runtime.hpp:128-132 | For any capacities, `try_create` fails in `publish` only while at least poolCapacity - queueCapacity callers are inside `publish` |
| `RuntimeTheorems.PoolNeverExhausted` | include/edge_sentinel/runtime/edge_runtime.hpp:50-51 | With capacities 256 and 128 and never more than 127 callers inside `publish`, no call of any run is told `pool_exhausted` and no allocation ever fails |
| `RuntimeTheorems.InvariantStep` | include/edge_sentinel/runtime/edge_runtime.hpp:66-205 | Every step of `publish`, `control_loop`, `start`, `stop` and the sensor loop keeps lifecycle order, unique ownership, refinement of the log, program order and the balances, all at once |
| `RuntimeScenarios.CrowdExhaustsPool` | include/edge_sentinel/runtime/edge_runtime.hpp:128-132 | The bound is attained for all capacities: exactly poolCapacity - queueCapacity callers inside `publish` can meet an exhausted pool |
| `RuntimeScenarios.RealCrowdIs128` | include/edge_sentinel/runtime/edge_runtime.hpp:50-51 | With the real capacities 128 callers suffice |
| `RuntimeProgress.StopAlwaysCompletes` | include/edge_sentinel/runtime/edge_runtime.hpp:101-119 | Once the gate is shut, from every reachable state and under every schedule: no run takes more than a computed number of steps other than calls bouncing off the gate, and a run that can take no more of them has seen `stop` return (no deadlock between the joins, the queue and the control loop, and no livelock by late callers) |
| `RuntimeProgress.EveryStepSpends` | include/edge_sentinel/runtime/edge_runtime.hpp:91-205 | Every step of every thread after the gate is shut strictly lowers that number; a bouncing call leaves it |
| `RuntimeProgress.StopCanComplete` | include/edge_sentinel/runtime/edge_runtime.hpp:91-120 | From every state in which `stop` has begun, also while its own request is under way and clients may still publish, the runtime's own threads alone can bring it to its return |
| `RuntimeShutdown.StopRequestFate` | include/edge_sentinel/runtime/edge_runtime.hpp:100-101 | stop's own request always passes the gate and takes a slot if one is free; if the queue has room when its wait ends, SafeShutdown is guaranteed from that step on under every schedule; without a slot or without room it is guaranteed if and only if a shutdown is under way for another reason |
| `RuntimeShutdown.StopGuarantee` | include/edge_sentinel/runtime/edge_runtime.hpp:91-120 | Called in any reachable state, for any capacities and clients, `stop` returns only in SafeShutdown under every schedule if and only if, before the call, the motor is in SafeShutdown or a shutdown request is in flight or queued; the same once its own request is refused and once the gate is shut |
| `RuntimeShutdown.StopMayLeaveMotorRunning` | include/edge_sentinel/runtime/edge_runtime.hpp:91-120 | From every such state without a shutdown under way there is a run in which `stop` returns and the motor is not in SafeShutdown: samples fill the queue or empty the pool, stop's request is refused, and everything is joined and drained |
| `RuntimeShutdown.UnderWayIsAsked` | include/edge_sentinel/runtime/edge_runtime.hpp:123-205 | In every reachable state a shutdown is under way (reached, in flight or queued) if and only if some shutdown request was ever pushed |
| `RuntimeShutdown.RealStopMayFail` | include/edge_sentinel/runtime/edge_runtime.hpp:50-51 | With the real capacities, a runtime that has just been started is such a state |
| `RuntimeLifecycle.LifecycleStep` | include/edge_sentinel/runtime/edge_runtime.hpp:66-120 | The flags, the gate, the closing of the queue, the exits of both loops and the calls made by `start` and `stop` follow their phases; every step keeps this |
| `RuntimeOwnership.PublishKeepsOwnership` | include/edge_sentinel/runtime/edge_runtime.hpp:123-152 | Every step of `publish` moves, creates or releases a handle so that each occupied slot keeps exactly one owner |
| `RuntimeOwnership.ControlKeepsOwnership` | include/edge_sentinel/runtime/edge_runtime.hpp:187-205 | The same for every step of the control loop |
| `RuntimeRefinement.PublishRefines` | include/edge_sentinel/runtime/edge_runtime.hpp:123-152 | No step of `publish` disturbs an event that somebody else owns, and a push appends exactly the caller's event to the log |
| `RuntimeRefinement.ControlRefines` | include/edge_sentinel/runtime/edge_runtime.hpp:187-205 | Popping and handling consume the log in order; releasing an event leaves all others in place |
| `RuntimeRefinement.PublishKeepsOrder` | include/edge_sentinel/runtime/edge_runtime.hpp:134-152 | A caller's log entries stay its published calls in program order; `queue_full` is never reported, because `wait_push` never returns `full` |
| `RuntimeAccounting.InUseIsOwners` | include/edge_sentinel/memory/fixed_object_pool.hpp:133-162 | Unique ownership makes `in_use` the number of owners, counted by kind |
| `RuntimeMetrics.SoundEver` | include/edge_sentinel/runtime/runtime_metrics.hpp:24-35 | In every state of every run of concurrent `record_processed` calls, each latency is covered by the maximum or still being recorded, the maximum is one of them, and the last latency is the one stored most recently, under lost and spuriously failing compare-exchanges |
| `RuntimeMetrics.MaximumIsExact` | include/edge_sentinel/runtime/runtime_metrics.hpp:24-35 | Whenever no call is in progress the maximum is exactly the largest latency ever recorded, the count is the number of calls, and each call has stored its latency once |
| `RuntimeMetrics.FinishesAlone` | include/edge_sentinel/runtime/runtime_metrics.hpp:24-35 | From wherever it stands in the call, a thread left alone finishes it within three steps, and then the maximum is the larger of what it was and its latency |
| `QueueSignalling.NoLostWakeupStep` | include/edge_sentinel/concurrency/bounded_queue.hpp:44-137 | Every locked section, notification after unlock, spurious wake-up and deadline keeps: while open, a sleeping consumer implies size <= due notifies + woken consumers, a sleeping producer implies free cells <= due notifies + woken producers; once closed, a sleeper implies a due `notify_all` |
| `QueueSignalling.NoLostWakeupEver` | include/edge_sentinel/concurrency/bounded_queue.hpp:44-137 | Hence in every state of every run, for any capacity and any threads |
| `QueueSignalling.QuietSleepersMustSleep` | include/edge_sentinel/concurrency/bounded_queue.hpp:65-99 | With no notification due and nobody between waking and testing, no consumer sleeps on a non-empty or closed queue and no producer on a non-full or closed one |
| `QueueSignalling.StepsAreQueueOperations` | include/edge_sentinel/concurrency/bounded_queue.hpp:44-137 | Under all this signalling the queue only ever moves by operations of the bounded sequence |
| `QueueSignalling.InternalStepsSpendWork` | include/edge_sentinel/concurrency/bounded_queue.hpp:54-136 | Every wake-up, re-test and notification strictly lowers a measure of the work left, so threads cannot keep waking each other for ever |
| `QueueSignalling.InternalRunsAreShort` | include/edge_sentinel/concurrency/bounded_queue.hpp:54-136 | Every schedule of such steps is no longer than that measure |
| `QueueSignalling.Settles` | include/edge_sentinel/concurrency/bounded_queue.hpp:54-136 | Left to itself, from any such state, the queue reaches a state where whoever still sleeps has reason to |
| `QueueCalls.PopReturns` | include/edge_sentinel/concurrency/bounded_queue.hpp:95-127 | Over every run, whatever the other threads do: a blocking pop returns by a test of its own; it takes the first value if there is one, and returns empty-handed only from an empty queue that is closed or after its own deadline |
| `QueueCalls.PushReturns` | include/edge_sentinel/concurrency/bounded_queue.hpp:60-81 | Over every run: a blocking push returns by a test of its own; it pushes the value it was called with if the queue is open with room, and returns without pushing only from a closed queue, or from a full one after its own deadline, counting a timeout |
| `QueueCalls.DeadlineEndsPop` | include/edge_sentinel/concurrency/bounded_queue.hpp:111-127 | Once its deadline has struck, the next step of a popping thread is its last one in the call |
| `QueueCalls.DeadlineEndsPush` | include/edge_sentinel/concurrency/bounded_queue.hpp:65-72 | The same for a pushing thread |
| `QueueCalls.TryCallsReturn` | include/edge_sentinel/concurrency/bounded_queue.hpp:44-93 | The non-blocking calls never sleep and owe a notification exactly if they moved a value |
| `BoundedQueue.FifoOverRuns` | include/edge_sentinel/concurrency/bounded_queue.hpp:44-137 | Over every operation sequence: delivered followed by queued = accepted, in order; the size never exceeds the capacity; the watermark is the historical maximum of the size; `pushed`, `popped`, `rejected_full` and `push_timeouts` count exactly the deliveries and the answers given; every push offered to the open queue is told one of these, every other one `closed` |
| `BoundedQueue.PushOutcome` | include/edge_sentinel/concurrency/bounded_queue.hpp:44-81 | For every queue within its capacity: a push is told `closed` if and only if the queue was closed, `full` (without waiting) or `timeout` (at the end of its wait) if and only if it was open and full, `pushed` if and only if it was open with room, and only then adds its value |
| `BoundedQueue.ClosedQueueDrains` | include/edge_sentinel/concurrency/bounded_queue.hpp:83-137 | After `close`, whatever is tried: nothing enters, and the values queued at that moment come out first to last, one per pop |
| `BoundedQueue.PushCell` | include/edge_sentinel/concurrency/bounded_queue.hpp:153-161 | In a ring whose occupied cells are exactly the window of `size` cells from head modulo the capacity, the tail cell is empty, and filling it appends to the contents and widens the window |
| `BoundedQueue.PopCell` | include/edge_sentinel/concurrency/bounded_queue.hpp:163-170 | Emptying the head cell yields the first value, drops it from the contents and narrows the window |
| `BoundedQueue.Ring.constructor` | include/edge_sentinel/concurrency/bounded_queue.hpp:175-180 | A new ring is the empty open queue |
| `BoundedQueue.Ring.PushLockedCell` | include/edge_sentinel/concurrency/bounded_queue.hpp:153-161 | The ring refines appending to a sequence; only the tail cell is written, and it was empty, so no queued value is destroyed |
| `BoundedQueue.Ring.PopLockedCell` | include/edge_sentinel/concurrency/bounded_queue.hpp:163-170 | The ring refines removing the head of a sequence |
| `BoundedQueue.Ring.TryPushValue` | include/edge_sentinel/concurrency/bounded_queue.hpp:44-58 | Refines the non-blocking push: closed, then full, then pushed |
| `BoundedQueue.Ring.WaitPushValue` | include/edge_sentinel/concurrency/bounded_queue.hpp:60-81 | Refines the timed push from the moment its wait ends |
| `BoundedQueue.Ring.PopValue` | include/edge_sentinel/concurrency/bounded_queue.hpp:83-127 | Refines every pop from the moment its wait ends: the first value, or nothing if there is none, closed or not |
| `BoundedQueue.Ring.CloseQueue` | include/edge_sentinel/concurrency/bounded_queue.hpp:130-137 | Closing keeps the queued values |
| `ObjectPool.SoundOverRuns` | include/edge_sentinel/memory/fixed_object_pool.hpp:98-164 | After any sequence of creations and releases (valid, foreign or double): free and occupied slots partition the pool, in use = occupied = allocations - releases, the watermark is the historical maximum, and every operation is counted once as success or failure |
| `ObjectPool.CreateIsSound` | include/edge_sentinel/memory/fixed_object_pool.hpp:120-140 | `try_create` fails if and only if every slot is occupied; otherwise it takes a slot nobody uses and leaves every other object alone |
| `ObjectPool.DestroyIsSound` | include/edge_sentinel/memory/fixed_object_pool.hpp:143-164 | `destroy` releases if and only if the slot holds an object, reports foreign if and only if the address is none of the slots', and removes at most that one object |
| `ObjectPool.LastReleasedFirstReused` | include/edge_sentinel/memory/fixed_object_pool.hpp:129-160 | The slot released last is the first to be used again, and then the free list is as before |
| `ObjectPool.SlotsInOrder` | include/edge_sentinel/memory/fixed_object_pool.hpp:98-140 | A fresh pool hands out its slots in order: the i-th creation gets slot i and its object |
| `ObjectPool.FreeListIsExact` | include/edge_sentinel/memory/fixed_object_pool.hpp:179-206 | Following `next` from the free head visits every unoccupied slot exactly once and no other, then ends at the sentinel |
| `ObjectPool.TakeCell` | include/edge_sentinel/memory/fixed_object_pool.hpp:127-131 | Unlinking the head slot leaves a well-linked list of the others |
| `ObjectPool.ReturnCell` | include/edge_sentinel/memory/fixed_object_pool.hpp:157-160 | Linking a slot in front leaves a well-linked list |
| `ObjectPool.FixedObjectPool.constructor` | include/edge_sentinel/memory/fixed_object_pool.hpp:98-103 | The loop links all slots in order and ends the list with the sentinel: the pool is the fresh pool |
| `ObjectPool.FixedObjectPool.FindSlot` | include/edge_sentinel/memory/fixed_object_pool.hpp:195-206 | The loop finds the slot of an address, or the sentinel for null and foreign addresses |
| `ObjectPool.FixedObjectPool.Unlink` | include/edge_sentinel/memory/fixed_object_pool.hpp:127-131 | The head of the free list is unlinked and holds the object; the list and the other objects stay |
| `ObjectPool.FixedObjectPool.TakeSlot` | include/edge_sentinel/memory/fixed_object_pool.hpp:127-137 | Refines creation on the partial map when a slot is free: same slot, same objects, same statistics |
| `ObjectPool.FixedObjectPool.TryCreateObject` | include/edge_sentinel/memory/fixed_object_pool.hpp:120-140 | The array free list refines creation; the handle returned is new, and it owns the created object or is empty |
| `ObjectPool.FixedObjectPool.ReturnSlot` | include/edge_sentinel/memory/fixed_object_pool.hpp:157-163 | Refines release of an occupied slot |
| `ObjectPool.FixedObjectPool.DestroyObject` | include/edge_sentinel/memory/fixed_object_pool.hpp:143-164 | Refines release, with the three classifications, for every address |
| `ObjectPool.Handle.constructor` | include/edge_sentinel/memory/fixed_object_pool.hpp:92-95 | A handle owns the object it is given |
| `ObjectPool.Handle.Move` | include/edge_sentinel/memory/fixed_object_pool.hpp:47-49 | Moving transfers ownership and empties the source |
| `ObjectPool.Handle.Reset` | include/edge_sentinel/memory/fixed_object_pool.hpp:76-82 | Releases the owned object once and empties the handle, so a second reset changes nothing |
| `ObjectPool.Handle.MoveAssign` | include/edge_sentinel/memory/fixed_object_pool.hpp:51-58 | Releases what was owned, takes over and empties the source; self-assignment changes nothing |
| `ObjectPool.Handle.ReleaseOwnership` | include/edge_sentinel/memory/fixed_object_pool.hpp:84-87 | Gives the address away without releasing |
| `ProtectionRuns.CountersAreHistory` | include/edge_sentinel/fsm/motor_state_machine.hpp:58-193 | Over every event run the counter machine agrees with a counter-free machine that looks back over the samples since the state was entered; each counter is the length of the matching trailing run of samples, and all are zero outside Healthy and Degraded |
| `ProtectionRuns.TrailingIsPersisted` | include/edge_sentinel/fsm/motor_state_machine.hpp:114-152 | A counter reaches k if and only if the last k samples were all in its band |
| `ProtectionRuns.TransitionsFollowDiagram` | include/edge_sentinel/fsm/motor_state_machine.hpp:63-98 | Every report names the state before and after, says `changed` if and only if they differ, gives a reason that labels that edge of the state diagram and fits the event (an online or offline sample, a fault, a request), and any reason other than none means all counters are zero |
| `ProtectionRuns.LastSampleIsKept` | include/edge_sentinel/fsm/motor_state_machine.hpp:107-108 | Over every run the machine holds the last sample that arrived before any shutdown request, in whatever state it arrived, and knows whether there was one |
| `ProtectionRuns.SafeShutdownIsFinal` | include/edge_sentinel/fsm/motor_state_machine.hpp:63-65 | No run leaves SafeShutdown or changes anything in it |
| `ProtectionRuns.ShutdownExactly` | include/edge_sentinel/fsm/motor_state_machine.hpp:63-69 | A run ends in SafeShutdown if and only if it started there or contains a shutdown request |
| `ProtectionRuns.FaultStaysLatched` | include/edge_sentinel/fsm/motor_state_machine.hpp:63-98 | From FaultLatched, SelfTest needs a reset request, and a monitoring state needs a reset request followed later by a passed self test |
| `ProtectionRuns.FaultLatchedOverRuns` | include/edge_sentinel/fsm/motor_state_machine.hpp:63-98 | The same between any two points of a run from power-up |
| `ProtectionRuns.AntiChatter` | include/edge_sentinel/fsm/motor_state_machine.hpp:102-193 | Over every run from power-up, samples >= warning_samples * degradations + recovery_samples * recoveries + critical_samples * critical faults + offline_samples * offline faults, and every counter is backed by samples not yet charged |
| `Hysteresis.NeverRecovers` | include/edge_sentinel/fsm/motor_state_machine.hpp:135-172 | On raw readings: with recovery_samples >= 1, a degraded motor whose samples are each offline or have some reading above its recovery threshold never becomes Healthy, over streams of any length |
| `Hysteresis.Recovers` | include/edge_sentinel/fsm/motor_state_machine.hpp:135-172 | Online samples with every reading within recovery and below the other thresholds make it Healthy, at the recovery count and no earlier |
| `Hysteresis.Degrading` | include/edge_sentinel/fsm/motor_state_machine.hpp:135-160 | Each of the three readings by itself, at or above its warning threshold with none critical, degrades a Healthy motor, at the warning count and no earlier |
| `Hysteresis.StaysHealthy` | include/edge_sentinel/fsm/motor_state_machine.hpp:135-160 | Online readings below all warning and critical thresholds never degrade it |
| `Hysteresis.Latching` | include/edge_sentinel/fsm/motor_state_machine.hpp:126-166 | Each of the three readings by itself, at or above its critical threshold, latches a motor that can neither degrade nor recover meanwhile, at the critical count and no earlier |
| `Hysteresis.NeverLatches` | include/edge_sentinel/fsm/motor_state_machine.hpp:126-166 | Online readings below all critical thresholds never latch it |
| `Hysteresis.OfflineLatches` | include/edge_sentinel/fsm/motor_state_machine.hpp:114-123 | Consecutive offline samples latch it, at the offline count and no earlier |
| `Hysteresis.Bands` | include/edge_sentinel/fsm/motor_state_machine.hpp:156-172 | One reading at or above its threshold makes a sample a warning or critical; all three must be within recovery for it to count as recovered |
| `Hysteresis.DefaultLimits` | include/edge_sentinel/fsm/motor_state_machine.hpp:10-24 | The default thresholds and counts, in numbers |
| `FaultResponse.HealthyResponse` | include/edge_sentinel/fsm/motor_state_machine.hpp:126-153 | For every configuration with critical_samples >= 1, ordered or not: 2 * critical_samples - 1 critical samples latch the fault from wherever a run from power-up is Healthy, if and only if not both (1) the motor can degrade first (critical_samples is not 1, and warning_samples, at least one, is below it or some warning threshold lies below its critical one) and (2) it can recover first (recovery_samples is 0, or it is below critical_samples and some critical reading is no warning and counts as recovered) |
| `FaultResponse.DegradedResponse` | include/edge_sentinel/fsm/motor_state_machine.hpp:126-153 | For every such configuration: critical_samples critical samples latch the fault from wherever a run is Degraded, if and only if not both the motor can degrade first and either recovery_samples is 0 or some critical reading is no warning and counts as recovered |
| `FaultResponse.ResponseIsBounded` | include/edge_sentinel/fsm/motor_state_machine.hpp:126-153 | For every such configuration: some bound on the response from Healthy exists if and only if not both warning_samples (at least one) is below critical_samples and the motor can recover first; then 3 * critical_samples is a bound |
| `FaultResponse.SwingsForever` | include/edge_sentinel/fsm/motor_state_machine.hpp:147-152 | Otherwise there are critical streams of any length that swing a Healthy motor through Degraded back to Healthy with all counters zero |
| `FaultResponse.BoundedResponse` | include/edge_sentinel/fsm/motor_state_machine.hpp:126-153 | If no critical sample can help a degraded motor to recover in time, then from any monitoring state, whatever its counters, a run whose samples are all critical is in FaultLatched or SafeShutdown by its (2 * critical_samples - 1 - count)-th sample from Healthy, (critical_samples - count)-th from Degraded, whatever other events are interleaved |
| `FaultResponse.ExactResponse` | include/edge_sentinel/fsm/motor_state_machine.hpp:126-153 | With ordered thresholds, the state and counts after every number of critical samples from a freshly entered Healthy state, hence the exact response time |
| `FaultResponse.ResponseExactlyWhenResponsive` | include/edge_sentinel/fsm/motor_state_machine.hpp:131-152 | The ordered case: both bounds hold if and only if recovery_samples >= 1, or critical_samples = 1, or warning and critical thresholds coincide and warning_samples >= critical_samples |
| `FaultResponse.UnresponsiveCycles` | include/edge_sentinel/fsm/motor_state_machine.hpp:147-152 | With ordered thresholds, recovery_samples = 0 and degradation before the critical count, where every stream of critical samples stands in its endless swing between Healthy and Degraded |
| `FaultResponse.ResponseBoundIsTight` | include/edge_sentinel/fsm/motor_state_machine.hpp:174-193 | For every critical count >= 2 there is a configuration that latches at sample 2 * critical_samples - 1 and no earlier, because entering Degraded clears the critical count |
| `MotorFsm.MotorStateMachine.constructor` | include/edge_sentinel/fsm/motor_state_machine.hpp:40-40 | A new machine is booting with zero counters |
| `MotorFsm.MotorStateMachine.ResetCounters` | include/edge_sentinel/fsm/motor_state_machine.hpp:188-193 | Zeroes the four counters and nothing else |
| `MotorFsm.MotorStateMachine.TransitionTo` | include/edge_sentinel/fsm/motor_state_machine.hpp:174-181 | Moves, zeroes the counters and reports |
| `MotorFsm.MotorStateMachine.HandleSampleEvent` | include/edge_sentinel/fsm/motor_state_machine.hpp:102-154 | The in-place update, branch by branch, equals the specification of one sample on values |
| `MotorFsm.MotorStateMachine.HandleEvent` | include/edge_sentinel/fsm/motor_state_machine.hpp:58-99 | The in-place update equals the specification of one event on values |
| `UartErrors.PassesIffMultiple` | include/edge_sentinel/protocols/uart_protocol.hpp:83-91 | A frame corrupted behind its magic passes the check if and only if its error pattern is a multiple of the generator polynomial x^16 + x^12 + x^5 + 1 |
| `UartErrors.CorruptionCaught` | include/edge_sentinel/protocols/uart_protocol.hpp:77-91 | From a decoder at position 0 or 1, a frame corrupted behind its magic yields no frame, exactly one CRC error and position 0 if and only if the error is no multiple of the generator; that covers every non-zero burst within 16 bits, every odd number of flipped bits, and any one, two or three flipped bits |
| `UartErrors.TwoBytesAreABurst` | include/edge_sentinel/protocols/uart_protocol.hpp:77-91 | Any change confined to two adjacent bytes is such a burst |
| `UartErrors.TwoBytesAreCaught` | include/edge_sentinel/protocols/uart_protocol.hpp:77-91 | Hence any change to one byte or two adjacent bytes behind the magic of a frame yields no frame, exactly one CRC error and position 0 |
| `UartErrors.CheckIsResidue` | include/edge_sentinel/protocols/uart_protocol.hpp:83-88 | The received check field matches if and only if the check value of all twelve bytes is zero |
| `UartErrors.ErrorAddsUp` | include/edge_sentinel/protocols/uart_protocol.hpp:25-35 | The check value of a corrupted string is that of the original plus that of the error alone |
| `UartErrors.DetectableIsNoMultiple` | include/edge_sentinel/protocols/uart_protocol.hpp:25-35 | No burst within 16 bits, no odd pattern and no pattern of one to three bits, within the 80 protected bits, is a multiple of the generator |
| `Crc16.Crc16Ccitt` | include/edge_sentinel/protocols/uart_protocol.hpp:25-35 | The two nested loops on the register, from the preset FFFF, compute the check value that `CrcIsRemainder` and `KnownFrame` pin down |
| `Crc16.FeedByteLoop` | include/edge_sentinel/protocols/uart_protocol.hpp:28-32 | The inner loop steps the register eight times |
| `Crc16.TurnIsStep` | include/edge_sentinel/protocols/uart_protocol.hpp:30-31 | Test bit 15, shift, reduce by 0x1021 and mask to 16 bits is multiplication by x modulo the generator |
| `Crc16.CrcFeedsBits` | include/edge_sentinel/protocols/uart_protocol.hpp:25-35 | Adding a byte to the top of the register and stepping eight times equals feeding its bits one by one, over every byte string |
| `Crc16.CrcIsRemainder` | include/edge_sentinel/protocols/uart_protocol.hpp:25-35 | The check value is the remainder, with a quotient, of the message times x^16 with the preset 0xFFFF added to its first 16 bits, and no other value is (the division of section 2 of ITU-T Recommendation V.41, here with a preset) |
| `UartKnownAnswer.KnownFrame` | include/edge_sentinel/protocols/uart_protocol.hpp:25-57 | The frame for a temperature of 1.000 with sequence number 1 is AA 55 01 01 00 01 00 00 03 E8 AF BC |
| `UartKnownAnswer.WireFormat` | include/edge_sentinel/protocols/uart_protocol.hpp:14-57 | Every frame: AA 55, version 01, the kind as 1 to 4, sequence number and two's complement value most significant byte first, and the check value from the preset FFFF |
| `Crc16.PowerIsNotOne` | include/edge_sentinel/protocols/uart_protocol.hpp:25-35 | The period of x modulo the generator exceeds the 80 protected bits of a frame, which is what catches every two-bit error |
| `Gf2.StepLinear` | include/edge_sentinel/protocols/uart_protocol.hpp:30-31 | One register step is linear |
| `Gf2.StepKernel` | include/edge_sentinel/protocols/uart_protocol.hpp:30-31 | Only zero steps to zero, which with linearity makes the step injective |
| `Gf2.StepParity` | include/edge_sentinel/protocols/uart_protocol.hpp:30-31 | One register step preserves parity |
| `UartStream.DecoderIsExact` | include/edge_sentinel/protocols/uart_protocol.hpp:61-116 | Every byte stream is cut without loss into skipped bytes, exact encodings of the emitted frames in order, windows counted as CRC errors, windows counted as format errors, and the bytes now buffered; so bytes fed = 12 * (frames + CRC errors + format errors) + skipped + position |
| `UartStream.EmissionIsLastTwelve` | include/edge_sentinel/protocols/uart_protocol.hpp:61-116 | Whenever a frame is emitted, the last twelve bytes fed are its encoding |
| `UartResync.NoisyRoundTrip` | include/edge_sentinel/protocols/uart_protocol.hpp:37-76 | For every list of frames of any kind, sequence and value, each preceded by any noise that does not contain AA 55, a fresh decoder emits exactly those frames in order, with both error counts zero |
| `UartResync.NoiseAfterwards` | include/edge_sentinel/protocols/uart_protocol.hpp:61-76 | The same with noise after the last frame |
| `UartResync.WindowSpent` | include/edge_sentinel/protocols/uart_protocol.hpp:61-116 | A decoder caught inside a window is at position 0 or 1 after the next twelve bytes if and only if what they hold behind that window does not contain AA 55; at most one frame is made up of the mixture |
| `UartResync.AlignsExactly` | include/edge_sentinel/protocols/uart_protocol.hpp:61-116 | A frame aligns the decoder from every state if and only if AA 55 occurs in it only at its start |
| `UartResync.Resynchronises` | include/edge_sentinel/protocols/uart_protocol.hpp:61-116 | From any decoder state, on back-to-back frames of which only the first is restricted, and only in what it holds behind the decoder's window, every frame after the first is emitted exactly; from position 0 or 1 the first is too, with no restriction |
| `UartResync.ResynchronisesAfter` | include/edge_sentinel/protocols/uart_protocol.hpp:61-116 | From any decoder state and after any frames, all frames after any one frame that holds AA 55 only at its start are emitted exactly |
| `UartResync.ResynchronisesOnCleanStream` | include/edge_sentinel/protocols/uart_protocol.hpp:61-116 | In particular every frame after the first, if AA 55 occurs only at frame starts |
| `UartResync.NeverResynchronises` | include/edge_sentinel/protocols/uart_protocol.hpp:61-116 | Without such a frame there may be no end: joining a repeated frame whose sequence number is AA55 at that number, the decoder rejects every window and never emits a frame, however long it listens |
| `UartResync.NoiseIgnored` | include/edge_sentinel/protocols/uart_protocol.hpp:62-75 | Noise without AA 55 leaves frames and error counts alone and a hunting decoder at position 0 or 1 |
| `UartResync.WindowJudged` | include/edge_sentinel/protocols/uart_protocol.hpp:61-91 | A hunting decoder judges any twelve bytes that start with the magic |
| `UartProtocol.EncodedIsGood` | include/edge_sentinel/protocols/uart_protocol.hpp:37-57 | What `encode_uart_frame` writes is judged to be that frame, for every kind, 16-bit sequence and signed 32-bit value |
| `UartProtocol.GoodIsEncoded` | include/edge_sentinel/protocols/uart_protocol.hpp:83-115 | Twelve bytes that start with the magic are judged to be a frame only if they are its encoding |
| `UartProtocol.EncodeUartFrame` | include/edge_sentinel/protocols/uart_protocol.hpp:37-57 | The array filled in place is the encoding |
| `UartProtocol.FillPayload` | include/edge_sentinel/protocols/uart_protocol.hpp:40-51 | The first ten bytes: magic, version, kind, and the big-endian sequence and value |
| `UartProtocol.UartFrameDecoder.constructor` | include/edge_sentinel/protocols/uart_protocol.hpp:127-130 | A new decoder is at position 0 with no errors |
| `UartProtocol.UartFrameDecoder.Feed` | include/edge_sentinel/protocols/uart_protocol.hpp:61-116 | The in-place decoder equals the specification of one byte on values; bytes beyond the position do not matter |
| `UartProtocol.UartFrameDecoder.Collect` | include/edge_sentinel/protocols/uart_protocol.hpp:77-81 | Bytes after the magic are collected; the twelfth closes the window and returns to position 0 |
| `UartProtocol.UartFrameDecoder.JudgeBuffer` | include/edge_sentinel/protocols/uart_protocol.hpp:83-115 | CRC, then version, then kind; exactly one error counter moves when a window is rejected, none when it is accepted |

## Left out

- The Linux adapters, the applications, the command parser, the CAN and I2C codecs and the simulated sensor: system calls, formatting and single-step decodes that would only add easy members.
- `decode_uart_measurement`, the statistics and snapshot getters: they only read and convert.
- The monitor thread and its tick count: it only reads statistics.
- Calls of `start` after the first and of `stop` after the first: they return at once and change nothing; the steps modelled are those of the calls that pass the lifecycle check.
- The destructors of the pool and of the runtime: the first runs after every handle is gone, the second only calls `stop`.
- Wall-clock time: a timeout is a step that may happen at any time the condition does not hold, stop's wait for SafeShutdown may end at any time, and a latency is any natural number.
- Memory orders, raw storage and object lifetimes: atomic operations are atomic steps, and slot addresses are distinct non-null values.
- NaN and rounding of sensor readings: readings are real numbers.
- Wrap-around of `size_t` and 64-bit counters: they are natural numbers.
- Blocking inside the runtime's step system: `publish` takes one step when the wait of `wait_push` ends, and the control loop takes one when it can pop; what happens during the waits is modelled in `QueueSignalling`.
- The sensor loop's stop token: after a stop request the model lets the loop publish further samples before it leaves, which the code cuts to at most one; what is proved of all runs holds of this larger set, and no run built to show that something can happen uses such samples.
- A runtime built without a sensor source: the model's sensor loop always has one, and the failing runs of `StopGuarantee` use its samples.
- Fairness: that the scheduler goes on running threads that can take a step is not modelled; `StopAlwaysCompletes` and `InternalRunsAreShort` hold of every schedule, and before the gate is shut clients may publish for ever.
- RuntimeMetrics.MaximumIsExact: `record_processed` is modelled as steps on values and not as a class with a loop, because its retry loop has no bound when the weak exchange fails spuriously; in the runtime's step system the whole call is one step, as only the control loop makes it.
- BoundedQueue.Ring.WaitPushValue: takes what the timed wait returned as an argument, the value of its predicate at that moment; the waiting itself is in `QueueSignalling`.
- RuntimeProgress.StopCanComplete: while stop's own request is under way only the existence of a completing run is stated, since clients may keep the queue full for ever; from the moment the gate is shut `StopAlwaysCompletes` covers every run.
