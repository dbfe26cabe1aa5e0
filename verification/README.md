# Dual-core gateway: a verified model

A gateway runs Linux and an RTOS on two cores of one chip. Linux's adapters put
messages into blocks of a shared frame pool and publish them on per-interface RX
rings; the RTOS takes them, routes them by priority, and publishes them on TX
rings or gives the blocks back on a reclaim ring; Linux sends what arrives on
the TX rings and frees the blocks. This project models that path, the CAN
fragmentation and the TCP framing in front of it, and proves what they keep.

| file | models |
|---|---|
| `Types.dfy` | widths, sizes and the queue item shared by the other files |
| `SequenceNumbers.dfy`, `RingProtocol.dfy` | 32-bit sequence numbers; one shared-memory ring: producer and consumer as interleaved single steps, and the ring operations as they run |
| `LinuxPool.dfy`, `LinuxIpc.dfy` | Linux's bookkeeping of the frame pool; the calls on it as they run; the egress worker |
| `Tracking.dfy`, `PipelineOrder.dfy` | descriptors, the places a block can be in; commit order along the pipeline |
| `Gateway.dfy` | the whole system as a state machine of Linux and RTOS steps, and its invariant |
| `GatewayRtos.dfy`, `GatewayLinux.dfy` | each kind of step keeps the invariant |
| `GatewayLaws.dfy`, `Delivery.dfy` | the laws over all runs; how a message gets through |
| `UpdateFailures.dfy` | what a failing pending update does to single ownership |
| `RingComposition.dfy`, `Composition.dfy`, `TaskComposition.dfy` | how the ring protocol, the scheduling queue and the RTOS tasks meet the gateway model |
| `PriorityQueue.dfy`, `QueueRounds.dfy` | the quota scheduler, an array kept in arrival order; its turns and rounds as a run shows them |
| `Router.dfy`, `Admission.dfy`, `RouterCore.dfy` | submit, schedule with bounded retry, drain, reclaim; which inputs are queued, why others are given back and where items are sent; the router as it is kept, with 32-bit counters |
| `Tasks.dfy`, `Orphans.dfy`, `RecoveryRate.dfy` | frame references, frozen reclaims, recovery; references that nothing holds; how fast a recovery is |
| `Runtime.dfy`, `Watch.dfy`, `Throughput.dfy` | one round of the runtime; what makes it leave NORMAL; what it receives and sends |
| `Latency.dfy` | the latency window and its percentiles |
| `CanReassembly.dfy`, `CanAnswers.dfy`, `CanAdapter.dfy` | CAN sessions and their laws; what each frame does, on its bytes and the sessions' fields; sender and receiver as they run |
| `TcpFramer.dfy` | the length-prefixed stream framer |
| `Crc16.dfy`, `CrcPolynomial.dfy` | CRC-16/CCITT-FALSE; its value as a polynomial remainder |

Code that changes state in place is a class whose methods are proved equal to a
specification function on values; the laws are lemmas about those functions and
about the runs they form. For what a specification function decides (a refusal, a timeout, a
quota, a mode) a law says the outcome on the fields of the input and the state, in
both directions and without the function. What lies outside (the sinks' answers, clocks, ring
room seen by the RTOS tasks, route decisions, the region header) is a parameter
that the laws quantify over.

## Hypotheses

- Cache operations and atomic updates succeed; a notification may fail. Ownership
  depends on the pending update: a producer whose update fails has already
  advanced write_seq, but reports that nothing was sent.
  `UpdateFailures.PendingUpdateNeeded` follows such an item through any further
  offers and the give-back: before Linux looks, its block is in exactly one place
  if and only if no descriptor was written whose update failed.
  `UpdateFailures.ReclaimUpdateNeeded` and `UpdateFailures.RewriteUpdateNeeded`
  say the same of the reclaim ring.
- In the gateway model ring headers stay valid, so the reclaim sink never fails
  for another reason than a full ring. The tasks' model lets it fail:
  `Orphans.OrphanExactlyWhen` shows that this, and nothing else, leaves a
  reference that is neither queued nor frozen.
- A descriptor the RTOS took from an RX ring can be turned into a route input. If
  it cannot, the code forgets the reference and gives nothing back
  (`rtos_firmware/tasks/rtos_tasks.c:367-377`); only a descriptor that fails the
  checks which every committed one passes gets there.
- Linux's calls exclude each other; the RTOS may step in the middle of any of
  them. Memory is sequentially consistent.
- The gateway state machine covers one Linux epoch.
- Queue order per priority needs arrival times that do not run backwards:
  `PriorityQueue.FifoExactlyWhen` gives the exact condition and
  `PriorityQueue.WrappedClockReorders` a case where a clock wrap breaks it.
- An adapter writes into a block only between allocating and committing it.

## Results that say where the code stops

- A descriptor published into an empty ring is not always announced by a
  doorbell: `RingProtocol.DoorbellMissed` is a run that ends with a waiting
  descriptor, a resting consumer and no doorbell. The doorbell rings if and only
  if the ring was empty at the producer's look and the notification is heard
  (`RingProtocol.DoorbellExactlyWhen`), so it is missing for a ring that is empty
  at publication if and only if the notification is lost or the consumer removed
  everything since the look (`RingProtocol.UnannouncedExactlyWhen`). Only the
  pending bit always tells.
- A recovery whose re-attach fails can be stranded: attaching checks more of the
  region than the error monitor does, and no round resumes a recovery that is
  active in DEGRADED with nothing frozen unless something makes it pending again.
  `Runtime.RoundsRecoverExactlyWhen` shows that otherwise 64 rounds lead back to
  NORMAL.
- Slot indices continue across the 2^32 wrap exactly for depths that divide 2^32
  (`SequenceNumbers.SlotsContinueExactlyWhen`).
- A route table replaced under the same route epoch does not reach items already
  queued: they go to the interface looked up when they were queued
  (`Admission.RoutedByTableExactlyWhen`).
- A ninth CAN key takes the eldest session whatever it still waits for
  (`CanReassembly.NinthKeyEvicts`); eight keys never disturb each other.

## Model

| member | source | states |
|---|---|---|
| GatewayLaws.ExactlyOnePlace | linux_app/ipc/linux_shm_ipc.c:959-1503 | in every reachable state of interleaved Linux and RTOS steps, a block is either with Linux and in no ring and no RTOS place, or in exactly one ring or RTOS place, once: no leak, no double free |
| GatewayLaws.NeverAFault | rtos_firmware/tasks/rtos_tasks.c:61-395 | no descriptor is ever rejected, no reference missing, no list overflows, no reclaim frozen twice, no release inside a reclaim fails; the pool counters balance |
| GatewayLaws.EndToEnd | linux_app/ipc/linux_shm_ipc.c:1313-1414 | each delivery is a committed message byte for byte, delivered once and on one TX ring only; per source interface, priority and TX ring deliveries come in commit order |
| GatewayLaws.NothingLost | linux_app/ipc/linux_shm_ipc.c:1038-1105 | every committed message is still in its block, or was delivered on exactly the ring its fate names, or was reclaimed |
| GatewayLaws.AlwaysAccepted | linux_app/ipc/linux_shm_ipc.c:1365-1479 | in every reachable state, whatever waits at the head of a TX ring or the reclaim ring when Linux next looks passes all of its checks |
| Delivery.MessageGetsThrough | linux_app/ipc/linux_shm_ipc.c:959-1414 | from every state that is clear for a message, twelve steps of the two sides bring its bytes unchanged to the adapter of its target; the block is free again and nothing else is different |
| GatewayLinux.TxHead | linux_app/ipc/linux_shm_ipc.c:1365-1395 | the head of any TX ring passes all of Linux's acceptance checks, for the original source and the routed target |
| GatewayLinux.ReclaimHead | linux_app/ipc/linux_shm_ipc.c:1466-1502 | the head of the reclaim ring passes all of Linux's checks, and the release whose result Linux ignores succeeds |
| GatewayRtos.QueueHasRoom | rtos_firmware/router/rtos_router_core.c:382-398 | a frame in hand always finds the 64-entry queue with room, so eviction and queue-full never happen in the whole system |
| GatewayRtos.FrozenHasRoom | rtos_firmware/tasks/rtos_tasks.c:132-167 | a frame in hand is never frozen already and the frozen list always has room, so the blocked branch is unreachable |
| GatewayLaws.NoOrphans | rtos_firmware/tasks/rtos_tasks.c:760-806 | between tasks the RTOS keeps a reference exactly to queued and frozen blocks, so recovery finds no orphans |
| GatewayLaws.StepInv | linux_app/ipc/linux_shm_ipc.c:959-1503 | every single Linux or RTOS step keeps placement, bookkeeping, references, order, deliveries and accounts |
| UpdateFailures.PendingUpdateNeeded | rtos_firmware/ipc/rtos_shm_ipc.c:1182-1194 | an item offered any number of times and then given back leaves its block in exactly one place, once, if and only if its ring was full or the first offer written had its pending update succeed |
| UpdateFailures.ReclaimUpdateNeeded | rtos_firmware/ipc/rtos_shm_ipc.c:999-1014 | a frame given back leaves its block in exactly one place, once, after the orphan scan if and only if the pending update succeeded or the reclaim ring was full |
| UpdateFailures.RewriteUpdateNeeded | rtos_firmware/tasks/rtos_tasks.c:545-602 | the oldest frozen reclaim is in exactly one place, once, after a retry if and only if the pending update succeeded or the reclaim ring was full |
| GatewayRtos.MovesPlaced | rtos_firmware/tasks/rtos_tasks.c:332-395 | moving a descriptor from one place to the end of another keeps every place exact |
| GatewayRtos.SendTxInOrder | rtos_firmware/tasks/rtos_tasks.c:226-262 | publishing the item in hand keeps commit order on its TX ring and on every other |
| GatewayRtos.ScheduleInOrder | rtos_firmware/queue/rtos_priority_queue.c:232-270 | taking the first item of a class past items of other classes keeps commit order per source and priority |
| Composition.ScheduleIsDequeue | rtos_firmware/queue/rtos_priority_queue.c:55-85 | with arrival times that do not run backwards, the scheduler's dequeue takes the first item of its class and leaves the rest as they were |
| Composition.OwnershipHolds | rtos_firmware/tasks/rtos_tasks.c:61-167 | a gateway state gives the RTOS tasks the ownership their laws start from: queued and frozen frames are referenced, distinct and disjoint |
| Composition.ReclaimSinkIsSteps | rtos_firmware/tasks/rtos_tasks.c:271-322 | giving back a frame in hand is, in the gateway, publish and clear when the ring has room, freeze when it has not, exactly as the tasks model says |
| TaskComposition.TxSinkIsSteps | rtos_firmware/tasks/rtos_tasks.c:226-262 | the TX sink is, in the gateway, publish and clear when the ring takes the frame, and no change when it does not |
| TaskComposition.ReceiveIsSteps | rtos_firmware/tasks/rtos_tasks.c:332-395 | receiving a routable descriptor is taking it from the RX ring and queueing it |
| TaskComposition.RefusalIsSteps | rtos_firmware/tasks/rtos_tasks.c:332-395 | receiving a descriptor that cannot be routed is taking it and going through the reclaim sink |
| TaskComposition.TakenIsSchedule | rtos_firmware/router/rtos_router_core.c:525-555 | what dispatch and recovery take from the queue is a scheduling step; the item keeps its target unless the routes of the moment name another |
| TaskComposition.RetryIsRun | rtos_firmware/tasks/rtos_tasks.c:545-602 | the whole retry of frozen reclaims is a run of the gateway |
| TaskComposition.NoOrphansSeen | rtos_firmware/tasks/rtos_tasks.c:760-806 | in the gateway the orphan scan of recovery has nothing to do |
| RingComposition.GatewayStepIsRingStep | rtos_firmware/ipc/rtos_shm_ipc.c:1094-1308 | a gateway step that changes a ring is the step of its protocol that advances write_seq or the one that advances read_seq |
| RingComposition.StepCarries | rtos_firmware/ipc/rtos_shm_ipc.c:1094-1308 | publishing appends to what a ring holds, advancing removes the oldest, which is what was copied, and no other protocol step shows |
| SequenceNumbers.SlotsContinueExactlyWhen | rtos_firmware/ipc/rtos_shm_ipc.c:1165-1172 | consecutive sequence numbers use consecutive slots across the 2^32 wrap if and only if the depth divides 2^32 |
| SequenceNumbers.IndexSurvivesWrap | rtos_firmware/ipc/rtos_shm_ipc.c:1165-1172 | reducing a count to 32 bits does not move its slot |
| RingProtocol.StepInv | rtos_firmware/ipc/rtos_shm_ipc.c:1094-1308 | every single producer or consumer step, however stale the other side's sequence number was when read, keeps occupancy, slot contents and announcement |
| RingProtocol.StepIsFifo | rtos_firmware/ipc/rtos_shm_ipc.c:1094-1308 | each step is a bounded-FIFO step: publishing appends below the depth, advancing removes the oldest, which is what was read, nothing else changes anything |
| RingProtocol.RefinesBoundedFifo | rtos_firmware/ipc/rtos_shm_ipc.c:1094-1308 | over every interleaving and any number of wraps, what came out is a prefix of what went in and at most depth are between |
| RingProtocol.IdleNonEmptyIsPending | rtos_firmware/ipc/rtos_shm_ipc.c:579-638 | with both sides idle a non-empty ring has its pending bit set |
| RingProtocol.StoreInv | rtos_firmware/ipc/rtos_shm_ipc.c:1165-1172 | writing a slot overwrites nothing unread |
| RingProtocol.DoorbellMissed | linux_app/ipc/linux_shm_ipc.c:1259-1298 | a run with a stale empty-look ends with a waiting descriptor, both sides idle and no doorbell: only the pending bit is reliable |
| RingProtocol.DoorbellExactlyWhen | linux_app/ipc/linux_shm_ipc.c:1259-1298 | with any steps of the consumer in between, an enqueue rings the doorbell if and only if the ring was empty at its look and the notification is heard |
| RingProtocol.UnannouncedExactlyWhen | linux_app/ipc/linux_shm_ipc.c:1259-1298 | a descriptor published into an empty ring goes unannounced if and only if the notification is not heard or the consumer emptied the ring since the look |
| RingProtocol.EnqueueRuns | rtos_firmware/ipc/rtos_shm_ipc.c:1094-1210 | an enqueue run without a break, as a single change of the ring |
| RingProtocol.DequeueRuns | rtos_firmware/ipc/rtos_shm_ipc.c:1221-1308 | a dequeue run without a break, as a single change of the ring; the pending bit is cleared exactly when it empties |
| RingProtocol.DescriptorRing.Enqueue | rtos_firmware/ipc/rtos_shm_ipc.c:1094-1210 | the call is the uninterrupted producer run: full exactly at depth, otherwise the descriptor is appended |
| RingProtocol.DescriptorRing.Dequeue | rtos_firmware/ipc/rtos_shm_ipc.c:1221-1308 | the call is the uninterrupted consumer run: removes the oldest and returns it if it is sound; a corrupt or malformed one is removed and reported |
| LinuxPool.AllocExact | linux_app/ipc/linux_shm_ipc.c:959-1019 | allocation succeeds exactly when the interface has quota and a block is free, hands out the lowest, and the books balance |
| LinuxPool.ReleaseExact | linux_app/ipc/linux_shm_ipc.c:1115-1174 | release succeeds exactly for a block in use that is not with the RTOS; a second release is refused; the books balance |
| LinuxPool.QuotasAddUp | linux_app/ipc/linux_shm_ipc.c:959-1174 | the interface quota counters add up to the pool counter, which never exceeds 64 |
| LinuxIpc.FramePool.Allocate | linux_app/ipc/linux_shm_ipc.c:959-1019 | the call on the arrays is the specified allocation |
| LinuxIpc.FramePool.ReleaseFrame | linux_app/ipc/linux_shm_ipc.c:1115-1174 | the call on the arrays is the specified release |
| LinuxIpc.CommitExact | linux_app/ipc/linux_shm_ipc.c:1038-1105 | on the block's own fields: refused unless allocated to this interface, then for a length outside 40..512, then for a full ring; each answer exactly when its condition is the first that applies, and otherwise the block is queued |
| LinuxIpc.TakeExact | linux_app/ipc/linux_shm_ipc.c:1313-1414 | the head of a TX ring is accepted exactly when it is intact, meant for this ring, has a block's extent, and its block is with the RTOS for the interface it names |
| LinuxIpc.TakeBackExact | linux_app/ipc/linux_shm_ipc.c:1423-1503 | the head of the reclaim ring frees its block exactly when it is intact and the block is with the RTOS under the same source and target |
| LinuxIpc.FramePool.CommitRx | linux_app/ipc/linux_shm_ipc.c:1038-1105 | publishes exactly a block allocated by the same interface with a legal length and room in the ring; otherwise nothing changes |
| LinuxIpc.FramePool.TakeTx | linux_app/ipc/linux_shm_ipc.c:1313-1414 | takes the oldest TX descriptor if its CRC is right and it passes every check, and consumes it either way |
| LinuxIpc.FramePool.TakeReclaim | linux_app/ipc/linux_shm_ipc.c:1423-1503 | frees the block of the oldest reclaim descriptor if its CRC and reason are right and it passes every check, and consumes it either way |
| LinuxIpc.CommitIsSteps | linux_app/ipc/linux_shm_ipc.c:1184-1301 | the gateway's commit steps without interruption are the call |
| LinuxIpc.TakeIsSteps | linux_app/ipc/linux_shm_ipc.c:1313-1414 | the gateway's TX-take steps without interruption are the call |
| LinuxIpc.TakeBackIsSteps | linux_app/ipc/linux_shm_ipc.c:1423-1503 | the gateway's reclaim-take steps without interruption are the call |
| LinuxIpc.TakeAndRelease | linux_app/egress/egress_worker.c:197-216 | a block just taken from a TX ring can always be released |
| LinuxIpc.DrainOnce | linux_app/egress/egress_worker.c:218-297 | every dequeued frame is released exactly once whatever validation and sending say, no release fails, no block stays TX_READY |
| PriorityQueue.ScanSucceeds | rtos_firmware/queue/rtos_priority_queue.c:232-270 | on every valid non-empty queue four scheduler positions suffice, so the eight scans never give up and the recursive call is never taken |
| PriorityQueue.NoStarvation | rtos_firmware/queue/rtos_priority_queue.c:232-270 | while a class has an item waiting, at most the sum of the other quotas is served before it: 24, 28, 32, 36 with the defaults, from any reachable scheduler state |
| PriorityQueue.BudgetFalls | rtos_firmware/queue/rtos_priority_queue.c:232-270 | each dequeue of another class uses up part of what may pass a waiting class |
| QueueRounds.ServedInTurns | rtos_firmware/queue/rtos_priority_queue.c:232-270 | over every run, a class once taken up is served until its quota of items was served or none is left, and then the next class in cyclic order that has items |
| QueueRounds.RoundSharesExact | rtos_firmware/queue/rtos_priority_queue.c:232-270 | between two services that open consecutive rounds, a class that stays non-empty is served exactly its quota |
| PriorityQueue.RunIsFifoPerClass | rtos_firmware/queue/rtos_priority_queue.c:186-270 | over every run, what left a class followed by what is stored is what was stored followed by what entered, in order |
| PriorityQueue.FifoExactlyWhen | rtos_firmware/queue/rtos_priority_queue.c:55-85 | a dequeue is FIFO in its class if and only if no later item carries a smaller raw enqueue time |
| PriorityQueue.FullExactlyWhen | rtos_firmware/queue/rtos_priority_queue.c:122-146 | a newcomer is turned away from a full queue if and only if every stored item is more important or of priority 0 |
| PriorityQueue.EvictionExact | rtos_firmware/queue/rtos_priority_queue.c:186-223 | an eviction removes exactly the oldest item of the least important class present, not more important than the newcomer and never priority 0 |
| PriorityQueue.VictimClassFound | rtos_firmware/queue/rtos_priority_queue.c:122-146 | the class scan finds the least important non-empty class at or below the newcomer's importance, if there is one |
| PriorityQueue.Queue.Put | rtos_firmware/queue/rtos_priority_queue.c:186-223 | the array operation is the specified enqueue |
| PriorityQueue.Queue.TakeNext | rtos_firmware/queue/rtos_priority_queue.c:232-270 | the array operation is the specified dequeue |
| PriorityQueue.Queue.RemoveIndex | rtos_firmware/queue/rtos_priority_queue.c:94-112 | compacting the array removes exactly one item |
| Router.RunConserves | rtos_firmware/router/rtos_router_core.c:332-555 | over every run and any sink and clock behaviour, every submission of a frame was routed, reclaimed or is queued, for each single frame and for all |
| RouterCore.CounterLaws | rtos_firmware/router/rtos_router_core.c:68-80 | modulo 2^32: submitted = routed + reclaimed + queued; reclaimed = sum of reasons; routed = sum by interface = sum by priority |
| Router.PartsAddUp | rtos_firmware/router/rtos_router_core.c:68-80 | reasons add up to reclaims, interfaces and priorities to routings |
| Router.TransmitExact | rtos_firmware/router/rtos_router_core.c:444-484 | an item is offered at most limit + 1 times and is routed exactly when one of those offers is taken; otherwise it is reclaimed |
| Router.SubmitExact | rtos_firmware/router/rtos_router_core.c:332-402 | a submission leaves the queue alone and gives the input back, or queues it last and either changes nothing else or removes and gives back exactly one queued item |
| Admission.SubmissionJudged | rtos_firmware/router/rtos_router_core.c:332-402 | on the input's own fields: queued if and only if well formed, trusted, of the current epoch, younger than its TTL, no heartbeat, routable, and the queue has room or an item that gives way; each of the six reasons is recorded if and only if its condition is the first that applies |
| Admission.GivenBackEvents | rtos_firmware/router/rtos_router_core.c:332-402 | an input that is not queued leaves nothing but its own reason, and before it the heartbeat it may have been |
| Admission.StoredExact | rtos_firmware/router/rtos_router_core.c:332-402 | a queued input is stored last with its own fields and the interface its address reaches; one that is not queued leaves the queue alone |
| Router.SubmitConserves | rtos_firmware/router/rtos_router_core.c:332-402 | a submission keeps conservation, for each frame and for all |
| Router.ScheduleExact | rtos_firmware/router/rtos_router_core.c:411-484 | a scheduled item leaves the queue and ends routed or given back; it is routed exactly when it has not expired, has a route and one of its offers is taken |
| Admission.ScheduledExact | rtos_firmware/router/rtos_router_core.c:411-484 | an item is given back with reason 3 if and only if it is too old, with 2 if and only if its address has no route now, and otherwise it is routed to the interface the current table names if and only if one of its 4 - priority offers is taken, and given back with 6 if none is |
| Admission.RunCurrent | rtos_firmware/router/rtos_router_core.c:593-612 | over every run in which a new table carries a route epoch no queued item has, queued items of the table's epoch carry the interface it names and no retries |
| Admission.RoutedByTableExactlyWhen | rtos_firmware/router/rtos_router_core.c:435-443 | a routed item went where the table of the moment says if and only if it was queued under another route epoch or its own target is the one the table names |
| Admission.LookupExact | rtos_firmware/router/rtos_router_table.c:91-120 | an address has a route to an interface if and only if the valid table names that interface for its segment: six segments of 0x20 first bytes from 0x20 to 0xDF |
| Admission.DefaultRoutes | rtos_firmware/router/rtos_router_table.c:29-45 | the table a router starts with sends segment k to interface k - 1 |
| Router.ScheduleConserves | rtos_firmware/router/rtos_router_core.c:411-484 | scheduling keeps conservation whatever the sink does |
| Router.DrainConserves | rtos_firmware/router/rtos_router_core.c:493-515 | a drain conserves and handles as many items as there are, up to its budget, when the reclaim sink takes everything |
| Router.ReclaimsConserve | rtos_firmware/router/rtos_router_core.c:525-555 | reclaiming queued items conserves; it stops only when the budget or the queue is used up or the sink refuses an item |
| RouterCore.Core.Submit | rtos_firmware/router/rtos_router_core.c:332-402 | the call is the specified submission; its last event is judged by the input's own fields; it reports an error exactly if the input was not queued and the reclaim sink refused it |
| RouterCore.Core.Statistics | rtos_firmware/router/rtos_router_core.c:68-102 | the counters read at any time between calls obey the counter laws |
| RouterCore.Core.ScheduleOnce | rtos_firmware/router/rtos_router_core.c:411-484 | the call is the specified scheduling step |
| RouterCore.Core.Offer | rtos_firmware/router/rtos_router_core.c:444-484 | the retry loop is the specified transmission |
| RouterCore.Core.Drain | rtos_firmware/router/rtos_router_core.c:493-515 | the loop is the specified drain |
| RouterCore.Core.ReclaimQueued | rtos_firmware/router/rtos_router_core.c:525-555 | the loop is the specified reclaim |
| Tasks.RunKeeps | rtos_firmware/tasks/rtos_tasks.c:545-602 | over every run: NORMAL means nothing frozen and no active recovery; queued and frozen frames are referenced, distinct and disjoint; the router is on the last epoch seen unless a recovery is due |
| Tasks.InitialKeeps | rtos_firmware/tasks/rtos_tasks.c:408-438 | the same from a freshly initialised context |
| Tasks.RecoverExact | rtos_firmware/tasks/rtos_tasks.c:1056-1141 | recovery ends in NORMAL only with empty queue, nothing frozen, no reference and the region's epoch; blocked exactly while something is frozen, in recovery exactly while something else is left; with budget and room for its first reclaim it gives back at least one reference |
| Tasks.RecoveryTerminates | rtos_firmware/tasks/rtos_tasks.c:1056-1141 | with Linux draining and a region that can be attached to, 64 calls with positive budget reach NORMAL |
| RecoveryRate.RecoverRate | rtos_firmware/tasks/rtos_tasks.c:1056-1141 | while Linux drains, one call gives back exactly min(budget, references) over its three phases and reaches NORMAL exactly when that leaves none |
| RecoveryRate.RecoveryTakesExactly | rtos_firmware/tasks/rtos_tasks.c:1056-1141 | while Linux drains, n calls reach NORMAL if and only if n times the budget covers the references |
| Runtime.RoundsRecoverExactlyWhen | rtos_firmware/tasks/rtos_runtime.c:246-312 | with Linux draining and a region that can be attached to, a due recovery is back in NORMAL within 64 periodic rounds, whatever budgets are configured, if and only if it is not stranded |
| Runtime.StrandedStays | rtos_firmware/tasks/rtos_runtime.c:246-312 | a recovery that is active in DEGRADED, not pending and with nothing frozen stays so in every round |
| Runtime.FailedAttachStrands | rtos_firmware/tasks/rtos_tasks.c:1110-1120 | a recovery is stranded when attaching fails after everything was given back |
| Tasks.ClearGives | rtos_firmware/tasks/rtos_tasks.c:1080-1100 | the three clearing phases under one budget keep the books and make progress |
| Tasks.RetryGives | rtos_firmware/tasks/rtos_tasks.c:545-602 | frozen reclaims are written oldest first and the rest keeps its order; the list empties into NORMAL exactly if no recovery is due |
| Tasks.RoomForOneMore | rtos_firmware/tasks/rtos_tasks.c:132-167 | pigeonhole: a frame in hand leaves room in the frozen list and in the queue |
| Tasks.SinkTakes | rtos_firmware/tasks/rtos_tasks.c:271-322 | a frame in hand is given back, or frozen if the ring is full; if the ring cannot be used the sink fails and the reference stays |
| Orphans.OrphanExactlyWhen | rtos_firmware/tasks/rtos_tasks.c:271-322 | the reclaim sink leaves a reference that is neither queued nor frozen if and only if the reclaim ring cannot be used |
| Orphans.RunClaims | rtos_firmware/tasks/rtos_tasks.c:760-806 | over every run with a usable reclaim ring every reference is queued or frozen |
| Tasks.OnlyNormalTakesOn | rtos_firmware/tasks/rtos_tasks.c:446-511 | outside NORMAL no task takes on a new reference |
| Runtime.DrainsCurrentEpoch | rtos_firmware/tasks/rtos_runtime.c:246-290 | descriptors are drained only while the router runs on the region's epoch |
| Runtime.RunOnceKeeps | rtos_firmware/tasks/rtos_runtime.c:246-312 | one round of the runtime keeps the invariant |
| Watch.DoorExact | rtos_firmware/tasks/rtos_runtime.c:246-290 | a round that starts in NORMAL goes on as it is when the region's header is sound on the known epoch; a broken one degrades it and makes a recovery due; a new epoch runs a recovery before anything is drained |
| Watch.PeriodicEndExact | rtos_firmware/tasks/rtos_runtime.c:299-307 | a periodic round stays in NORMAL with the heartbeat there, a sound region on the known epoch and no recovery due; each of the other cases leads to exactly one outcome |
| Watch.ReturnedHeartbeatRecovers | rtos_firmware/tasks/rtos_tasks.c:867-905 | a heartbeat that came back runs a recovery in the next periodic round that finds the region sound |
| Throughput.EventsReceive | rtos_firmware/tasks/rtos_tasks.c:446-511 | in NORMAL the event task queues and references every routable frame the RX rings offer, in order, and nothing else changes |
| Throughput.SchedulerSends | rtos_firmware/tasks/rtos_tasks.c:518-535 | in NORMAL with a usable reclaim ring the scheduler task takes exactly min(budget, queued) frames from the queue, and each of them is published once or frozen |
| Throughput.SchedulerSendsAll | rtos_firmware/tasks/rtos_tasks.c:518-535 | while the TX rings have room all of them are published and nothing is frozen |
| Throughput.RoundMoves | rtos_firmware/tasks/rtos_runtime.c:246-312 | a round in NORMAL on a known region queues what the RX rings offer and then moves min(budget, waiting) frames out of the queue, 16 unless configured |
| Throughput.RoundDelivers | rtos_firmware/tasks/rtos_runtime.c:246-312 | if the budget covers them and the TX rings have room, a whole round publishes every waiting and every newly offered frame exactly once and stays in NORMAL |
| Tasks.Context.RetryPending | rtos_firmware/tasks/rtos_tasks.c:545-602 | the loop over the frozen array is the specified retry |
| Tasks.Context.StorePending | rtos_firmware/tasks/rtos_tasks.c:132-167 | the call is the specified freezing, with its mode changes |
| Tasks.Context.ReclaimOrphans | rtos_firmware/tasks/rtos_tasks.c:760-806 | the loop over blocks is the specified orphan scan |
| Tasks.Context.RecoveryTask | rtos_firmware/tasks/rtos_tasks.c:1056-1141 | the call is the specified recovery |
| Latency.SortedRank | rtos_firmware/monitor/rtos_monitor.c:52-67 | the element at the computed rank of the sorted window is the nearest-rank percentile of the window |
| Latency.Insert | rtos_firmware/monitor/rtos_monitor.c:41-49 | one insertion round extends the sorted prefix and keeps the multiset |
| Latency.Window.Record | rtos_firmware/monitor/rtos_monitor.c:320-346 | after every sample the percentiles are those of the last 32 samples and the maximum that of all, across index wraps |
| CanReassembly.Isolation | linux_app/adapters/can_adapter.c:454-648 | for arbitrary frames, what the table does for a key is what a receiver with one session would do, until a ninth key takes the session; keys stay unique, counters equal bitmap populations |
| CanReassembly.RoundTrip | linux_app/adapters/can_adapter.c:480-648 | data frames in any order, repeated, mixed with any other frames: each is accepted, the first that leaves nothing missing returns exactly the message, later ones are orphans |
| CanReassembly.ExactlyOnce | linux_app/adapters/can_adapter.c:480-648 | when every fragment arrives at least once the message is returned exactly once |
| CanReassembly.EightKeysUndisturbed | linux_app/adapters/can_adapter.c:509-528 | with at most eight keys in the table and on the bus no session is ever taken |
| CanReassembly.NinthKeyEvicts | linux_app/adapters/can_adapter.c:509-528 | a start frame takes a session exactly when all eight are open, none has its key, and it is the eldest |
| CanReassembly.DeliveredIsBacked | linux_app/adapters/can_adapter.c:546-611 | for arbitrary streams, a delivered message has its start frame's declared length and CRC and every fragment was carried by a data frame of its own since |
| CanAnswers.ReceiveAnswered | linux_app/adapters/can_adapter.c:613-648 | on the frame's bytes and the sessions' fields: which verdict each frame gets, where a start frame opens its session, which bytes and fields a data frame changes; every other session is kept if and only if it is not late |
| CanAnswers.StreamIsPrompt | linux_app/adapters/can_adapter.c:454-478 | after every frame of every stream no session has made no progress for more than the timeout |
| CanAnswers.LateExactly | linux_app/adapters/can_adapter.c:546-573 | a data frame later than the timeout after its session's last progress is turned away with no message and the session is gone; one at exactly the timeout is turned away only for a fragment number out of range |
| CanAnswers.SameSourceIs | linux_app/adapters/can_adapter.c:180-187 | two frames come from the same source if and only if their identifiers have the same format and the same 29 or 11 address bits |
| CanAnswers.StartFrameOnWire | linux_app/adapters/can_adapter.c:734-743 | the start frame's bytes: kind, session, length and CRC low byte first, padding flag, fragment count |
| CanAnswers.DataFrameOnWire | linux_app/adapters/can_adapter.c:748-771 | data frame t carries bytes 5t to 5t + 4 of the message, padded with zeros |
| CanReassembly.DataStepSound | linux_app/adapters/can_adapter.c:546-611 | a data frame keeps the receive counter equal to the bitmap population and below the fragment count |
| CanReassembly.Stored | linux_app/adapters/can_adapter.c:583-592 | storing a fragment writes nothing outside the declared length |
| CanReassembly.OwnStep | linux_app/adapters/can_adapter.c:575-611 | at a session that holds some fragments, a repeated frame changes nothing and the last missing one delivers |
| CanAdapter.Receiver.Reassemble | linux_app/adapters/can_adapter.c:613-648 | the call on the session array is the specified reception, answers as the frame's bytes and the sessions' fields say, and leaves no late session |
| CanAdapter.Receiver.HandleSof | linux_app/adapters/can_adapter.c:480-544 | the call is the specified start-frame handling |
| CanAdapter.Receiver.HandleData | linux_app/adapters/can_adapter.c:546-611 | the call is the specified data-frame handling |
| CanAdapter.Sender.Fragment | linux_app/adapters/can_adapter.c:693-776 | fills exactly the start frame and every fragment of a message of legal length, under a session number that wraps at 256 |
| TcpFramer.ChunkingIrrelevant | linux_app/adapters/ethernet_adapter.c:566-639 | however the stream is cut into reads, the same frames reach the handler and the same bytes are left |
| TcpFramer.FramesRecovered | linux_app/adapters/ethernet_adapter.c:566-639 | frames of 40 to 512 bytes that start with their own length, low byte first, come out as exactly those frames, and an unfinished one is held |
| TcpFramer.BadLengthStops | linux_app/adapters/ethernet_adapter.c:607-612 | a length outside 40..512 ends the connection after the frames before it |
| TcpFramer.RefusalStops | linux_app/adapters/ethernet_adapter.c:629-635 | a frame the handler refuses is the last one it sees |
| TcpFramer.ParseSplit | linux_app/adapters/ethernet_adapter.c:566-639 | an error is final, otherwise the unfinished message is continued by the next read |
| TcpFramer.Stream.HandleBytes | linux_app/adapters/ethernet_adapter.c:566-639 | the loop is parsing what was held followed by the input |
| TcpFramer.ServeClient | linux_app/adapters/ethernet_adapter.c:810-849 | a connection delivers what its whole stream up to the close parses to, stopping at the first error |
| Crc16.BurstDetected | common/src/crc16.c:4-24 | two inputs of equal length that differ only within two adjacent bytes have different CRCs |
| CrcPolynomial.CrcIsRemainder | common/src/crc16.c:4-24 | the CRC of n bytes is the remainder of data(x)·x^16 + 0xFFFF·x^(8n) modulo x^16 + x^12 + x^5 + 1 |
| CrcPolynomial.RemainderIs | common/src/crc16.c:4-24 | that remainder is the one of polynomial division: a multiple of the generator added to it gives back the polynomial |
| CrcPolynomial.CheckValue | common/src/crc16.c:4-24 | the nine digits give 0x29B1 and no bytes give 0xFFFF |
| Crc16.FoldInjective | common/src/crc16.c:12-21 | equal tails neither hide a difference of register states nor make one |
| Crc16.BitStepsXor | common/src/crc16.c:14-20 | the bit steps are linear over exclusive or |
| Crc16.Compute | common/src/crc16.c:4-24 | the nested loops compute the specified CRC |

## Left out

- Sockets, serial lines, Bluetooth, threads, mmap, ioctl, and the cache, barrier and mailbox drivers: foreign I/O; their outcomes are parameters or hypotheses above.
- Weak memory ordering and data races between Linux threads on the IPC context.
- Cross-epoch re-format while the RTOS still holds blocks: ownership is not guaranteed by the code there, and Linux does not compare the epoch in a reclaim descriptor.
- Descriptor encoding: descriptors travel as values through slots that RingProtocol shows to be faithful; Crc16 shows what the CRC detects. In the ring and pool calls whether a descriptor found in a slot is intact is a parameter; in the gateway model it always is.
- Descriptor fields nothing looks at on the way (CIDs beyond the first byte, flags, epoch, type, TTL inside the gateway model); reclaim reasons, which are enumerated constants within the bound Linux checks.
- The gateway model leaves route decisions, quotas, TTL and retry counts to nondeterminism; PriorityQueue, Router and Tasks model them.
- Tasks: per-interface RX budgets and the pending-bitmap filter are folded into the descriptor the world offers next; a frame the router cannot send for any reason counts as one refused TX attempt.
- TaskComposition: the retry loop is a gateway run as a whole; the receive, dispatch and recovery loops are shown one iteration at a time.
- LinuxPool: statistics counters are unbounded naturals where the code has 64-bit ones; the allocation bitmap is a sequence of 64 booleans.
- CanAdapter.Receiver: a session is a value in an array slot, so the in-place update of its buffer inside the slot is not modelled; 64-bit millisecond clocks are naturals; error-stage strings and status counters are left out.
- LinuxIpc.DrainOnce: anyMSG validation and sending are the verdict parameter.
- Monitor error bits, stuck timers, heartbeat ages, the endpoint heartbeat table and the statistics snapshot: simple checks and counters; the heartbeat's effect on recovery is a step of Tasks.
- The other adapters, ingress security, INI configuration, the status collector, the web backend and frontend, board support and scripts: input and output, string handling and independent validity checks that share no state with the message path.
- The check of the fragment count against the packet array in the CAN sender never fires (103 fragments and a start frame fill it exactly); CanAdapter.Sender.Fragment asserts it.
