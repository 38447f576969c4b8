# BLE gateway: verification project

A Dafny model of the concurrent and stateful core of an ESP32 BLE gateway, with proofs about it. `dafny verify dfyconfig.toml`
checks the whole project.

Each critical section of the firmware is one function from state to state, and each callback made outside a lock is a step of
its own. A run is any sequence of such steps, so theorems about runs cover every interleaving. Where the firmware works in
place, a class with the same arrays and fields has a method per handler whose postcondition says that the method does exactly
what the function says; the theorems are then about the functions. Clock values, ACKs, link results, queue results and NVS
success are free inputs. `ServiceAnswers`, `SchedulerEffects`, `SettingsOutcomes`, `SettingsAcceptance`, `RegistryEffects`,
`RecordFields`, `BleEffects`, `CapabilityFields` and `LedWaves` say on the fields before and after a step what the step
does, without the tests and auxiliary functions the step functions are made of.

| files | component |
|---|---|
| `Basics`, `Search`, `DeviceTables` | options, table scans, counting and the table keyed by device id, shared by the rest |
| `Scheduler`, `SchedulerTables`, `SchedulerInvariant`, `SchedulerEffects` | device control scheduler: 24 job slots, 16 device rows, leases, round robin, burst cap |
| `CommandService`, `ServiceHistory`, `ServiceAnswers` | command service: pending table, 32-bit request ids, ACK, disconnect, cancel, timeout |
| `Pipeline`, `PipelineTraffic`, `PipelineJobs`, `PipelineLeases`, `PipelineRuns`, `PipelineAcks`, `PipelineOutcomes`, `Fairness`, `Stall` | scheduler and service together |
| `SettingsPool`, `SettingsStream`, `SettingsAcceptance`, `SettingsBuilder` | settings schema stream: packed strings and the shared enum-option pool |
| `SettingsTransaction`, `SettingsOutcomes`, `SettingsCallbacks`, `SettingsGrants`, `SettingsStarts`, `SettingsActor` | settings transactions: command script, reconciliation by read-back, callbacks, lease grants over several devices, the shared tables |
| `DeviceRecords`, `RecordFields`, `DeviceMigration`, `DeviceStore`, `DeviceRegistry`, `RegistryEffects` | device store: NVS records, loading and migration, cache operations |
| `BleTables`, `BleEffects`, `BleRemoval`, `BleRaces`, `IdentityPersister` | BLE device and connection tables, deferred identity storage |
| `WebSocketFraming`, `WebSocketBridge` | fragmentation and reassembly |
| `CapabilityStream`, `CapabilityFields`, `CapabilityRecord` | device schema stream: staging and commit |
| `LedPattern`, `LedWaves` | LED levels, waveforms and next-edge arithmetic |

## Where the code falls short of the expected property

Each of these has a lemma that says exactly when the property holds, and a lemma with a run or a state that shows the failure.

- The burst cap counts a queued NORMAL job even when its device cannot take it, so HIGH jobs on other devices stall: a run
  from boot is `Stall.BlockedNormalStallsHigh`, the stall lasts by `Fairness.StallPersists`, and the exact condition is
  `Fairness.IdleWithWorkIff`.
- A v1 record with an empty name is kept by the migrating load and dropped by the next one (`DeviceStore.EmptyNameIsLost`,
  `DeviceStore.LoadIdempotentIff`).
- A connection rollback checks the generation for the slot and not for the device, so a late one unlinks another device
  (`BleTables.StaleRollbackBreaksLink`, `BleTables.RollbackInverseIff`).
- A disconnect releases its row in one critical section, and the host task then tests the row without the lock, looks the
  device up and clears what it finds. A connection started on the row in between is cleared with it:
  `BleRaces.RedialBreaksLink`, `BleRaces.ReaddBreaksLink` and `BleRaces.LateClearBreaksLink` are runs from initialization;
  `BleRemoval.CentralStaysInverse` and `BleRemoval.ReserveBreaksIff` say exactly which connection starts are harmless, and
  `BleTables.FinalizeInverseIff` is exact for one clearing.
- Forgetting a device does not look at the row again after the lookup, so a second delete of a device whose row the host task
  clears meanwhile tears down another device's connection (`BleRaces.SecondDeleteDropsOther`; exact:
  `BleRemoval.ForgetDisturbsIff` in runs, `BleTables.ForgetReachesOtherIff` for any tables).
- The settings actor keeps one lease cookie for all devices and applies a lease result to whatever transaction the named device
  has, so an outcome can reach another transaction than the one that asked, or be dropped. Runs:
  `SettingsStarts.TwoSavesStartOneTwice`, `SettingsStarts.DroppedGrantStrandsSave`, `SettingsStarts.OldGrantStartsNewSave`; from
  any such state: `SettingsGrants.QueuedGrantStartsSave`, `SettingsGrants.RefusedRequestAbortsSave`; exact:
  `SettingsGrants.OutcomesReachAskersIff`. A transaction started twice sends BEGIN out of place (exact:
  `SettingsTransaction.CommandsFollowScriptIff`).
- Reconciliation decides under the lock and frees the transaction after it; an actor event in between answers the save twice
  (`SettingsCallbacks.TimerOvertakesVerdict` and `RebootIsReached`, exact condition `SettingsCallbacks.OneCallbackPerSaveIff`).
  The late delivery frees the slot by number, so it also ends whatever later transaction took the slot
  (`SettingsActor.Transactions.Resolve`).
- A secret setting can be written but is never readable, so a transaction that changes one never succeeds
  (`SettingsTransaction.ConfirmedIff`, `SettingsTransaction.SecretNeverSucceeds`).

## Where code and documentation differ

The device store's own documentation speaks of schema version 2 and of an edit call that takes a type and keeps NULL fields.
The code writes schema version 3 and edits the name alone; the model follows the code.

## Model

| member | source | states |
|---|---|---|
| `PipelineRuns.ServiceNeverRefuses` | components/device_control_scheduler/device_control_scheduler_worker.c:8-73 | in every interleaving of clients, worker, service, ACKs, timeouts, disconnects and cancels: no BUSY or QUEUE_FULL answer, no rejection counted, the submit queue holds at most four entries, the mailbox-conflict counter stays 0, and unanswered service requests are in bijection with the in-flight slots |
| `PipelineRuns.ExactlyOnceCallbacks` | components/device_control_scheduler/device_control_scheduler_worker.c:22-42 | in every interleaving no job is called back twice, an accepted job is called back or still live and never both, and accepted jobs equal callbacks made plus live slots |
| `PipelineRuns.OutcomesAreRouted` | components/device_control_scheduler/device_control_scheduler_worker.c:8-42 | a callback that reports a command outcome carries exactly what the service answered for that very job |
| `PipelineAcks.OkCallbackHasItsAck` | components/device_command_service/device_command_worker.c:125-190 | in every interleaving a job is called back with OK only if an accepting ACK that names the job's device and command and the id its request was sent under was handled while the job was in flight; the callback carries that id and the ACK's integer value; if the ACK answers a request drawn less than 2^32 - 1 id draws before, it is the request sent for this very job |
| `PipelineAcks.ServiceFollows` | components/device_command_service/device_command_worker.c:17-227 | the pending table in a pipeline run is that of the events the service handled, so what holds of every event sequence of the service holds in every interleaving |
| `PipelineOutcomes.EventDecidesCallback` | components/device_command_service/device_command_worker.c:125-227 | in every run, once an ACK, a lost link, a cancel or a timeout that names a job's pending request is handled, every later callback of the job carries exactly that event's result, as a command outcome unless a later cancel named the job |
| `PipelineOutcomes.EventReachesCallback` | components/device_control_scheduler/device_control_scheduler_worker.c:8-42 | and that callback comes: with nothing owed and the worker between jobs, delivery, completion and call report exactly that result |
| `PipelineOutcomes.AckDecidesOkIff` | components/device_command_service/device_command_worker.c:125-190 | in every continuation of every run the job's callback is OK if and only if the ACK handled for its request was accepted |
| `PipelineRuns.LeaseExclusion` | components/device_control_scheduler/device_control_scheduler_lease.c:5-37 | in every interleaving a row's lease id is non-zero exactly when one ACTIVE record holds it, and a job in flight on a leased row carries that lease |
| `PipelineRuns.LeaseCallbacksOnce` | components/device_control_scheduler/device_control_scheduler_lease.c:13-37 | every accepted lease request was called back once or still waits, never both and never twice, also when cancelled while pending |
| `PipelineRuns.StepSafe` | components/device_control_scheduler/device_control_scheduler_worker.c:75-84 | every enabled action of either component keeps the joint invariant (traffic bijection, job accounting, answer routing, lease accounting) |
| `PipelineTraffic.ServeNeverRefused` | components/device_command_service/device_command_worker.c:36-46 | when the service takes a submission, no pending slot is on its device and a pending slot is vacant |
| `PipelineTraffic.QueueHasRoom` | components/device_command_service/device_command_service.c:100-121 | when the worker submits, the submit queue has a free place |
| `PipelineTraffic.DeliverOpen` | components/device_control_scheduler/device_control_scheduler_worker.c:8-20 | when the service delivers an answer, the slot is in flight and its mailbox is open |
| `PipelineTraffic.SubmitRequests` | components/device_command_service/device_command_worker.c:17-123 | a served request is afterwards either in the pending table or answered, and no other request moves |
| `PipelineTraffic.UrgentRequests` | components/device_command_service/device_command_worker.c:125-227 | an ACK, disconnect, cancel or timeout answers exactly the request it removes from the table |
| `PipelineJobs.SubmitJobs` | components/device_control_scheduler/device_control_scheduler.c:68-89 | submit keeps the job accounting: accepted ids are exactly the called and the live ones, none twice, whether it accepts, supersedes, drops or refuses |
| `PipelineJobs.FreeJobs` | components/device_control_scheduler/device_control_scheduler_worker.c:36-42 | wiping a completed slot keeps the job accounting, even when a cancel rewrote the slot while its callback ran |
| `SchedulerInvariant.SubmitInv` | components/device_control_scheduler/device_control_scheduler.c:68-89 | submit keeps the table invariant (in-flight count, row and slot agreement, lease ownership, unique ids) |
| `SchedulerInvariant.CancelInv` | components/device_control_scheduler/device_control_scheduler.c:91-117 | cancel keeps the table invariant, including rows whose lease it revokes |
| `SchedulerInvariant.AcquireInv` | components/device_control_scheduler/device_control_scheduler_lease.c:5-10 | a lease request keeps the table invariant |
| `SchedulerInvariant.ReleaseInv` | components/device_control_scheduler/device_control_scheduler_lease.c:11-12 | a release keeps the table invariant |
| `SchedulerInvariant.ReleaseSucceeds` | components/device_control_scheduler/device_control_scheduler_lease.c:11-12 | releasing an ACTIVE lease always succeeds and clears its row: the invalid-state answer cannot occur |
| `SchedulerInvariant.ProcessLeaseInv` | components/device_control_scheduler/device_control_scheduler_lease.c:13-37 | granting or reporting one lease record keeps the table invariant |
| `SchedulerInvariant.CompleteBeginInv` | components/device_control_scheduler/device_control_scheduler_worker.c:22-34 | freeing the row and the in-flight place of a finished slot keeps the table invariant |
| `SchedulerInvariant.DispatchInv` | components/device_control_scheduler/device_control_scheduler_worker.c:60-73 | dispatching keeps the table invariant, so a job in flight respects its row's lease |
| `SchedulerInvariant.ServiceCompleteInv` | components/device_control_scheduler/device_control_scheduler_worker.c:8-20 | a completion for an in-flight slot finds its mailbox open and keeps the table invariant |
| `SchedulerInvariant.InflightBound` | components/device_control_scheduler/device_control_scheduler_worker.c:60-63 | at most four slots are in flight |
| `SchedulerInvariant.InflightDevicesDiffer` | components/device_control_scheduler/device_control_scheduler_worker.c:52-66 | two slots in flight are for different device ids |
| `SchedulerInvariant.LeasesAreExclusive` | components/device_control_scheduler/device_control_scheduler_lease.c:13-37 | the invariant gives exclusive leases on every row, in both directions |
| `Scheduler.Selected` | components/device_control_scheduler/device_control_scheduler_worker.c:44-58 | the chosen slot is eligible and comes before every other eligible slot in (priority, distance from the cursor, slot) order; none is chosen only if none is eligible |
| `SchedulerTables.ControlScheduler.FindDevice` | components/device_control_scheduler/device_control_scheduler.c:9-19 | the scan returns the row of the id, claiming the first unused row when asked, else -1 |
| `SchedulerTables.ControlScheduler.SubmitJob` | components/device_control_scheduler/device_control_scheduler.c:68-89 | validation, row lookup, dedupe, slot choice and every result code refine the value model |
| `SchedulerTables.ControlScheduler.CancelMatch` | components/device_control_scheduler/device_control_scheduler.c:91-117 | both loops together cancel exactly the matching slots and leases, revoke exactly their rows, and report whether any matched and the device of a matching job in flight, if there is one |
| `SchedulerTables.ControlScheduler.AcquireLease` | components/device_control_scheduler/device_control_scheduler_lease.c:5-10 | fills the first free record of the device's row under a new id, or refuses |
| `SchedulerTables.ControlScheduler.ReleaseLease` | components/device_control_scheduler/device_control_scheduler_lease.c:11-12 | frees the ACTIVE record with that id and its row, with the source's result codes |
| `SchedulerTables.ControlScheduler.ProcessLeaseRecord` | components/device_control_scheduler/device_control_scheduler_lease.c:13-37 | grants, reports or skips one record and returns the callback to make |
| `SchedulerTables.ControlScheduler.BlockDevice` | components/device_control_scheduler/device_control_scheduler.c:122-122 | blocks the device's row, claiming one when it has none, and fails only for an empty id or a full table |
| `SchedulerTables.ControlScheduler.UnblockDevice` | components/device_control_scheduler/device_control_scheduler.c:123-123 | unblocks the device's row and reports whether it has one |
| `SchedulerTables.ControlScheduler.PromoteAndExpire` | components/device_control_scheduler/device_control_scheduler_worker.c:75-84 | one pass queues fresh jobs and times out exactly the queued jobs past their wait |
| `SchedulerTables.ControlScheduler.BeginCompletion` | components/device_control_scheduler/device_control_scheduler_worker.c:22-34 | the first critical section of a completion: slot, row and counter, and the callback |
| `SchedulerTables.ControlScheduler.EndCompletion` | components/device_control_scheduler/device_control_scheduler_worker.c:36-42 | the second critical section wipes the slot and keeps its generation |
| `SchedulerTables.ControlScheduler.SelectSlot` | components/device_control_scheduler/device_control_scheduler_worker.c:44-58 | the nested row-by-slot scan finds exactly the least eligible slot of the order above |
| `SchedulerTables.ControlScheduler.DispatchNext` | components/device_control_scheduler/device_control_scheduler_worker.c:60-73 | puts the selected slot in flight and moves cursor, burst counter and in-flight count |
| `SchedulerTables.ControlScheduler.DispatchRefused` | components/device_control_scheduler/device_control_scheduler_worker.c:60-73 | a refused submit turns the slot into a finished one with the mapped status |
| `SchedulerTables.ControlScheduler.OnServiceComplete` | components/device_control_scheduler/device_control_scheduler_worker.c:8-20 | writes an open mailbox once and counts a conflict otherwise |
| `SchedulerEffects.CancelByOwner` | components/device_control_scheduler/device_control_scheduler.c:91-117 | for every table: a cancel by device, source and owner finishes as CANCELLED exactly the occupied slots of all three that are not in flight, drops exactly the leases of all three, changes nothing of another device, source or owner, and finds something exactly when such a slot or lease exists |
| `SchedulerEffects.CancelByDevice` | components/device_control_scheduler/device_control_scheduler.c:91-117 | a cancel by device does that for every job and lease of the device, whoever owns it, and for no other |
| `SchedulerEffects.CancelById` | components/device_control_scheduler/device_control_scheduler.c:91-117 | a cancel by job id finishes the occupied slot with that id unless it is in flight, and touches no other slot, row or lease |
| `SchedulerEffects.MalformedIff` | components/device_control_scheduler/device_control_scheduler.c:68-76 | a job is malformed exactly for an empty device, an unknown priority or source, or a dedupe policy outside BACKGROUND; nothing changes then |
| `SchedulerEffects.DropsForTwin` | components/device_control_scheduler/device_control_scheduler.c:68-89 | a DROP_IF_EXISTS job is dropped exactly when a queued job with its fingerprint, source, owner and request exists, and reports the first one |
| `SchedulerEffects.AcceptedJob` | components/device_control_scheduler/device_control_scheduler.c:68-89 | an accepted job takes the first free slot under the next id on its device's row with its deadline counted from now; only queued twins of a REPLACE_QUEUED job change besides |
| `SchedulerEffects.NoRoomIff` | components/device_control_scheduler/device_control_scheduler.c:68-89 | a valid job that is not dropped is refused for want of room exactly when its device has no row and none is free, or no slot is free |
| `SchedulerEffects.AcceptedLease` | components/device_control_scheduler/device_control_scheduler_lease.c:5-10 | an accepted lease request takes a free record under the next id for its device, source and owner, and nothing else changes |
| `SchedulerEffects.ReleaseEffects` | components/device_control_scheduler/device_control_scheduler_lease.c:11-12 | releasing a granted id frees its record and its row; any other id is not found and changes nothing |
| `SchedulerEffects.LeaseTurnEffects` | components/device_control_scheduler/device_control_scheduler_lease.c:13-37 | a record's turn grants a pending lease exactly when its row is unblocked, idle and unleased, reports a failed one once, and else changes nothing |
| `SchedulerEffects.BlockEffects` | components/device_control_scheduler/device_control_scheduler.c:122-122 | blocking marks the device's row, claiming one if it has none, and changes nothing else |
| `SchedulerEffects.UnblockEffects` | components/device_control_scheduler/device_control_scheduler.c:123-123 | unblocking clears the mark of the device's row and changes nothing else |
| `SchedulerEffects.PromoteEffects` | components/device_control_scheduler/device_control_scheduler_worker.c:75-84 | a pass queues fresh jobs and finishes exactly the waiting jobs whose non-zero deadline is not after now, as DEADLINE_EXCEEDED |
| `SchedulerEffects.WaitLimit` | components/device_control_scheduler/device_control_scheduler_worker.c:75-84 | a job accepted with a wait limit is timed out by a later pass exactly when the limit has gone by since it was accepted |
| `SchedulerEffects.CompletionStarts` | components/device_control_scheduler/device_control_scheduler_worker.c:22-36 | a completion reports the slot's id, terminal and result, and releases the row only if the row still points at the slot |
| `SchedulerEffects.AnswerLands` | components/device_control_scheduler/device_control_scheduler_worker.c:8-20 | a service answer lands in the in-flight slot whose request it was and changes nothing else |
| `SchedulerEffects.NothingSentIff` | components/device_control_scheduler/device_control_scheduler_worker.c:44-58 | a dispatch sends nothing exactly when four jobs are in flight or every job that could be sent is a HIGH one held back by the burst cap |
| `SchedulerEffects.DispatchEffects` | components/device_control_scheduler/device_control_scheduler_worker.c:44-73 | a dispatch sends the job of best priority that may go; among equals the one whose row is nearest to the cursor, then the lowest slot; it marks slot and row, moves the cursor past the row, counts the burst, and changes nothing else |
| `Fairness.CursorCloser` | components/device_control_scheduler/device_control_scheduler_worker.c:44-66 | passing over a row in front strictly decreases (row - cursor) mod 16 |
| `Fairness.RoundRobinBound` | components/device_control_scheduler/device_control_scheduler_worker.c:44-66 | in any stretch of any run in which a row has an eligible job of the best eligible priority at every dispatch and is not served, fewer than sixteen jobs are dispatched |
| `Fairness.HighBurstBound` | components/device_control_scheduler/device_control_scheduler_worker.c:46-67 | in any stretch in which a NORMAL job is queued at every dispatch and none is dispatched, at most eight HIGH jobs are dispatched |
| `Fairness.IdleWithWorkIff` | components/device_control_scheduler/device_control_scheduler_worker.c:46-54 | the scan finds nothing although a job could be sent if and only if the burst cap holds HIGH back and every sendable job is HIGH |
| `Fairness.StallPersists` | components/device_control_scheduler/device_control_scheduler_worker.c:46-67 | from a state with the burst cap reached, no HIGH job is dispatched in any continuation in which a NORMAL job is queued at every dispatch and none is dispatched |
| `Stall.BlockedNormalStallsHigh` | components/device_control_scheduler/device_control_scheduler_worker.c:46-54 | a run from boot in which eight HIGH jobs of one device are sent and answered while a NORMAL job waits on a blocked one, and which ends with nothing in flight, a ninth HIGH job that could be sent, and no choice for the dispatcher |
| `CommandService.Pigeonhole` | components/device_command_service/device_command_pending.c:68-86 | if the first k draws all collide, the table holds at least k ids |
| `CommandService.Draws` | components/device_command_service/device_command_pending.c:68-86 | from any 32-bit counter value an id outside the pending table is reached within five draws |
| `CommandService.PendingTable.NextRequestId` | components/device_command_service/device_command_pending.c:68-86 | the do/while loop ends and returns the first non-zero id, counting with 32-bit wrap, that no pending request uses |
| `CommandService.PendingTable.HandleSubmit` | components/device_command_service/device_command_worker.c:17-123 | every rejection branch, the id draw, the table insert and the send failure refine the value model, with the answer owed |
| `CommandService.PendingTable.HandleAck` | components/device_command_service/device_command_worker.c:125-190 | an ACK closes the slot with its device, id and command and no other, with OK exactly when accepted |
| `CommandService.PendingTable.DropDevice` | components/device_command_service/device_command_worker.c:192-212 | a disconnect or cancel answers the device's pending request and clears it |
| `CommandService.PendingTable.CheckTimeouts` | components/device_command_service/device_command_worker.c:214-227 | the pass leaves the table and owes the answers of one timeout step of the run model per expired request, in table order |
| `CommandService.TimeoutPass` | components/device_command_service/device_command_worker.c:214-227 | those steps together clear exactly the expired requests and keep the others |
| `CommandService.TimeoutPassAnswers` | components/device_command_service/device_command_worker.c:214-227 | those steps together owe exactly one TIMEOUT answer per expired request, in table order |
| `ServiceHistory.PendingTableUnique` | components/device_command_service/device_command_worker.c:36-50 | in every event sequence pending devices and pending ids are pairwise distinct and ids are non-zero 32-bit numbers |
| `ServiceHistory.OkOnlyFromMatchingAck` | components/device_command_service/device_command_worker.c:125-190 | in every event sequence OK is answered only by an accepting ACK, and the pending request it closes has the ACK's device, id and command |
| `ServiceHistory.OkOnlyFromOwnAck` | components/device_command_service/device_command_worker.c:125-190 | an ACK to request n, however late or repeated, answers OK for n itself or for nobody while fewer than 2^32 - 1 ids were drawn since n |
| `ServiceHistory.DrawsPerRequest` | components/device_command_service/device_command_pending.c:68-86 | a stretch of k events draws at most 5k ids |
| `ServiceAnswers.AckAnswersIff` | components/device_command_service/device_command_worker.c:125-190 | over every event sequence: an ACK with the device, id and command of a pending slot answers that slot's caller OK with the ACK's integer value if and only if it is accepted, REJECTED otherwise, and empties that slot alone |
| `ServiceAnswers.OtherAcksIgnored` | components/device_command_service/device_command_worker.c:125-190 | an ACK that names no pending slot answers nobody and changes nothing |
| `ServiceAnswers.DropAnswers` | components/device_command_service/device_command_worker.c:192-212 | a lost link answers NOT_CONNECTED and a cancel CANCELLED to the device's pending request, and each empties that slot alone |
| `ServiceAnswers.OtherDropsIgnored` | components/device_command_service/device_command_worker.c:192-212 | both leave the table alone when the device has no pending request |
| `ServiceAnswers.TimeoutAnswersSlot` | components/device_command_service/device_command_worker.c:214-227 | a timeout of a pending slot answers TIMEOUT to its caller and empties that slot alone |
| `ServiceAnswers.RefusalOrder` | components/device_command_service/device_command_worker.c:17-123 | a submit is refused by validation, then by the link, then by a request pending on the device, then by a full table, with the status of the first and the table unchanged |
| `ServiceAnswers.SubmitSends` | components/device_command_service/device_command_worker.c:17-123 | a submit nothing refuses draws a non-zero id no pending request has; sent, it fills one empty slot with a deadline two seconds ahead; not sent, it answers TRANSPORT_ERROR under that id and the table stays |
| `ServiceAnswers.WaitsTwoSeconds` | components/device_command_service/device_command_worker.c:214-227 | a sent request is still waiting after a later pass if and only if less than two seconds went by |
| `SettingsPool.InsertSlices` | components/device_settings/device_settings_protocol.c:325-361 | inserting an option shifts the pool so that the parent's slice gains the option at its end and every other slice is unchanged |
| `SettingsPool.InsertLayout` | components/device_settings/device_settings_protocol.c:325-361 | slices stay inside the pool, pairwise disjoint and covering |
| `SettingsStream.ItemRefines` | components/device_settings/device_settings_memory.c:189-199 | appending a descriptor appends one setting with no options to the list of lists |
| `SettingsStream.OptionRefines` | components/device_settings/device_settings_protocol.c:293-363 | the shifting insert appends the option to the parent's list and to no other |
| `SettingsStream.PoolHasRoom` | components/device_settings/device_settings_memory.c:201-224 | an accepted option always finds a place in the 256-entry pool |
| `SettingsStream.SettingsInArrivalOrder` | components/device_settings/device_settings_protocol.c:174-363 | for any interleaving of accepted items and options, each setting's options are exactly those addressed to it, in arrival order |
| `SettingsStream.CommitsAreSound` | components/device_settings/device_settings_protocol.c:367-415 | in every frame sequence a committed schema has the announced count, distinct ids, valid types, distinct option values, at most 16 options each, options only on enums, and matching declared counts |
| `SettingsAcceptance.StreamFlowsIff` | components/device_settings/device_settings_protocol.c:174-363 | for every announced total and every sequence of frames after BEGIN: none ends the stream if and only if it is well-formed (items in sequence with new non-empty ids, types 1 to 5 and counts of at most 16 on ENUM only; options with a text, an earlier ENUM parent, a new value and at most 16 per parent; in any interleaving) and its strings fit in the pool; and then every setting and option sent is held |
| `SettingsAcceptance.TakesIff` | components/device_settings/device_settings_protocol.c:174-363 | one more frame is taken exactly when it may follow and its strings fit, and uses exactly its strings' bytes |
| `SettingsAcceptance.WellFormedStreamCommitsIff` | components/device_settings/device_settings_protocol.c:367-415 | a well-formed stream that fits is committed by END if and only if all announced items came, every declared option count was met and END repeats the total; the commit is the items in order, each with its own options in order |
| `SettingsAcceptance.BeginIff` | components/device_settings/device_settings_protocol.c:114-170 | a BEGIN opens a stream exactly when it is complete and announces at most 16 settings |
| `SettingsAcceptance.SettingShows` | components/device_settings/device_settings_protocol.c:174-291 | a committed setting shows the sent id, type, group and unit, and the sent title or else the id |
| `SettingsBuilder.SchemaStream.HandleBegin` | components/device_settings/device_settings_protocol.c:114-170 | starts a stream exactly when the list-of-lists machine does |
| `SettingsBuilder.SchemaStream.AddString` | components/device_settings/device_settings_memory.c:41-62 | stores the string NUL-terminated at a four-byte boundary so that it reads back, or refuses when the pool is full; earlier bytes stay |
| `SettingsBuilder.SchemaStream.HandleItem` | components/device_settings/device_settings_protocol.c:174-291 | refines the list-of-lists machine on an item frame, rejections included |
| `SettingsBuilder.SchemaStream.InsertOption` | components/device_settings/device_settings_protocol.c:325-361 | append, rotate into place and rebase offsets equals the pool insert |
| `SettingsBuilder.SchemaStream.MoveToTail` | components/device_settings/device_settings_protocol.c:342-348 | the memmove shifts the gap and leaves the rest |
| `SettingsBuilder.SchemaStream.RebaseOffsets` | components/device_settings/device_settings_protocol.c:349-356 | exactly the slices at or after the insertion point move by one |
| `SettingsBuilder.SchemaStream.HandleOption` | components/device_settings/device_settings_protocol.c:293-363 | refines the list-of-lists machine on an option frame, rejections included |
| `SettingsBuilder.SchemaStream.HandleEnd` | components/device_settings/device_settings_protocol.c:367-415 | commits exactly when the machine does, and the snapshot means the machine's list |
| `SettingsTransaction.CommandsFollowScriptIff` | components/device_settings/device_settings_transaction.c:348-581 | for every run: the commands of every accepted save are a prefix of BEGIN, SET per change in order with exactly the requested value, COMMIT, CONFIRM, if and only if every lease grant that sent BEGIN found its transaction not yet started |
| `SettingsTransaction.WireExact` | components/device_settings/device_settings_transaction.c:289-344 | a prevalidated value is not cut by the byte cast or the 64-byte copy of the SET |
| `SettingsTransaction.RevisionsAlways` | components/device_settings/device_settings_transaction.c:270-285 | in every run the revision a pending read-back is compared with was reported by a successful completion or is one above the caller's, with 32-bit wrap |
| `SettingsTransaction.SuccessOnlyAfterReadBack` | components/device_settings/device_settings.c:442-547 | in every run a success is reported only for a read-back at the expected revision in which every change of that save is present with its type and content; that revision was reported by the device or is one above the caller's |
| `SettingsTransaction.ConfirmedIff` | components/device_settings/device_settings_protocol.c:568-684 | a change is confirmed by a read-back if and only if its setting is not secret and the first frame with its id carries its value; a change to a secret setting is never confirmed |
| `SettingsTransaction.SecretNeverSucceeds` | components/device_settings/device_settings_protocol.c:568-684 | in every run whose committed values are read-backs under rules that make a setting secret, no save that changes the setting is reported as a success |
| `SettingsOutcomes.UndisturbedSaveSucceeds` | components/device_settings/device_settings_transaction.c:348-581 | from every reached state: a save that may start, whose device acknowledges every command and reads back every change, sends exactly BEGIN, one SET per change in order, COMMIT and CONFIRM, and is reported once, as a success |
| `SettingsOutcomes.VerifiedSucceeds` | components/device_settings/device_settings.c:442-547 | in every run a read-back that holds every change at the expected revision is decided and delivered as a success, and the save is over |
| `SettingsOutcomes.ReadBackDecides` | components/device_settings/device_settings.c:442-547 | in every run, whatever happens between decision and delivery, the result is SUCCESS exactly at the expected revision with every change shown, DEVICE_CONFLICT exactly at a revision that is neither the expected nor the old one, and FAILED otherwise |
| `SettingsOutcomes.ShownIff` | components/device_settings/device_settings.c:45-107 | a read-back confirms a change exactly when the first value with its id is available and the same in type and content |
| `SettingsOutcomes.AllowedNumbers` | components/device_settings/device_settings_transaction.c:289-344 | an INT rule allows exactly low, low + step, low + 2 step and so on up to high, and with step 0 every number between them |
| `SettingsOutcomes.AllowedValues` | components/device_settings/device_settings_transaction.c:289-344 | a writable setting takes any flag, exactly its own option codes, and texts up to 63 characters and its own limit; a read-only one or another type takes nothing |
| `SettingsOutcomes.SaveEffect` | components/device_settings/device_settings_transaction.c:585-676 | a save starts exactly with 1 to 16 changes, no save under way, a ready schema, every change obeying its rule and the start queued; else nothing changes |
| `SettingsOutcomes.FailureEffect` | components/device_settings/device_settings_transaction.c:436-581 | which result each failed command ends the save with, and that after a commit that may have happened a timeout or lost link makes it wait for the device instead |
| `SettingsOutcomes.AckEffect` | components/device_settings/device_settings_transaction.c:348-581 | which command each acknowledgement sends next, with which change or revision |
| `SettingsOutcomes.LateAnswerEffect` | components/device_settings/device_settings_transaction.c:436-581 | while the save waits for the device a late answer ends nothing, and an OK with a revision replaces the expected one |
| `SettingsOutcomes.InterruptEffect` | components/device_settings/device_settings_transaction.c:711-750 | what an abort, the timer and a lost link do to a save in each phase |
| `SettingsOutcomes.RecordEffect` | components/device_settings/device_settings.c:247-435 | capability, schema, values and forgetting change the device's record as stated and nothing else |
| `SettingsCallbacks.OneCallbackPerSaveIff` | components/device_settings/device_settings.c:511-547 | for every run that leaves no decided read-back undelivered: every accepted save was called back exactly once or is active, if and only if no step ended a transaction whose read-back was already decided and none freed an active transaction for another device |
| `SettingsCallbacks.TimerOvertakesVerdict` | components/device_settings/device_settings_transaction.c:740-750 | from any state that awaits a pending read-back, decide, timer, deliver answers the save twice: once as the timer does and once with the result its revision and values stand for |
| `SettingsCallbacks.RebootIsReached` | components/device_settings/device_settings_transaction.c:436-581 | a run that reaches that state exists |
| `SettingsGrants.OutcomesReachAskersIff` | components/device_settings/device_settings_worker.c:183-195 | for every run over any number of devices that leaves nothing outstanding: every lease result is handled under the cookie of the transaction that asked, and every outcome of a lease request, refusals included, acts on the transaction that asked or on none, if and only if no TRANSACTION_START was handled while a lease was outstanding and no outcome was handled while a later save of its device was active |
| `SettingsGrants.MeetsAskerIff` | components/device_settings/device_settings_worker.c:183-188 | in every reached state an outcome acts on the transaction that asked or on none, if and only if it is not applied to another device's transaction and, on the asking device, no later save is active |
| `SettingsGrants.OwnResultsIff` | components/device_settings/device_settings_worker.c:115-123 | for every run that leaves nothing outstanding: every lease result carries the cookie of the transaction that asked, still standing, if and only if no TRANSACTION_START was handled while an earlier transaction's lease was outstanding; which transaction the result then acts on is the theorem above |
| `SettingsGrants.QueuedGrantStartsSave` | components/device_settings/device_settings_worker.c:183-188 | from any reached state with a grant queued behind lease results only, its cookie standing and the named device without a transaction: a save accepted there is started by that grant, which another transaction asked for |
| `SettingsGrants.RefusedRequestAbortsSave` | components/device_settings/device_settings_worker.c:258-268 | from any reached state with the start of a gone transaction queued: a save accepted then is called back as cancelled when that start's lease request is refused |
| `SettingsGrants.MatchedStep` | components/device_settings/device_settings_worker.c:115-123 | handling one start at a time keeps the one global cookie equal to every outstanding lease |
| `SettingsStarts.DisciplinedScripts` | components/device_settings/device_settings_worker.c:258-268 | in every run over any number of devices in which starts are handled one at a time and no outcome while a later save of its device is active, each transaction is started at most once and every device's commands follow the script |
| `SettingsStarts.TwoSavesStartOneTwice` | components/device_settings/device_settings_worker.c:183-195 | a run with saves on two devices after which the second was sent BEGIN twice, the first never, and nothing is outstanding |
| `SettingsStarts.OldGrantStartsNewSave` | components/device_settings/device_settings_worker.c:183-195 | a run on one device, with starts handled one at a time, in which the grant of an aborted transaction is handled while the next one is active and starts it, and its own grant starts it again |
| `SettingsStarts.DroppedGrantStrandsSave` | components/device_settings/device_settings_worker.c:183-195 | a run with saves on two devices in which every outcome acts on the transaction that asked, yet the first grant is dropped and its transaction is neither started nor called back |
| `SettingsActor.Prevalidate` | components/device_settings/device_settings_transaction.c:289-344 | the descriptor scan accepts exactly the changes the first matching rule allows |
| `SettingsActor.ValuesMatch` | components/device_settings/device_settings.c:45-107 | the nested scan accepts exactly when every change is confirmed |
| `DeviceTables.DeviceTable.Find` | components/device_settings/device_settings_transaction.c:110-120 | the scan over sixteen cells finds the one cell the device holds, or says that it holds none |
| `DeviceTables.DeviceTable.Claim` | components/device_settings/device_settings_transaction.c:122-132 | gives the first free cell to the device, changes no other device's item, and fails exactly when no cell is free; no device ever holds two cells |
| `DeviceTables.DeviceTable.Release` | components/device_settings/device_settings_transaction.c:134-143 | frees a cell for whichever device holds it; every other device keeps its item |
| `SettingsActor.Transactions.TableKeepsPromises` | components/device_settings/device_settings_transaction.c:585-750 | whatever the handlers did to the shared tables: every success any device was told has its read-back, and any device's commands follow the script exactly when none of its grants found the transaction started |
| `SettingsActor.Transactions.SaveChanges` | components/device_settings/device_settings_transaction.c:585-676 | accepts exactly the prevalidated saves of an idle, ready device while a slot is free; one more event of that device's run, and every device stays in the state its own events lead to |
| `SettingsActor.Transactions.LeaseGranted` | components/device_settings/device_settings_transaction.c:697-709 | one grant in the run of the device it names and of no other: the table stays, device by device, the state of the per-device runs |
| `SettingsActor.Transactions.CommandComplete` | components/device_settings/device_settings_transaction.c:436-581 | one completion, in any status and phase, in the run of the device it names and of no other; slot and record are found by device id |
| `SettingsActor.Transactions.AbortNow` | components/device_settings/device_settings_transaction.c:711-717 | one abort in the run of the device it names and of no other |
| `SettingsActor.Transactions.OnDisconnect` | components/device_settings/device_settings_transaction.c:719-738 | one link loss in the run of the device it names and of no other |
| `SettingsActor.Transactions.OnTimeout` | components/device_settings/device_settings_transaction.c:740-750 | one timer event in the run of the device it names and of no other |
| `SettingsActor.Transactions.Reconcile` | components/device_settings/device_settings.c:442-512 | one decision in the run of the device it names and of no other; the decided transaction sits in the slot that the delivery will free |
| `SettingsActor.Transactions.Resolve` | components/device_settings/device_settings.c:536-547 | delivers to the decided device and frees its old slot by number: a later transaction of that device in the slot ends with it, another device's transaction there is evicted, and no other device notices |
| `SettingsActor.Transactions.OnCapability` | components/device_settings/device_settings.c:319-353 | the device's record is found or the first free one created; fails exactly for an empty id or a full table, and no other device's record changes |
| `SettingsActor.Transactions.SchemaCommitted` | components/device_settings/device_settings.c:247-269 | one schema commit in the run of the device it names, if it has a record, and of no other |
| `SettingsActor.Transactions.ValuesCommitted` | components/device_settings/device_settings.c:271-292 | one values commit in the run of the device it names, if it has a record, and of no other |
| `SettingsActor.Transactions.Purge` | components/device_settings/device_settings.c:406-432 | the record of the device it names is cleared, its transaction stays, and no other device changes |
| `DeviceRecords.SaveThenLoad` | components/device_store/device_store_nvs.c:34-65 | a written entry reads back as itself whatever was stored before, except that an empty name makes it unreadable |
| `DeviceStore.AgreesReloads` | components/device_store/device_store_nvs.c:79-174 | a store that agrees with a cache loads exactly that cache in order and rewrites nothing |
| `DeviceStore.RewriteReads` | components/device_store/device_store_nvs.c:79-174 | after a migrating load, record j reads back as the j-th loaded entry unless its name is empty |
| `DeviceStore.LoadIdempotentIff` | components/device_store/device_store_nvs.c:79-174 | for every v1, v2 or v3 store that loads, a second load returns the same entries without rewriting if and only if no kept v1 record has an empty stored name |
| `DeviceStore.EmptyNameIsLost` | components/device_store/device_store_migration.c:44-84 | a v1 store on which the second load loses the device |
| `RecordFields.RecordIff` | components/device_store/device_store_migration.c:44-164 | a record of version 1, 2 or 3 loads if and only if its keys describe a device (required texts non-empty and within their buffers, identity keys both or neither; for version 1 the fallbacks of name and identity), and it loads as that device |
| `RecordFields.AddressIff` | components/device_store/device_store_entry.c:20-41 | a text is taken for an address if and only if it spells six bytes, last byte first, as hex pairs of either case separated by colons or dashes |
| `RecordFields.LoadSucceedsIff` | components/device_store/device_store_nvs.c:79-174 | a load succeeds exactly for versions up to 3 and up to 16 records; a newer version and too many records are refused as such; a store is rewritten only if it loads and is older or has unreadable records |
| `RecordFields.LoadedIsDescribed` | components/device_store/device_store_nvs.c:79-174 | the loaded list has the device of every describing record at the place given by the number of describing records before it, and nothing else |
| `RecordFields.WriteEffect` | components/device_store/device_store_nvs.c:34-77 | a written record describes its entry without a legacy type key and an erased one has none of its five keys; no other key changes |
| `DeviceRegistry.AddInv` | components/device_store/device_store.c:78-111 | a successful add keeps cache and NVS in agreement and ids and identities distinct |
| `DeviceRegistry.DeleteInv` | components/device_store/device_store.c:113-152 | a successful shifting delete does too |
| `DeviceRegistry.EditInv` | components/device_store/device_store.c:154-181 | a successful edit does too |
| `DeviceRegistry.SetIdentityInv` | components/device_store/device_store.c:232-272 | a successful identity update does too |
| `DeviceRegistry.ReloadRebuildsCache` | components/device_store/device_store.c:78-272 | after any sequence of calls and reboots, loading the v3 keys rebuilds exactly the cache in order, rewrites nothing, and ids and identities are pairwise distinct |
| `DeviceRegistry.MigratedStoreInv` | components/device_store/device_store_nvs.c:79-174 | a migrated store without lost names and with unique entries satisfies the same invariant |
| `RegistryEffects.DeleteEffect` | components/device_store/device_store.c:113-152 | in every reached state a delete that succeeds leaves no device with the id and exactly the other entries in their order, in cache and flash; otherwise nothing changes, and each result has its exact condition |
| `RegistryEffects.AddEffect` | components/device_store/device_store.c:78-111 | an add that succeeds appends the new device without an identity to the old entries; otherwise nothing changes, and the result is the first check that failed |
| `RegistryEffects.EditEffect` | components/device_store/device_store.c:154-181 | an edit that succeeds changes the name of that id's entry and nothing else |
| `RegistryEffects.SetIdentityEffect` | components/device_store/device_store.c:232-272 | an identity update that succeeds changes the identity of that id's entry and nothing else; an identity another device has is refused, and one the device has already needs no flash |
| `RegistryEffects.CallPersists` | components/device_store/device_store.c:78-272 | after every call in a reached state a reboot reads exactly the list after the call |
| `DeviceMigration.ParseBleAddr` | components/device_store/device_store_entry.c:20-41 | the cursor loop accepts exactly six hex pairs with colons or dashes and nothing after, and returns the bytes reversed |
| `DeviceMigration.LoadEntryV1` | components/device_store/device_store_migration.c:44-84 | key by key: required id, name falling back to the id, address blob or an id shaped like an address |
| `DeviceMigration.LoadEntryV2` | components/device_store/device_store_migration.c:88-128 | key by key: required id, name and type, identity keys both or neither |
| `DeviceMigration.LoadEntryV3` | components/device_store/device_store_migration.c:132-164 | key by key: required id and name, identity keys both or neither |
| `DeviceMigration.SaveEntry` | components/device_store/device_store_nvs.c:34-65 | writes exactly the v3 keys of the record and erases the legacy type and an absent identity |
| `DeviceMigration.EraseEntry` | components/device_store/device_store_nvs.c:67-77 | the prefix loop removes exactly the record's five keys |
| `DeviceRegistry.Registry.LoadAll` | components/device_store/device_store_nvs.c:79-174 | the load loop, its skip of unreadable records and the rewrite refine the value model |
| `DeviceRegistry.Registry.AddDevice` | components/device_store/device_store.c:78-111 | refines the add operation with every error code |
| `DeviceRegistry.Registry.PersistDelete` | components/device_store/device_store_nvs.c:199-213 | writes the shifted records, erases the last and updates the count |
| `DeviceRegistry.Registry.DeleteDevice` | components/device_store/device_store.c:113-152 | refines the delete operation; the cache changes only when persistence succeeded |
| `DeviceRegistry.Registry.EditDevice` | components/device_store/device_store.c:154-181 | refines the edit operation |
| `DeviceRegistry.Registry.SetBleIdentity` | components/device_store/device_store.c:232-272 | refines the identity update, its duplicate check and its no-change shortcut |
| `BleRemoval.CentralStaysInverse` | components/ble_central/ble_central_state.c:220-633 | through every run of the host task, the management task and the connection starts of any task, with the unlocked read after a disconnect as its own step: if no rollback is overtaken and no connection is started on a row that an unfinished disconnect may still clear, device and slot tables stay inverse to each other with at most one slot dialing |
| `BleRemoval.StartInv` | components/ble_central/ble_central_state.c:111-133 | the state after initialization satisfies the invariant of those runs |
| `BleRemoval.StepInv` | components/ble_central/ble_central_gap.c:30-67 | one step of such a run; neither task then clears a row while it is linked |
| `BleRemoval.ReserveBreaksIff` | components/ble_central/ble_central_state.c:385-439 | that premise is exact: a connection start can be followed by a run that breaks the tables, itself without a further offence, if and only if the host task's unfinished disconnect (before its test, before its lookup or before its clearing) may still clear the row |
| `BleRemoval.ForgetTouchesOwnRow` | components/ble_central/ble_central.c:166-238 | in every run neither critical section of a forget changes a row that another device uses |
| `BleRemoval.ForgetDisturbsIff` | components/ble_central/ble_central.c:166-219 | in every run with inverse tables, the marking of a forget changes another device's connection or cancels another device's connection attempt if and only if its row was cleared since the lookup and slot 0 is dialing or connected, and not leaving already, for another device |
| `BleRaces.RedialBreaksLink` | components/ble_central/ble_central_state.c:385-439 | a run from initialization: disconnect, redial by the supervisor, forget, and only then the host task's test, lookup and clearing, which clears a dialing row |
| `BleRaces.ReaddBreaksLink` | components/ble_central/ble_central_state.c:385-439 | the same with the device removed and registered again before the host task's test |
| `BleRaces.LateClearBreaksLink` | components/ble_central/ble_central_gap.c:30-67 | a run from initialization in which the row found for a removed device is cleared after another device got it, was dialed and forgotten |
| `BleRaces.StaleForgetDropsOther` | components/ble_central/ble_central.c:166-207 | from any reached state with a connected device being removed and another one connected on slot 0: a second forget that looks its row up before the host task clears it drops the other device's connection |
| `BleRaces.SecondDeleteDropsOther` | components/ble_central/ble_central.c:166-207 | such a run from initialization, with one host task and one management task |
| `BleRemoval.StaleRefsStayStale` | components/ble_central/ble_central_state.c:80-100 | a reference whose lifetime ended never matches again in any run |
| `BleTables.ForgetReachesOtherIff` | components/ble_central/ble_central.c:166-207 | forgetting device id on row d leaves every other device's connection alone if and only if the row is still that device's, or its slot number leads to no connected slot of another device |
| `BleTables.ForgetCancelsOtherIff` | components/ble_central/ble_central.c:196-219 | the connection attempt a forget of id on row d cancels is another device's if and only if the row is no longer that device's and its slot number leads to another device that is dialing |
| `BleTables.ForgetTouchesOtherIff` | components/ble_central/ble_central.c:166-226 | it leaves every other device's row alone if and only if no other device holds row d unmarked, and clearing the row if and only if no other device holds it marked |
| `BleTables.InitialInverse` | components/ble_central/ble_central_state.c:111-133 | the tables are inverse after initialization |
| `BleTables.RollbackInverseIff` | components/ble_central/ble_central_state.c:285-313 | a rollback keeps the tables inverse if and only if the reference's slot has not been taken over by a later lifetime |
| `BleTables.FinalizeInverseIff` | components/ble_central/ble_central_runtime.c:173-186 | finalizing a removal keeps the tables inverse if and only if the row is not linked |
| `BleTables.StaleRollbackBreaksLink` | components/ble_central/ble_central_state.c:285-313 | reserve, host reset, reserve by another device, then the first caller's rollback: the other device loses its link while its slot stays busy |
| `BleTables.DisconnectInverse` | components/ble_central/ble_central_state.c:385-439 | a disconnect keeps the tables inverse |
| `BleTables.ResetInverse` | components/ble_central/ble_central_state.c:583-633 | a host reset keeps the tables inverse |
| `BleTables.NoteFailureInverse` | components/ble_central/ble_central_runtime.c:233-256 | a recorded connect failure keeps the tables inverse |
| `BleTables.StaleCallbacksIgnored` | components/ble_central/ble_central_state.c:359-449 | connect, disconnect and disconnecting callbacks with such a reference change nothing |
| `BleEffects.LifetimeEnds` | components/ble_central/ble_central_state.c:220-439 | from every state with inverse tables: a started connection that is rolled back, that fails, or that connects, becomes ready and is disconnected, ends in the same tables, the old ones with one generation more in its slot and the row ready to be dialed again |
| `BleEffects.ReserveRefusals` | components/ble_central/ble_central_state.c:220-283 | a connection start is refused exactly for the first of: no such row, row unused, row busy, row linked, another slot dialing, no slot free; a refusal changes nothing |
| `BleEffects.ReserveEffect` | components/ble_central/ble_central_state.c:220-283 | an accepted start takes the first free slot under a new generation for its row, and nothing else changes |
| `BleEffects.DisconnectEffect` | components/ble_central/ble_central_state.c:385-439 | a disconnect is taken exactly for a current reference with the slot's handle, frees that slot and unlinks the row it named, a removing row staying removing |
| `BleEffects.RollbackEffect` | components/ble_central/ble_central_state.c:285-313 | a rollback frees the slot of a current reference only, and unlinks the first row in use on the slot number in any case |
| `BleEffects.ResetEffect` | components/ble_central/ble_central_state.c:583-633 | a host reset frees every occupied slot under a new generation, clears rows being removed, and takes every other row offline and unlinked |
| `BleEffects.FailureEffect` | components/ble_central/ble_central_runtime.c:233-256 | a connect failure touches only a connecting row, which backs off unlinked, and its slot if that names the row |
| `BleEffects.RegisterEffect` | components/ble_central/ble_central_runtime.c:22-45 | a registration claims the first unused row exactly when the device has none, offline and unlinked |
| `BleEffects.ForgetEffect` | components/ble_central/ble_central.c:166-207 | a forget marks its row; the handle to terminate is reported exactly for an occupied slot past dialing with a handle, which alone is marked leaving, and a dialing slot is reported for cancelling |
| `BleEffects.FinalizeEffect` | components/ble_central/ble_central_runtime.c:173-186 | clearing resets a row in use that is being removed and no other |
| `BleEffects.CallbackEffects` | components/ble_central/ble_central_state.c:359-491 | each link callback advances the slot of a current reference in the right state and changes nothing else |
| `BleTables.BleState.ReserveConnection` | components/ble_central/ble_central_state.c:220-283 | all result codes in order, and on success a live reference to a dialing slot owned by the device |
| `BleTables.BleState.RollbackStart` | components/ble_central/ble_central_state.c:285-313 | frees the slot only under a matching generation and unlinks the device by slot number |
| `BleTables.BleState.OnDisconnect` | components/ble_central/ble_central_state.c:385-439 | unlinks exactly the event's connection or reports it stale, and returns the released row with the name copied from it, whose state the caller reads later |
| `BleTables.BleState.HandleHostReset` | components/ble_central/ble_central_state.c:583-633 | frees every slot and unlinks every device in one pass |
| `BleTables.BleState.NoteConnectFailure` | components/ble_central/ble_central_runtime.c:233-256 | frees the device's slot and sends it to backoff unless it is being removed |
| `BleTables.BleState.OnConnectSuccess` | components/ble_central/ble_central_state.c:359-383 | advances exactly a live dialing slot and records its handle |
| `BleTables.BleState.MarkLeaving` | components/ble_central/ble_central_state.c:441-449 | marks exactly a live slot as disconnecting |
| `BleTables.BleState.StartDiscovery` | components/ble_central/ble_central_state.c:477-491 | advances exactly a live securing slot and returns its handle, none otherwise |
| `BleTables.BleState.FinishDiscovery` | components/ble_central/ble_central_state.c:468-475 | marks exactly a live slot ready |
| `BleTables.BleState.FindOrRegister` | components/ble_central/ble_central_runtime.c:87-103 | returns the row in use under the id, claiming the first unused one; fails only when every row belongs to another device |
| `BleTables.BleState.MarkForgotten` | components/ble_central/ble_central.c:166-207 | marks the looked-up row, cleared since or not, and says exactly whether its slot number leads to a link, to a dialing to cancel, or to which handle to terminate |
| `BleTables.BleState.FinalizeRemove` | components/ble_central/ble_central_runtime.c:173-186 | clears exactly a row that is being removed |
| `IdentityPersister.CleanMeansPersisted` | components/ble_central/ble_central_identity.c:36-144 | with submits anywhere between take, store and complete, every device with an accepted update has a slot with the latest address, and if that slot is clean the last terminal store call used that address |
| `IdentityPersister.UndisturbedTurnDrains` | components/ble_central/ble_central_identity.c:108-144 | an undisturbed worker turn retires exactly one dirty slot |
| `IdentityPersister.RetiredSlot` | components/ble_central/ble_central_identity.c:93-106 | the slot a completion cleans carries the address that was stored |
| `IdentityPersister.SubmitEffect` | components/ble_central/ble_central_identity.c:36-77 | in a reached state a submit is refused if and only if every slot belongs to another device; an accepted one makes the device's one slot dirty with the new address under the next generation |
| `IdentityPersister.CompleteEffect` | components/ble_central/ble_central_identity.c:93-106 | a completion cleans the device's slot if and only if no later update of it was accepted |
| `IdentityPersister.IdentityTable.SubmitUpdate` | components/ble_central/ble_central_identity.c:36-77 | writes the device's slot or the first unused one, bumps its generation and marks it dirty, or refuses |
| `IdentityPersister.IdentityTable.TakeNext` | components/ble_central/ble_central_identity.c:79-91 | copies the first dirty slot |
| `IdentityPersister.IdentityTable.Retire` | components/ble_central/ble_central_identity.c:93-106 | cleans the slot only if device and generation still match |
| `WebSocketFraming.ReassemblyExact` | components/mcp_ws_bridge/mcp_ws_bridge_ws.c:104-179 | for every well-formed stream of frame pieces, control pieces anywhere, the messages delivered are exactly the text messages within the limit, each the concatenation of its pieces |
| `WebSocketFraming.ControlIgnored` | components/mcp_ws_bridge/mcp_ws_bridge_ws.c:104-115 | control pieces change nothing that is delivered |
| `WebSocketFraming.ReassemblyRecovers` | components/mcp_ws_bridge/mcp_ws_bridge_ws.c:104-179 | whatever pieces came before, however malformed, the messages of a well-formed stream that follows are delivered exactly |
| `WebSocketFraming.SplitIsOneMessage` | components/mcp_ws_bridge/mcp_ws_bridge_ws.c:463-503 | the transmitted frames form one message (section 5.4 of RFC 6455) with the payload as its content and no frame over the fragment size |
| `WebSocketFraming.SplitThenReassemble` | components/mcp_ws_bridge/mcp_ws_bridge_ws.c:463-503 | any chunking of the transmitted frames is reassembled to the payload, or dropped when over the limit |
| `WebSocketBridge.SendFragments` | components/mcp_ws_bridge/mcp_ws_bridge_ws.c:471-496 | the loop reports the payload length if and only if every fragment was accepted in full |
| `WebSocketBridge.Transmit` | components/mcp_ws_bridge/mcp_ws_bridge_ws.c:463-503 | the success test holds if and only if every frame and the closing frame were accepted, and then the wire holds the split message |
| `WebSocketBridge.Receiver.OnData` | components/mcp_ws_bridge/mcp_ws_bridge_ws.c:104-179 | the in-place buffer refines the reassembly machine and never writes past its end |
| `CapabilityStream.CommittedAsAnnounced` | components/device_schema/device_schema_protocol.c:49-334 | in every run a committed snapshot was opened by a BEGIN and closed by an END between which exactly its tools and features were sent in sequence under its id with the announced counts and revision; commands and feature ids are distinct, tools valid, links in range and type-compatible |
| `CapabilityStream.CommittedChangesOnlyAtEnd` | components/device_schema/device_schema_protocol.c:268-334 | any other event, including rejected and partial streams, leaves committed tools, features and revision alone; a frame can only set the state of a never committed record to ERROR |
| `CapabilityStream.WellFormedStreamCommits` | components/device_schema/device_schema_protocol.c:49-334 | while a discovery runs, a BEGIN, a well-formed stream of the announced size and its END commit exactly that stream |
| `CapabilityStream.StagedAlways` | components/device_schema/device_schema_protocol.c:99-264 | while a stream is active the staged part is exactly the frames accepted since its BEGIN |
| `CapabilityStream.ToolIn` | components/device_schema/device_schema_protocol.c:99-132 | a frame yields a tool only when addressed, complete and valid |
| `CapabilityStream.FeatureIn` | components/device_schema/device_schema_protocol.c:168-211 | a frame yields a feature only when addressed, complete and matching its template |
| `CapabilityFields.ToolFields` | components/device_schema/device_schema_protocol.c:99-132 | a frame yields a tool exactly when it is addressed, complete, of a valid name and type and, for INT, with a usable range; the tool then shows the frame's command, unit, type, flags, range and its title or command |
| `CapabilityFields.FeatureFields` | components/device_schema/device_schema_protocol.c:168-211 | the same of a feature frame against the property table and the kinds' templates |
| `CapabilityFields.SentIsCommitted` | components/device_schema/device_schema_protocol.c:49-334 | while a discovery runs, a BEGIN, frames that may be sent in the announced numbers, and END commit a snapshot that shows exactly those frames, each feature linked to the tool its frame names |
| `CapabilityFields.ToolEffect` | components/device_schema/device_schema_protocol.c:99-164 | a tool frame is staged exactly when it is the next announced one of the active stream with a new command; otherwise the stream is given up |
| `CapabilityFields.FeatureEffect` | components/device_schema/device_schema_protocol.c:168-264 | a feature frame is staged exactly when it is the next announced one with a new id and names no tool or one that may write it; otherwise the stream is given up |
| `CapabilityFields.EndEffect` | components/device_schema/device_schema_protocol.c:268-334 | an END commits exactly when everything announced is staged and gives the stream up otherwise |
| `CapabilityFields.BeginEffect` | components/device_schema/device_schema_protocol.c:49-95 | a BEGIN taken during a discovery starts an empty snapshot under its id and revision |
| `CapabilityFields.OtherFramesIgnored` | components/device_schema/device_schema_protocol.c:49-334 | frames that are not to take change nothing |
| `CapabilityRecord.ValidCommandName` | components/device_schema/device_schema_validate.c:10-19 | the scan accepts exactly names of 1 to 31 allowed characters |
| `CapabilityRecord.Buffer.FindCommand` | components/device_schema/device_schema_validate.c:54-65 | the scan over the counted part of the tool array returns the first tool with the command, else -1 |
| `CapabilityRecord.DeviceSchema.HandleBegin` | components/device_schema/device_schema_protocol.c:49-95 | the staging arrays and counts mean exactly the snapshot the step function stages |
| `CapabilityRecord.DeviceSchema.HandleTool` | components/device_schema/device_schema_protocol.c:99-164 | appending to the twelve-place tool array within its count refines the step function, duplicate check and rejection included |
| `CapabilityRecord.DeviceSchema.HandleFeature` | components/device_schema/device_schema_protocol.c:168-264 | appending to the twelve-place feature array within its count refines the step function, tool resolution and rejection included |
| `CapabilityRecord.DeviceSchema.HandleEnd` | components/device_schema/device_schema_protocol.c:268-334 | copies the staging arrays over the committed ones exactly for a complete staged stream and rejects anything else |
| `LedPattern.LevelHolds` | components/board_io/board_led_pattern.c:22-70 | each pattern's level is constant until its reported next transition, for ever when none is reported |
| `LedPattern.LevelFlips` | components/board_io/board_led_pattern.c:22-70 | each pattern's level flips exactly at its reported next transition |
| `LedPattern.LevelConstantUntilDeadline` | components/board_io/board_led.c:146-209 | with epochs not after now and no new notification, the driven level is constant from now until the returned deadline |
| `LedPattern.EpochsNotAhead` | components/board_io/board_led.c:98-144 | under a nondecreasing clock every sequence of base, pulse, identify, arm and processing calls keeps both epochs at or before now |
| `LedPattern.LevelConstantInEveryRun` | components/board_io/board_led.c:98-209 | in every state such a sequence reaches, the level is constant from now until the deadline reported, for ever when none is |
| `LedPattern.DrivenUntilDeadline` | components/board_io/board_led.c:146-209 | the level a processing call drives stays right until the deadline reported after it |
| `LedPattern.LevelFlipsAtDeadline` | components/board_io/board_led.c:172-209 | when the deadline is the pattern's own edge, the driven level changes there |
| `LedPattern.ProcessingIsTransparent` | components/board_io/board_led.c:146-170 | an earlier processing call does not change any later level |
| `LedWaves.StatusShows` | components/board_io/board_led_pattern.c:32-70 | with no overlay running, the level is the status's waveform since its epoch: 100 ms in 200 while booting, 500 in 1000 provisioning, 125 in 250 connecting, steady when ready, 150 in 1000 degraded, three pulses of 150 ms in 1750 on error |
| `LedWaves.OverlayShows` | components/board_io/board_led_pattern.c:72-125 | factory reset over restart over error over identification over pulse over status, each with its waveform and epoch |
| `LedWaves.PulseShows` | components/board_io/board_led.c:109-116 | a pulse lights the LED for 80 ms over any status but an error, and then the status shows again in its own phase |
| `LedWaves.IdentificationShows` | components/board_io/board_led.c:118-126 | an identification blinks 250 ms in 500 for five seconds over any status but an error, and then the status shows again in its own phase |
| `LedWaves.ArmShows` | components/board_io/board_led.c:128-144 | arming starts its pattern unless armed already; disarming gives the status back and leaves a pulse or an identification alone |
| `LedPattern.LedDriver.ErrorEdge` | components/board_io/board_led_pattern.c:51-63 | the loop over the bounds returns the distance to the next bound |
| `LedPattern.LedDriver.Process` | components/board_io/board_led.c:146-170 | drops an expired overlay and drives the level of the pattern in force |
| `LedPattern.LedDriver.NextWake` | components/board_io/board_led.c:172-209 | returns the earlier of the overlay deadline and the pattern edge, none when neither exists |

## Left out

- FreeRTOS tasks, queues and timers, NimBLE, QCBOR, cJSON, HTTP and WebSocket clients: only their events and results appear, as inputs. The urgent event queue has no capacity limit in the model: its events may arrive at any time.
- Start, stop and deinit handshakes, logging, statistics counters other than the mailbox-conflict, busy and queue-full ones, event publication, and allocation failures.
- The ring of completed ACKs (components/device_command_service/device_command_pending.c:13-33), which only classifies duplicate ACKs for statistics.
- Counters of jobs, leases, slot generations and transactions are unbounded; only the 32-bit request id and the 32-bit configuration revision wrap.
- Request payloads and ACK fields other than the integer value are carried unchanged and have no fields in the model; the device of a job is its id string.
- NVS is a map from keys to typed values and every write of a call succeeds or none does; the text form of the keys and partial write failures are not modelled.
- A forget cancels the connection attempt in progress after it leaves the critical section; the model takes the attempt that is in progress in the section.
- `ble_central_disconnect` (components/ble_central/ble_central.c:135-160), which nothing calls, looks a row up and uses it unchecked like the forget; it and the BLE reads made outside the lock other than the one after a disconnect are not modelled.
- Link events run on the one NimBLE host task, and registrations and forgets on the one HTTP server task, their only caller; connection starts, rollbacks and connect failures may come from any task at any time.
- BLE retry counts, backoff times, peer addresses, MTU, GATT handles and callback contexts; the connection slot keeps state, owner, generation and handle.
- Setting flags, bounds, step and maximal length are copied verbatim by the settings stream and are not fields of its model; the settings transaction has them as fields of its rules.
- The values stream's sequence numbers and string pool: the transaction takes any committed list of values, and of the stream only the hiding of secret values is modelled.
- A settings transaction is identified by its position among the saves of its device; the global 64-bit transaction counter, lease release and the table of last results are not modelled. The scheduler answers each lease request of the settings actor at most once, and posting the result does not fail.
- The transaction and record tables are read and written without a common lock in the code; the model makes every handler one step, and of the read-back only the two halves around the unlock are separate steps. One task reconciles, so at most one decided outcome is undelivered.
- A schema stream and a values stream that overlap on one device share staging counters in the code; the model has no such overlap.
- Capability persistence (NVS copy and dirty flag), commit listeners and the serializer that grants discovery to one device at a time: discovery start, settlement, loss and forgetting are free events on one record.
- mcp_codec, mcp tool exposure, web server, REST handlers and the CBOR codec.
- LED statuses and overlays outside their enumerations, and the GPIO polarity.
