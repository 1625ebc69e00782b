# Verification model of the power-meter firmware

The firmware keeps its identity, configuration, commands and telemetry through power cuts. This project models the
protocols that do so, over NVS as a store of atomic keys, and proves what every run of them keeps. It also models the
record codec and recovery scanner of the SD journal, and five pieces of arithmetic and normal forms.

`dafny verify dfyconfig.toml` checks everything.

| module | models | fault model |
|---|---|---|
| `SequenceStore`, `SequenceProgress` | the sequence allocator: two slots, a selector, reservation in blocks; and exactly when it can still hand out a number | every NVS call may fail without effect, fail although durable, tear the slot it writes, reported or not, or be cut |
| `SequenceTasks` | the same allocator's state in memory under tasks that share it without a lock | overlapping operations |
| `ConfigTasks`, `ConfigStore` | the configuration switch: staging, test, commit, activation, discards, under any interleaving of tasks, and the operations as they are written | the same |
| `CommandLedger`, `CommandRuntime` | the command ledger, and the queue, control task, OTA tasks and boot reconciliation that point into it | a failed write may have no effect, be durable or be torn, or be cut; a write reported as successful is whole |
| `LedgerFaults` | the same ledger with zeroization, and exactly which writes lose a ledger | in addition a write reported as successful may be torn |
| `OtaClaim` | the claim that is to keep OTA tasks apart, over every sequence of commands | none |
| `CommitCommand` | the ledger entry of a commit command that a journal depends on | none |
| `RotationTypes`, `RotationProtocol` | credential rotation over journal, configuration and ledger | power loss between any two writes; memory or locks missing |
| `DestructiveTypes`, `DestructiveProtocol` | storage format and data reset over journal, ledger, sequence store, card and configuration | power loss between any two writes; memory missing; a format that fails after destroying anything; waits for the storage task that time out |
| `JointJournals` | one device with both journals | power loss between any two writes |
| `Words`, `Crc`, `CrcDivision`, `JournalCodec`, `RecoveryScan`, `ReadBatch`, `Pzem` | bytes, CRC-32 and CRC-16, also as remainders of polynomial division, the 128-byte record, the scanner, the batch, meter frames | arbitrary bytes |
| `Calendar`, `Query`, `Version`, `Deadline` | day numbers, canonical queries, version order, fixed-rate deadlines | none |

`Esp` holds the machine widths, `esp_err_t`, and the environment that decides how NVS calls end; `ConfigTypes` the
configuration record and its slots.

The pattern for a protocol is the same throughout. What is durable is a value. A relation says what one step may do to
it, its guards being what the source checks before it acts. Lemmas show that every step keeps an invariant, and a
theorem follows for every run by induction. The operations are methods of a class that update the fields the source
updates, in its order and with its branches, and their contracts say that they make such steps. What decides a branch is
also stated in the fields it reads, apart from the function that computes it, in both directions where nothing fails.

## Results that are not what the code intends

Each of these is a lemma with a concrete state, and where it applies the exact condition.

- Sequence store: a cut on the very first boot, after the slot and before the selector, leaves a store that every later
  boot loads and that never hands out a number, because persist refuses a missing selector
  (`SequenceProgress.FirstBootCutIsStuck`). One torn slot is enough for load to refuse for ever
  (`SequenceProgress.TornSlotIsStuck`). `SequenceProgress.IssuesExactly` gives the exact condition on NVS.
- Sequence store: a boot abandons what was reserved and not used, and numbers handed out afterwards exceed all of that
  (`SequenceStore.ReservationsAreAbandoned`) unless the floor is then raised to less than what was reserved: the next
  number is the one after the floor, one of the abandoned ones (`SequenceStore.RaisedFloorDecides`, both directions).
  None of these was handed out before.
- Command ledger: `command_zeroize_payload_locked` does not roll its generation back, so a failed zeroization followed by
  a torn retry loses the last persisted ledger (`LedgerFaults.FailedZeroizationLosesTheLedger`, a run from a blank
  device). Nothing is read back either, so a write torn without notice loses exactly the ledger it reported
  (`LedgerFaults.UnnoticedTearLosesTheLastLedger`), unlike in the sequence and configuration stores. The exact
  condition over runs is `LedgerFaults.RecentExactly`.
- Sequence allocator between tasks: its operations copy the shared state and assign it back without a lock. An
  acknowledgement overtaken by a number makes that number be handed out twice
  (`SequenceTasks.OvertakenReportReusesANumber`); numbers stay fresh exactly when no assignment was overtaken
  (`SequenceTasks.FreshExactly`). A number that overtakes an acknowledgement makes memory forget it
  (`SequenceTasks.OvertakenClaimForgetsAReport`), with the exact condition in `SequenceTasks.KeptExactly`.
- Stateless runtime: an OTA command refused because an OTA is running releases the claim of the running one, so the next
  OTA command starts a second task (`CommandRuntime.SecondOtaTaskStarts`). Two tasks run exactly when an attempt started
  one, another followed, and a third with the resources for a task arrived before any ended (`OtaClaim.TwoTasksExactly`).
- Queue of the retained firmware: a prepare command that is delivered again after its entry was evicted waits in the
  queue, is finished by a resume without being executed, and then another command takes its entry and is executed twice
  (`RotationProtocol.RedeliveredPrepareIsOvertaken`). `RotationProtocol.Device.Resume` says exactly when a resume does
  that to the queue.
- Destructive format: a wait for the storage task that times out leaves the format queued. The retry queues another and is
  woken by the first, so STORAGE_FORMAT_DURABLE is recorded with a format still to come
  (`DestructiveTypes.TimedOutFormatIsRepeated`), which then wipes the card in whatever phase
  (`DestructiveTypes.QueuedFormatWipes`). Without a format asked for while an answer is owed this cannot happen
  (`DestructiveTypes.FormatIsDurable`).
- Destructive journal: a cut between erasing the two keys of an acknowledged transaction always falls back to the phase
  before (`DestructiveTypes.EraseFallsBack`). Nothing is formatted again, but the journal stays there, refusing every
  prepare command, until its commit command is acknowledged again (`DestructiveTypes.FallenBackWaits`,
  `DestructiveTypes.FallenBackLeavesExactly`), although that result is no longer pinned.
- Recovery scan: accepted sequence numbers need not strictly increase, since the largest 64-bit number may repeat
  (`RecoveryScan.LargestRepeats`); they do exactly when at most one record carries it (`RecoveryScan.IncreaseExactly`).
- Deadline: the closed form overflows for exactly one triple of arguments, with a period of one microsecond
  (`Deadline.OverflowExactly`).

## Model

| member | source | states |
|---|---|---|
| `SequenceStore.SequenceIdentity` | components/pm_storage/pm_sequence.c:36-199 | over every run of load, next, acknowledge, raise_floor, reboots and faults, numbers returned with ESP_OK strictly increase and acknowledgements reported OK never go back |
| `SequenceStore.StepKeepsInv` | components/pm_storage/pm_sequence.c:85-199 | whatever load would find is past everything issued and acknowledged, after every step |
| `SequenceStore.PersistKeepsFound` | components/pm_storage/pm_sequence.c:36-83 | however a persist ends, torn and lost writes included, the next load finds a state no older than what was reported |
| `SequenceStore.CommitKeepsInv` | components/pm_storage/pm_sequence.c:36-83 | after a persist that ends in ESP_OK, what was just reported is among what every later load is past |
| `SequenceStore.FailedPersistKeepsInv` | components/pm_storage/pm_sequence.c:36-83 | a persist that ends in anything else may or may not be found, and either way nothing is reused |
| `SequenceStore.LoadKeepsInv` | components/pm_storage/pm_sequence.c:85-126 | load, cut or refused or successful, keeps what the next load would find past everything issued and acknowledged |
| `SequenceStore.LoadSkips` | components/pm_storage/pm_sequence.c:117-124 | memory after load is the newer slot, its next number the larger of its own and the one after its reservation, so the reserved remainder is burnt |
| `SequenceStore.LoadableExactly` | components/pm_storage/pm_sequence.c:98-123 | in the slots' fields, exactly what load accepts |
| `SequenceStore.ReservationsAreAbandoned` | components/pm_storage/pm_sequence.c:118-124 | over every run: after a boot that found a slot, every number handed out in that boot or later exceeds all that the slot had reserved, as long as the floor is not raised to less |
| `SequenceStore.RaisedFloorDecides` | components/pm_storage/pm_sequence.c:174-199 | after a raised floor the next number is the one after it, above the abandoned reservation if and only if the floor is not below that |
| `SequenceProgress.IssuesExactly` | components/pm_storage/pm_sequence.c:36-199 | for every content of NVS, some run from a reboot hands out a number if and only if load succeeds, the selector is usable, and generations and numbers are left, raising the floor included |
| `SequenceProgress.StepIsHopeless` | components/pm_storage/pm_sequence.c:36-199 | from any other content no operation and no fault ever helps |
| `SequenceProgress.PersistIsHopeless` | components/pm_storage/pm_sequence.c:36-83 | a persist, however it ends, brings the next number no nearer than by itself |
| `SequenceProgress.SomeRunIssues` | components/pm_storage/pm_sequence.c:85-199 | otherwise a run that hands one out is given |
| `SequenceProgress.FirstBootCutIsStuck` | components/pm_storage/pm_sequence.c:46-52 | after a cut on the very first boot between slot and selector load succeeds and no number is ever handed out |
| `SequenceProgress.TornSlotIsStuck` | components/pm_storage/pm_sequence.c:109-113 | with one torn slot load refuses for ever, whatever the other slot holds |
| `SequenceTasks.FreshExactly` | components/pm_storage/pm_sequence.c:128-172 | for every interleaving of any number of tasks, numbers increase with memory past them at every instant if and only if no operation assigns a copy made before a number was handed out in between |
| `SequenceTasks.EventIsFreshExactly` | components/pm_storage/pm_sequence.c:128-172 | the same for one copy, assignment or failed persist |
| `SequenceTasks.OvertakenReportReusesANumber` | components/pm_storage/pm_sequence.c:157-172 | a run of two tasks that hands out one number twice |
| `SequenceTasks.KeptExactly` | components/pm_storage/pm_sequence.c:157-172 | for every interleaving, memory acknowledges all that was reported with ESP_OK, at every instant, if and only if no operation assigns a copy older than the last rise that acknowledges less |
| `SequenceTasks.EventKeepsExactly` | components/pm_storage/pm_sequence.c:157-172 | the same for one copy, assignment or failed persist |
| `SequenceTasks.OvertakenClaimForgetsAReport` | components/pm_storage/pm_sequence.c:146-172 | a run of two tasks after which memory no longer holds a reported acknowledgement |
| `SequenceStore.Store.Persist` | components/pm_storage/pm_sequence.c:36-83 | slot, read-back, selector; ESP_OK only if the bumped state is stored and selected, and always when nothing fails and the generation is not exhausted |
| `SequenceStore.Store.Load` | components/pm_storage/pm_sequence.c:85-126 | on success next is past the reservation, the larger of the slot's next and the one after its reservation, and every other field is that of the newer slot; 1 on a first boot |
| `SequenceStore.Store.ReadSlots` | components/pm_storage/pm_sequence.c:85-126 | makes a load step, and with no fault succeeds exactly when the slots are loadable |
| `SequenceStore.Store.Next` | components/pm_storage/pm_sequence.c:128-155 | makes a next step; an issued number exceeds all earlier ones; with no fault it succeeds if and only if a number and a generation are left |
| `SequenceStore.Store.ReserveBlock` | components/pm_storage/pm_sequence.c:133-145 | the reservation of a new block is durable before a number of it is used |
| `SequenceStore.Store.Allocate` | components/pm_storage/pm_sequence.c:146-154 | one number is claimed durably before it is returned |
| `SequenceStore.Store.Acknowledge` | components/pm_storage/pm_sequence.c:157-172 | never lowers the acknowledgement, refuses what was never seen, and with no fault succeeds exactly when the store is writable |
| `SequenceStore.Store.RaiseFloor` | components/pm_storage/pm_sequence.c:174-199 | leaves all counters at the floor with every issued number below, or refuses |
| `ConfigTasks.OnlyPromotedConfigurationsBoot` | components/pm_config/pm_config.c:54-562 | for every interleaving of tasks, power cuts and faults, what boots is the old configuration or a whole one that was committed after NETWORK_TESTED or activated; it has an https origin, name, network, certificate and time zone, a rating of 1 to 100, a secret of at most 32 bytes, an acknowledgement within the floor and a complete static address; a bootable configuration is never lost |
| `ConfigTasks.CommittedWasReadBack` | components/pm_config/pm_config.c:225-309 | what a transaction carries to its commit was found in NVS exactly as staged, earlier in the same run |
| `ConfigTasks.StepProtectsSelected` | components/pm_config/pm_config.c:193-562 | no step writes or erases the slot the selector names; the selector moves only to content a transaction or activation has checked |
| `ConfigTasks.StepKeepsOthers` | components/pm_config/pm_config.c:54-120 | the critical sections keep what every other task relies on |
| `ConfigTasks.StepIsDisciplined` | components/pm_config/pm_config.c:54-120 | a task touches the store only while it holds the mutation, and the mutation only while it may |
| `ConfigTasks.MoveKeepsInv` | components/pm_config/pm_config.c:54-562 | transactions and mutations stay exclusive over every move of every task |
| `ConfigTasks.BootIsSound` | components/pm_config/pm_config.c:54-70 | every boot starts in the invariant, whatever NVS holds |
| `ConfigStore.OperationsAreRuns` | components/pm_config/pm_config.c:225-562 | the operations as written are runs of the machine that the theorems are about |
| `ConfigStore.OperationsKeepBooting` | components/pm_config/pm_config.c:225-562 | no operation, cut or failing anywhere, changes what boots except to what it committed or activated |
| `ConfigStore.Store.ClaimNewTransaction` | components/pm_config/pm_config.c:54-70 | succeeds exactly when nothing is held, with a non-zero identifier also when the counter wraps |
| `ConfigStore.Store.ClaimTransaction` | components/pm_config/pm_config.c:72-82 | succeeds exactly for the owner while no mutation is in progress |
| `ConfigStore.Store.ClaimUnowned` | components/pm_config/pm_config.c:84-94 | succeeds exactly when neither transaction nor mutation is held |
| `ConfigStore.Store.ReleaseTransaction` | components/pm_config/pm_config.c:103-111 | only the owner's identifier releases anything |
| `ConfigStore.Store.BeginTransaction` | components/pm_config/pm_config.c:147-309 | makes machine steps; on success the candidate has an https origin and the other fields asked for, was read back and the transaction names it; with no fault INVALID_ARG exactly when a field is wrong, and otherwise success exactly when the store is unclaimed, or claimed by the same transaction, and the selector usable; a refusal before the claim changes nothing, a failure after it zeroes the struct |
| `ConfigStore.Store.ReadBackStaged` | components/pm_config/pm_config.c:280-290 | the exact error code of the read-back, for every way the NVS call ends |
| `ConfigStore.Store.Stage` | components/pm_config/pm_config.c:245-306 | write, commit, read back and compare; with no fault it succeeds exactly when the selector is usable and names another slot |
| `ConfigStore.Store.MarkNetworkTested` | components/pm_config/pm_config.c:311-319 | succeeds exactly for an active, read-back transaction |
| `ConfigStore.Store.CommitTransaction` | components/pm_config/pm_config.c:321-369 | on success the configuration that was read back is the one that boots; with no fault success exactly for a tested, owned transaction whose slot still holds what was read back |
| `ConfigStore.Store.CheckStaged` | components/pm_config/pm_config.c:340-353 | the exact error code of the check before the selector moves, for every way the NVS call ends |
| `ConfigStore.Store.Promote` | components/pm_config/pm_config.c:337-368 | generation and digest are checked again before the selector moves |
| `ConfigStore.Store.AbortTransaction` | components/pm_config/pm_config.c:556-562 | gives up the transaction and nothing else |
| `ConfigStore.Store.ActivateStaged` | components/pm_config/pm_config.c:397-436 | on success the named slot is selected and boots with that generation; with no fault exactly when the store is unclaimed, the slot readable with it, and a selector there |
| `ConfigStore.Store.DiscardStaged` | components/pm_config/pm_config.c:438-480 | on success the slot is empty and was not the selected one; with no fault exactly when it was empty or readable with that generation, unselected and unclaimed |
| `ConfigStore.Store.DiscardInactiveGeneration` | components/pm_config/pm_config.c:482-524 | on success the inactive slot is empty or of another generation; with no fault exactly when it was empty or readable and nothing claimed |
| `ConfigStore.Store.EraseInactiveSlot` | components/pm_config/pm_config.c:526-554 | on success the inactive slot is empty; with no fault exactly when the selector is usable and nothing claimed |
| `CommandLedger.CrashAtomicity` | components/pm_commands/pm_commands.c:111-284 | over every run, load returns the last persisted ledger or one being written since, never the equal-generation conflict, and memory is what was last persisted or loaded |
| `CommandLedger.LoadFindsRecent` | components/pm_commands/pm_commands.c:218-284 | what the two slots decide, for every state the invariant allows |
| `CommandLedger.PersistKeepsInv` | components/pm_commands/pm_commands.c:111-135 | the parity of the generation keeps the last persisted ledger out of the way of the next write |
| `CommandLedger.LoadKeepsInv` | components/pm_commands/pm_commands.c:218-284 | load and first boot keep the slots of different parity |
| `LedgerFaults.RecentExactly` | components/pm_commands/pm_commands.c:111-481 | over every run with failing zeroizations and unnoticed tears, load finds a recent ledger at every instant if and only if no write tore with nothing behind it and no tear went unnoticed |
| `LedgerFaults.ApplyIsRecentExactly` | components/pm_commands/pm_commands.c:111-481 | the same for one event, both directions |
| `LedgerFaults.BackedByCount` | components/pm_commands/pm_commands.c:434-448 | while the last reported ledger is in its slot, the next write has something behind it if and only if an even number of zeroizations failed since, or a failed write reached the other slot |
| `LedgerFaults.GenerationsCountFailures` | components/pm_commands/pm_commands.c:434-448 | memory's generation is ahead of the last reported one by the number of zeroizations that failed since |
| `LedgerFaults.BackedExactly` | components/pm_commands/pm_commands.c:111-135 | the same in terms of the parities of the two generations |
| `LedgerFaults.FailedZeroizationLosesTheLedger` | components/pm_commands/pm_commands.c:434-448 | the losing run, from a blank device |
| `LedgerFaults.UnnoticedTearLosesTheLastLedger` | components/pm_commands/pm_commands.c:111-135 | a reported ledger is found if and only if its write did not tear; otherwise load brings the one before back |
| `LedgerFaults.ApplyKeepsInv` | components/pm_commands/pm_commands.c:111-481 | slots keep their parities, so the equal-generation conflict stays unreachable even then |
| `LedgerFaults.OrdinaryEventsAreSteps` | components/pm_commands/pm_commands.c:111-135 | events without zeroization and unnoticed tears are the steps of crash atomicity |
| `LedgerFaults.OrdinaryRunsAreRecent` | components/pm_commands/pm_commands.c:111-135 | in a run of such events no write is harmful, so load finds a recent ledger at every instant |
| `CommandLedger.Store.ZeroizePayload` | components/pm_commands/pm_commands.c:434-448 | neither the plaintext nor the generation is restored when the write fails |
| `CommandLedger.PlacedIsSound` | components/pm_commands/pm_commands.c:318-345 | admission keeps ids and idempotency keys of occupied entries pairwise distinct |
| `CommandLedger.ChangedIsSound` | components/pm_commands/pm_commands.c:367-481 | so does every change of an entry that keeps its identity |
| `CommandLedger.NoneRecyclable` | components/pm_commands/pm_commands.c:318-334 | a round-robin search that finds nothing has seen every entry unfinished or pinned |
| `CommandLedger.FindCommand` | main/app_main.c:788-799 | finds the first entry with an id of 36 characters, or there is none or the id is not one |
| `CommandLedger.Store.Persist` | components/pm_commands/pm_commands.c:111-148 | the generation rises before the write; the written slot is the one of its parity |
| `CommandLedger.Store.Load` | components/pm_commands/pm_commands.c:218-284 | makes a load step; with no fault it is refused only when the slots are |
| `CommandLedger.Store.PersistOrRestore` | components/pm_commands/pm_commands.c:340-364 | a failed operation puts the ledger in memory back; with no fault it succeeds exactly while the generation lasts |
| `CommandLedger.Store.FindMatch` | components/pm_commands/pm_commands.c:298-317 | the first entry with the id or the key of an incoming command |
| `CommandLedger.Store.FindRecyclable` | components/pm_commands/pm_commands.c:318-331 | the nearest entry after `next`, cyclically, that may be recycled |
| `CommandLedger.Store.Accept` | components/pm_commands/pm_commands.c:286-365 | a redelivery returns its entry and changes nothing; a new command takes the next recyclable entry with the incoming fields; NO_MEM exactly when every entry is unfinished or pinned |
| `CommandLedger.Store.Place` | components/pm_commands/pm_commands.c:336-364 | the new entry is persisted, or the ledger is as before; an expired command is recorded and reported as such |
| `CommandLedger.Store.Transition` | components/pm_commands/pm_commands.c:367-400 | progress never falls, final states are never left, failures change nothing |
| `CommandLedger.Store.AcknowledgeResult` | components/pm_commands/pm_commands.c:402-432 | unpins exactly the named finished command |
| `CommandLedger.Store.ReconcileBoot` | components/pm_commands/pm_commands.c:450-481 | ends an unfinished entry in the state, code and text asked for, or refuses and changes nothing |
| `CommandRuntime.RoomForPending` | main/app_main_stateless.c:404-410 | a ticket about to be queued finds room, because tickets point at distinct ledger entries |
| `CommandRuntime.Runtime.Admit` | components/pm_network/pm_network_v2.c:633-690 | a newly admitted command gets an entry that nobody's hands hold, in state accepted; it is to be queued exactly when it succeeded and neither id nor key was there |
| `CommandRuntime.Runtime.Send` | main/app_main_stateless.c:404-410 | the queue of ledger size never rejects a send |
| `CommandRuntime.Runtime.Receive` | main/app_main_stateless.c:376-390 | the entry taken still belongs to the command it was queued for |
| `CommandRuntime.Runtime.Execute` | main/app_main_stateless.c:312-374 | a command other than a snapshot or self-test is started at most once per admission, across reboots; afterwards its entry has succeeded or failed with the code its kind calls for, waits for the restart, or is an OTA task's |
| `CommandRuntime.Runtime.Carry` | main/app_main_stateless.c:315-373 | the same for the command taken, from its transition to running on |
| `CommandRuntime.Runtime.Perform` | main/app_main_stateless.c:317-373 | what each kind of command ends in, and with which code |
| `CommandRuntime.Runtime.End` | main/app_main_stateless.c:370-372 | succeeded at 100 percent for ESP_OK, failed at the progress reached for anything else |
| `CommandRuntime.StartIsOnce` | components/pm_commands/pm_commands.c:177-196 | a start keeps the history free of repetitions if its entry was not started since its admission or its kind may be repeated |
| `CommandRuntime.StartedMeans` | components/pm_commands/pm_commands.c:177-196 | an entry started once and no longer counted as started was admitted again in between |
| `CommandRuntime.Runtime.StartOta` | main/app_main_stateless.c:348-365 | when an OTA task takes a command over, and what becomes of the claim |
| `CommandRuntime.Runtime.OtaFailed` | main/app_main_stateless.c:270-299 | the command is failed with the code of the error, after its task has let go of it and the claim is free |
| `CommandRuntime.Runtime.OtaInstalled` | main/app_main_stateless.c:270-299 | the command waits for the restart, still held |
| `CommandRuntime.Runtime.Acknowledge` | main/app_main_stateless.c:301-310 | acknowledgements never touch a held entry |
| `CommandRuntime.Runtime.Boot` | main/app_main_stateless.c:412-449 | after a boot exactly the unfinished snapshots and self-tests wait again; a reboot that was awaited has succeeded, an installation ends as its checkpoint says, everything else interrupted has failed with "interrupted_by_reboot", and the rest is as it was loaded |
| `CommandRuntime.Runtime.Reconcile` | main/app_main_stateless.c:412-449 | the same over the ledger in memory, by kind, state and checkpoint, while the control task already takes from the queue |
| `CommandRuntime.Runtime.DealWith` | components/pm_commands/pm_commands.c:172-208 | one entry waits, ends or stays as its kind, state and the checkpoint say |
| `CommandRuntime.Runtime.SettleOta` | main/app_main_stateless.c:426-441 | valid succeeds, rolled back and everything else fail with the recorded error or ESP_ERR_INVALID_STATE |
| `CommandRuntime.OtaClaimKept` | main/app_main_stateless.c:228-240 | the claim excludes a second OTA task after a start if and only if none was running before |
| `CommandRuntime.SecondOtaTaskStarts` | main/app_main_stateless.c:348-365 | two further OTA commands beside a running one lead to two OTA tasks |
| `OtaClaim.TwoTasksExactly` | main/app_main_stateless.c:348-365 | over every run of OTA commands and ends of tasks, two tasks run at some instant if and only if three attempts collided with no end in between |
| `OtaClaim.FlagIsAccurate` | main/app_main_stateless.c:228-240 | until then the claim and the tasks are what the events say |
| `RotationTypes.RotationSafety` | main/app_main.c:882-1251 | over every run with power cuts, compared with what booted just before the rotation: that configuration boots up to CONFIG_STAGED, one of the two with the candidate intact at COMMIT_INTENT, from CONFIG_ACTIVATED on the candidate: the same configuration with the next generation and the fingerprinted secret of 32 bytes, every other field unchanged |
| `RotationTypes.RotationEnds` | main/app_main.c:993-1251 | a rotation ends on the old configuration if it was not committed; if it was, on that with the next generation and the new secret and nothing else changed |
| `RotationTypes.RecordsAreWhole` | main/app_main.c:836-863 | over every run, the record loaded has generation equal to phase, canonical identifiers, a slot from CONFIG_STAGED on, the new secret only before the intent and the commit command from it on |
| `RotationTypes.UuidIsFiveGroups` | main/app_main.c:819-834 | an identifier is accepted if and only if it is five groups of 8, 4, 4, 4 and 12 lower-case hexadecimal digits |
| `RotationTypes.StagedExactly` | main/app_main.c:1102-1110 | the check of a staged slot passes if and only if it holds a whole configuration of that generation with that secret of 32 bytes |
| `RotationTypes.PhasesGrow` | main/app_main.c:926-1251 | within one rotation the loaded phase never decreases |
| `RotationTypes.StepIsSafe` | main/app_main.c:882-1590 | every single write, under what the source checks before it, keeps the promise |
| `RotationTypes.FollowsMeans` | main/app_main.c:1138-1159 | what the operations check in the ledger and the staged slot is what the promise needs; generation equal to phase is derived |
| `RotationTypes.CommitIsIrreversible` | main/app_main.c:993-1196 | a durable commit intent is never undone; the new secret, once it boots, keeps booting; the commit command stays in the ledger |
| `RotationTypes.EraseFallsBack` | main/app_main.c:971-991 | exactly when a cut between the two erasures would load an earlier phase, and that the phases erased from never meet it |
| `RotationTypes.RecordFollows` | main/app_main.c:926-969 | generation equals phase, and a new record overwrites the one two phases back |
| `RotationTypes.PersistIsSafe` | main/app_main.c:926-969 | what must be durable before each phase may be recorded suffices for the promise |
| `RotationTypes.FillIsSafe` | components/pm_config/pm_config.c:225-309 | when the inactive slot may be written or erased during a rotation |
| `RotationTypes.SwitchIsSafe` | components/pm_config/pm_config.c:397-436 | switching the selector at COMMIT_INTENT makes exactly the candidate boot |
| `RotationTypes.EraseAIsSafe` | main/app_main.c:971-991 | erasing the first key loads what was loaded before, or nothing |
| `RotationTypes.EraseBIsSafe` | main/app_main.c:971-991 | erasing the second key ends the rotation on the right configuration |
| `RotationTypes.LedgerIsSafe` | main/app_main.c:1138-1159 | which ledger writes a rotation survives |
| `RotationTypes.RebaseIsSafe` | main/app_main.c:2082-2097 | a configuration change at rest leaves the rotation state sound |
| `CommitCommand.ChangeKeeps` | components/pm_commands/pm_commands.c:367-400 | a change of any one entry keeps the commit command held |
| `CommitCommand.AcceptKeeps` | components/pm_commands/pm_commands.c:318-334 | admission never evicts it: unfinished and pinned entries are not recyclable |
| `CommitCommand.SucceededIsHeld` | main/app_main.c:1140-1158 | a held command that is found finished is pinned |
| `RotationProtocol.QueueKept` | main/app_main.c:2202-2209 | operations of the rotation that only touch commands that do not wait leave the queue sound |
| `RotationProtocol.NotWaiting` | main/app_main.c:2202-2209 | a new command never takes the entry of one that waits, and is never the commit command in progress |
| `RotationProtocol.RedeliveredPrepareIsOvertaken` | main/app_main.c:1074-1090 | the run in which an entry is queued twice, after a resume finished a redelivered prepare command that waits |
| `RotationProtocol.Device.StatePersist` | main/app_main.c:926-969 | numbers, validates and writes a record; memory follows only on success |
| `RotationProtocol.Device.ErasePersisted` | main/app_main.c:971-991 | key A then key B; a cut between them leaves the same record or none |
| `RotationProtocol.Device.ClearPrepared` | main/app_main.c:993-1018 | refused from COMMIT_INTENT on; otherwise, wherever it is cut, the staged candidate is gone before the journal is |
| `RotationProtocol.Device.Discard` | components/pm_config/pm_config.c:438-524 | the recorded slot ends empty |
| `RotationProtocol.Device.StageCandidate` | main/app_main.c:1044-1072 | the inactive slot holds the running configuration with the next generation and the new secret of 32 bytes, every other field unchanged, before its slot is recorded |
| `RotationProtocol.Device.PersistPrepareResult` | main/app_main.c:1074-1091 | the prepare command is durably successful |
| `RotationProtocol.Device.ActivateCandidate` | main/app_main.c:1093-1136 | the candidate is checked before and after the switch; always completes on a reliable device |
| `RotationProtocol.Device.PersistCommitResult` | main/app_main.c:1138-1159 | the result is pinned in the ledger before the phase moves on; completes while the ledger generation lasts |
| `RotationProtocol.Device.FindCommit` | main/app_main.c:1138-1146 | the commit command is always found, unfinished or pinned: the two error branches for it cannot be taken |
| `RotationProtocol.Device.Resume` | main/app_main.c:1161-1196 | from COMMIT_INTENT on, a resume that is not cut or refused reaches RESULT_DURABLE; before it, no resume commits; it keeps the queue sound if and only if no waiting entry is the prepare command of an uncommitted rotation, or there is no trusted time before the expiry |
| `RotationProtocol.Device.ResumePrepare` | main/app_main.c:1164-1189 | nothing happens without a trusted time before the expiry; when it completes, the secret is gone from the command's payload, the candidate staged and the prepare command successful |
| `RotationProtocol.Device.ExpireIfNeeded` | main/app_main.c:1208-1228 | an expired preparation goes; a commit intent never expires |
| `RotationProtocol.Device.CleanupAcknowledged` | main/app_main.c:1230-1251 | wherever it is cut, the journal goes only after the result is unpinned and the old configuration erased; the new one goes on booting |
| `RotationProtocol.Device.ResultAcknowledged` | main/app_main.c:1436-1442 | only the acknowledgement of the commit command ends the rotation |
| `RotationProtocol.Device.Boot` | main/app_main.c:2427-2447 | a boot that is not cut completes a durable commit intent and a pending cleanup |
| `RotationProtocol.Device.PrepareRotation` | main/app_main.c:1447-1500 | anything changes only for a canonical identifier, a secret matching its fingerprint, in time, with neither journal busy; each refusal with its code; with all of that it succeeds on a reliable device, the requested identity staged and its secret redacted from the ledger |
| `RotationProtocol.Device.CommitRotation` | main/app_main.c:1502-1563 | an intent is written only for the staged rotation with that identifier and fingerprint, in time, with the candidate whole; then it completes on a reliable device; each refusal with its code, TIMEOUT or INVALID_CRC |
| `RotationProtocol.Device.CommitStaged` | main/app_main.c:1535-1563 | once the checks have passed, what boots at the end is the old configuration with the next generation and the fingerprinted secret |
| `RotationProtocol.Device.WriteIntent` | main/app_main.c:1535-1551 | the intent names the command, holds no secret, and is written only while the candidate is whole in its slot |
| `RotationProtocol.Device.CancelRotation` | main/app_main.c:1565-1590 | cancels exactly an uncommitted rotation of that id; each refusal with its code |
| `RotationProtocol.Device.Execute` | main/app_main.c:1647-1655 | whatever rotation command is the oldest waiting, it keeps the promise and the queue; that it is not the commit command in progress is derived |
| `RotationProtocol.Device.Reconcile` | main/app_main.c:2229-2294 | after a boot the journal's own commands are left alone, OTA commands end as the checkpoint says, and the queue is sound again |
| `RotationProtocol.EndedIsReconciled` | main/app_main.c:2229-2294 | an entry that a boot ends, ends as its kind, state and the checkpoint say |
| `RotationProtocol.Device.AcceptCommand` | main/app_main.c:2202-2209 | admission keeps the promise and the queue |
| `RotationProtocol.Device.ApplyConfiguration` | main/app_main.c:2056-2103 | refused during a rotation; otherwise changes three settings and the generation |
| `DestructiveTypes.NoFormatIsRepeated` | main/app_main.c:1370-1420 | once STORAGE_FORMAT_DURABLE was loaded with no format left in the queue, whatever cuts follow, the transaction never formats again and every record that is not acknowledged is kept |
| `DestructiveTypes.FormatIsDurable` | main/app_main.c:1390-1400 | that phase is recorded only for a card that was formatted, with no further format queued, unless a format was asked for while an answer was owed |
| `DestructiveTypes.TimedOutFormatIsRepeated` | components/pm_storage/pm_storage.c:798-811 | the run in which a timed-out format is repeated after the phase was recorded |
| `DestructiveTypes.QueuedFormatWipes` | components/pm_storage/pm_storage.c:728-763 | a queued format wipes the card whatever the phase |
| `DestructiveTypes.RecordsAreLostOnlyToACommit` | main/app_main.c:1370-1403 | records that are not acknowledged are lost only to a queued format; and, unless one was asked for while an answer was owed, only at the phase a format is due, with a command of the right type and id in the ledger, and for a reset with the sequence store already at its floor and generation |
| `DestructiveTypes.PhasesMean` | main/app_main.c:356-382 | over every run, the token is there exactly until the intent, the commit command is in the ledger from then to the result, and each phase of a reset says in fields what is durable in sequence store and configuration |
| `DestructiveTypes.PhasesFollow` | main/app_main.c:1253-1420 | over every run, which phase may follow which, that only the last falls back, and that the transaction keeps its identity |
| `DestructiveTypes.EraseFallsBack` | main/app_main.c:505-525 | the one fallback: from RESULT_ACKNOWLEDGED to RESULT_DURABLE |
| `DestructiveTypes.FallenBackWaits` | main/app_main.c:1422-1435 | over runs: a journal that fell back stays as it is as long as its commit command is not acknowledged again |
| `DestructiveTypes.FallenBackLeavesExactly` | main/app_main.c:1422-1435 | a further record can be written if and only if it was |
| `DestructiveTypes.RecordFollows` | main/app_main.c:445-489 | consecutive records of a transaction are in different keys |
| `DestructiveTypes.PersistIsSafe` | main/app_main.c:445-489 | what must be durable before each phase may be recorded suffices for what the phase promises |
| `DestructiveTypes.EraseAIsSafe` | main/app_main.c:505-525 | the first erasure ends a preparation, or falls back by one phase |
| `DestructiveTypes.SequenceIsSafe` | components/pm_storage/pm_sequence.c:174-199 | a raised floor stays raised while numbers go on being issued |
| `DestructiveTypes.CardIsSafe` | components/pm_storage/pm_storage.c:272-351 | appending, reclaiming acknowledged segments and serving a format keep the promise |
| `DestructiveTypes.WaitIsSafe` | components/pm_storage/pm_storage.c:798-811 | so do sending, waking and giving up |
| `DestructiveTypes.StepIsSafe` | main/app_main.c:401-1420 | every single write, under what the source checks before it, keeps what the phases promise |
| `DestructiveTypes.FollowsMeans` | main/app_main.c:1340-1368 | what the operations check in the ledger is what the promise needs |
| `JointJournals.NeverBothUnderWay` | main/app_main.c:1472-1474 | over every run, a rotation and a destructive command are never both prepared or under way |
| `JointJournals.ResetNeverMeetsACandidate` | main/app_main.c:1298-1338 | so the configuration commit of a reset, which asks nothing about a rotation, never overwrites or selects a staged candidate |
| `JointJournals.ProjectionsAreRuns` | main/app_main.c:882-1590 | what such a device does to one journal is a run of that journal alone, so all theorems about it hold |
| `JointJournals.StepIsSafe` | main/app_main.c:401-1590 | every write keeps both promises and keeps the journals apart |
| `DestructiveProtocol.KeepsUnobstructed` | main/app_main.c:1370-1420 | an earlier stage does nothing a later one is refused for |
| `DestructiveProtocol.Device.StatePersist` | main/app_main.c:445-489 | numbers, validates and writes a record; memory follows only on success |
| `DestructiveProtocol.Device.Clear` | main/app_main.c:527-538 | ends a preparation or an acknowledged transaction |
| `DestructiveProtocol.Device.BootLoad` | main/app_main.c:540-555 | a preparation does not survive a boot; a transaction does |
| `DestructiveProtocol.Device.ExpireIfNeeded` | main/app_main.c:557-569 | an expired preparation goes; a commit intent never expires |
| `DestructiveProtocol.Device.BeginIntent` | main/app_main.c:1277-1296 | the token is gone from the record that makes the commit durable |
| `DestructiveProtocol.Device.RaiseFloor` | main/app_main.c:1381-1388 | raised, or already exactly there after a cut, or refused |
| `DestructiveProtocol.Device.ResumeConfig` | main/app_main.c:1298-1338 | the reset marks are durable, or a refusal leaves them as they were |
| `DestructiveProtocol.Device.ResumeResult` | main/app_main.c:1340-1368 | the result is pinned in the ledger before the phase moves on |
| `DestructiveProtocol.Device.Resume` | main/app_main.c:1370-1420 | returns OK only at RESULT_DURABLE, and always does on a reliable device when nothing was allocated or reconfigured in between |
| `DestructiveProtocol.Device.Boot` | main/app_main.c:2456-2464 | completes a committed transaction, forgets an uncommitted one without touching the card |
| `DestructiveProtocol.Device.CleanupAcknowledged` | main/app_main.c:1253-1266 | ends with the result unpinned and the journal empty |
| `DestructiveProtocol.Device.ResumeFormat` | main/app_main.c:1390-1400 | the card is empty before the phase that says so is recorded, if no answer was owed |
| `DestructiveProtocol.Device.Format` | components/pm_storage/pm_storage.c:886-890 | what success of the wait means, with and without an answer owed |
| `DestructiveProtocol.Device.EndWait` | components/pm_storage/pm_storage.c:807-810 | the wait ends with whatever notification there is, or with the timeout |
| `DestructiveProtocol.Device.Append` | components/pm_storage/pm_storage.c:316-351 | reclaims and stores without losing a record that is not acknowledged |
| `DestructiveProtocol.Device.ResultAcknowledged` | main/app_main.c:1428-1435 | only the acknowledgement of the commit command ends the transaction |
| `DestructiveProtocol.Device.Prepare` | main/app_main.c:1721-1784 | refused without effect while a transaction is durable, each refusal with its code; otherwise replaces the preparation by one with the requested fields and this boot session; never touches the card; a reset's floor is one that can then be raised, short of exhausted counters |
| `DestructiveProtocol.Device.Commit` | main/app_main.c:1785-1845 | an intent is written, or the card, the sequence store or the configuration changes, only if phase, kind, identifier, token, boot session, time and for a reset generation and floor all match; if they do it succeeds on a reliable device with nothing in the way; otherwise the code of the mismatch, and the preparation is forgotten |
| `DestructiveProtocol.Device.ResumeIntent` | main/app_main.c:1370-1420 | what follows a durable intent: the result pinned, the card empty and for a reset floor and marks durable |
| `DestructiveProtocol.Device.ResumeFormatted` | main/app_main.c:1401-1420 | the rest once the card needs no formatting |
| `Crc.BurstsAreDetected` | components/pm_config/pm_config.c:122-134 | no change confined to a burst as long as the register leaves a frame accepted (section 3.2.9 of IEEE 802.3) |
| `Crc.ByteBurstsAreDetected` | components/pm_meter/pm_meter_pzem_v4_classic.c:5-18 | in whole bytes: four consecutive ones for CRC-32, two for CRC-16 (section 6.2.2 of MODBUS over Serial Line V1.02) |
| `Crc.FeedIsLinear` | components/pm_config/pm_config.c:122-134 | registers of two inputs differ as the register of their difference |
| `Crc.BurstLeavesTrace` | components/pm_config/pm_config.c:122-134 | a burst never cancels in the register, however much follows it |
| `Crc.StateIsFeed` | components/pm_config/pm_config.c:122-134 | the register after a message is that of its bits fed in one at a time |
| `Crc.Crc32Ieee` | components/pm_config/pm_config.c:122-134 | the masked byte and bit loops compute the checksum of the theorem |
| `Crc.ModbusCrc16` | components/pm_meter/pm_meter_pzem_v4_classic.c:5-18 | the branching byte and bit loops compute the checksum of the theorem |
| `Crc.MaskedByte` | components/pm_config/pm_config.c:127-132 | eight masked shifts are the register after one byte |
| `Crc.BranchedByte` | components/pm_meter/pm_meter_pzem_v4_classic.c:11-16 | eight branching shifts are the register after one byte |
| `CrcDivision.ChecksumIsRemainder` | components/pm_config/pm_config.c:122-134 | for every message the checksum is the remainder, shorter than the generator, of dividing the message, the lowest bit of each byte first and its first bits inverted, by the generator polynomial, complemented for CRC-32 (section 3.2.9 of IEEE 802.3) |
| `CrcDivision.RemainderByPowers` | components/pm_config/pm_config.c:122-134 | the same with the generator given by the exponents of its powers |
| `CrcDivision.FeedDivides` | components/pm_config/pm_config.c:122-134 | the register after any message is the remainder of its division by the generator |
| `CrcDivision.RemainderIsUnique` | components/pm_config/pm_config.c:122-134 | a dividend has one quotient and one remainder, so no other register value would do |
| `CrcDivision.IeeeGenerator` | components/pm_config/pm_config.c:122-134 | the constant 0xEDB88320 is the generator with exponents 32, 26, 23, 22, 16, 12, 11, 10, 8, 7, 5, 4, 2, 1 and 0 |
| `CrcDivision.ModbusGenerator` | components/pm_meter/pm_meter_pzem_v4_classic.c:5-18 | the constant 0xA001 is the generator with exponents 16, 15, 2 and 0 (section 6.2.2 of MODBUS over Serial Line V1.02) |
| `JournalCodec.DecodeAfterEncode` | components/pm_storage/pm_journal.c:90-154 | decoding an encoded record gives it back with energies saturated, exactly when sequence and completeness are acceptable |
| `JournalCodec.EncodeAfterDecode` | components/pm_storage/pm_journal.c:90-154 | encoding what was decoded reproduces every accepted 128-byte image exactly |
| `JournalCodec.DamageIsRefused` | components/pm_storage/pm_journal.c:125-131 | an accepted image changed in any burst of 32 bits is refused |
| `JournalCodec.DamagedBytesAreRefused` | components/pm_storage/pm_journal.c:125-131 | an accepted image changed in any way within four consecutive bytes is refused |
| `JournalCodec.FieldsRead` | components/pm_storage/pm_journal.c:132-154 | every field is read from where it was put |
| `JournalCodec.HeaderRead` | components/pm_storage/pm_journal.c:70-88 | what an accepted segment header holds, byte by byte |
| `JournalCodec.EncodeRecord` | components/pm_storage/pm_journal.c:90-123 | the buffer code writes exactly the image of the theorems |
| `JournalCodec.DecodeRecord` | components/pm_storage/pm_journal.c:125-154 | the buffer code accepts and reads exactly what the theorems say |
| `JournalCodec.PutNumber` | components/pm_storage/pm_journal.c:7-25 | writes a little-endian number and nothing else |
| `JournalCodec.GetNumber` | components/pm_storage/pm_journal.c:27-48 | reads the little-endian number |
| `Words.GetPut` | components/pm_storage/pm_journal.c:7-48 | reading undoes writing, for numbers that fit |
| `Words.PutGet` | components/pm_storage/pm_journal.c:7-48 | writing undoes reading |
| `RecoveryScan.HitsIncrease` | components/pm_storage/pm_storage.c:446-490 | accepted sequence numbers strictly increase, the largest 64-bit number aside |
| `RecoveryScan.IncreaseExactly` | components/pm_storage/pm_storage.c:446-490 | they strictly increase if and only if at most one record carries the largest number |
| `RecoveryScan.LargestRepeats` | components/pm_storage/pm_storage.c:480-480 | a segment in which it is accepted twice without damage |
| `RecoveryScan.NothingFreshIsLost` | components/pm_storage/pm_storage.c:446-490 | a decodable record newer than all accepted ones is not passed over, unless inside one of them |
| `RecoveryScan.HitCovers` | components/pm_storage/pm_storage.c:394-405 | every number missing before the last accepted one lies in the reported range, for a first sequence of at least one |
| `RecoveryScan.MagicComesFirst` | components/pm_storage/pm_storage.c:407-423 | skipping offsets without the four magic bytes skips nothing decodable |
| `RecoveryScan.NextValid` | components/pm_storage/pm_storage.c:407-423 | the first decodable offset, or there is none |
| `RecoveryScan.Resynchronise` | components/pm_storage/pm_storage.c:452-468 | resumes at the first decodable offset after damage and reports the gap |
| `RecoveryScan.ScanRecords` | components/pm_storage/pm_storage.c:446-490 | terminates on every content; accepted records form a trail, everything decodable is accounted for, missing numbers are covered and the reported range has grounds at both ends, oldest and newest are the bounds of the records found, damage is counted only where it is reported, and the batch was offered exactly the accepted records |
| `RecoveryScan.ScanOne` | components/pm_storage/pm_storage.c:446-490 | one round of the loop keeps all that, and goes forward |
| `RecoveryScan.HitSpans` | components/pm_storage/pm_storage.c:469-476 | oldest and newest are the bounds of what was there before and of the numbers accepted since |
| `RecoveryScan.ReportIsGrounded` | components/pm_storage/pm_storage.c:394-405 | both ends of the reported range are ends of ranges that were reported: it begins at a number expected and ends there or just below a record |
| `RecoveryScan.ScanSegment` | components/pm_storage/pm_storage.c:425-493 | a foreign or undecodable header offers nothing and is reported as corrupt |
| `RecoveryScan.ScanFile` | components/pm_storage/pm_storage.c:425-493 | the same over the bytes of a file |
| `ReadBatch.OfferKeepsBatch` | components/pm_storage/pm_storage.c:353-379 | one insertion keeps the batch the smallest distinct sequences offered above the cursor |
| `ReadBatch.BatchCounts` | components/pm_storage/pm_storage.c:353-379 | exactly the 16 smallest are held, and `more_available` is set exactly when more than 16 distinct ones were offered |
| `ReadBatch.BatchIsUnique` | components/pm_storage/pm_storage.c:353-379 | order and repetition of the offers do not matter |
| `ReadBatch.Batch.InsertSorted` | components/pm_storage/pm_storage.c:353-379 | the in-place insertion keeps that for the record it is given |
| `ReadBatch.Batch.ShiftRight` | components/pm_storage/pm_storage.c:366-376 | the array is shifted by one from the position on, and only there |
| `Pzem.DamagedFramesAreRefused` | components/pm_meter/pm_meter_pzem_v4_classic.c:45-59 | an accepted frame changed within two consecutive bytes is reported as a bad checksum |
| `Pzem.TrailerGuards` | components/pm_meter/pm_meter_pzem_v4_classic.c:54-59 | the trailer is the checksum with its low byte first |
| `Pzem.BuildRequest` | components/pm_meter/pm_meter_pzem_v4_classic.c:20-31 | a request for ten registers that passes the same check |
| `Pzem.ParseResponse` | components/pm_meter/pm_meter_pzem_v4_classic.c:45-67 | length, checksum, slave and function are checked in that order |
| `Calendar.CountsDays` | components/pm_network/pm_network_v2.c:570-579 | the date reached by counting n days from 1970-01-01 has day number n |
| `Calendar.EveryDateIsCounted` | components/pm_network/pm_network_v2.c:570-592 | every date from 1970-01-01 on that passes the month-length and leap checks is reached by counting its day number |
| `Calendar.StepsByOne` | components/pm_network/pm_network_v2.c:570-579 | from any valid date of any year to the next the closed form advances by one |
| `Calendar.NumbersOrderDates` | components/pm_network/pm_network_v2.c:570-592 | dates compare exactly as their day numbers |
| `Calendar.MonthsAddUp` | components/pm_network/pm_network_v2.c:575-576 | the linear month formula has the lengths of the months |
| `Calendar.MarchYearLength` | components/pm_network/pm_network_v2.c:572-577 | the year formula has a leap day exactly when the leap check says so |
| `Calendar.TimestampsAreOrdered` | components/pm_network/pm_network_v2.c:616-619 | in one zone timestamps compare exactly as their fields, leap seconds aside |
| `Calendar.TimestampsFit` | components/pm_network/pm_network_v2.c:616-619 | no accepted timestamp leaves 64 bits |
| `Calendar.ZonesAgree` | components/pm_network/pm_network_v2.c:605-619 | a clock ahead of UTC by an offset, and UTC itself so many minutes later on its face, give the same instant; and the reverse for a clock that is behind |
| `Calendar.MinutesAddUp` | components/pm_network/pm_network_v2.c:616-619 | each minute a clock goes on, across hours, months and years, adds 60000 |
| `Calendar.DayInMilliseconds` | components/pm_network/pm_network_v2.c:616-619 | the value is the milliseconds since the epoch of the day counted from it; second 60 has the values of second 59 |
| `Query.CanonicalIsIdempotent` | components/pm_protocol/pm_protocol.c:125-183 | the canonical form is accepted again, unchanged, and as long as the query |
| `Query.CanonicalDecidesEquivalence` | components/pm_protocol/pm_protocol.c:125-183 | accepted queries have equal forms exactly when their parts, with escapes in upper case, agree as multisets |
| `Query.CanonicalParts` | components/pm_protocol/pm_protocol.c:125-183 | the parts of the form are the sorted normal parts |
| `Query.NormalIsNormal` | components/pm_protocol/pm_protocol.c:160-166 | upper-casing escapes keeps length and validity, and twice is once |
| `Query.SortedIsUnique` | components/pm_protocol/pm_protocol.c:168-168 | whatever sorting `qsort` does, there is only one result |
| `Query.AtMostExactly` | components/pm_protocol/pm_protocol.c:120-123 | the order is that of bytes: one is the start of the other, or smaller at the first difference |
| `Query.ValidExactly` | components/pm_protocol/pm_protocol.c:106-118 | a component is accepted if and only if each of its characters is an allowed one or part of a whole escape |
| `Query.NormalCapitalisesEscapes` | components/pm_protocol/pm_protocol.c:160-166 | exactly the letters of escapes change, to capitals |
| `Query.SplitUndoesJoin` | components/pm_protocol/pm_protocol.c:143-152 | splitting a joined query gives its parts back |
| `Query.CheckComponent` | components/pm_protocol/pm_protocol.c:106-118 | accepts exactly the components with whole escapes and no forbidden byte |
| `Query.UpperCaseEscapes` | components/pm_protocol/pm_protocol.c:160-166 | the in-place loop leaves the normal form of the part |
| `Query.CutParts` | components/pm_protocol/pm_protocol.c:138-155 | finds all parts, or says that there are more than 32 |
| `Query.Append` | components/pm_protocol/pm_protocol.c:169-182 | writes the joined parts exactly when they fit |
| `Query.CanonicalQuery` | components/pm_protocol/pm_protocol.c:125-183 | the errors, in the source's order, and the canonical form; the size check while writing never fails |
| `Version.ParseVersion` | components/pm_ota/pm_ota_version.c:38-65 | accepts exactly the texts that printing a proper version gives, and reads that version |
| `Version.ParseNumber` | components/pm_ota/pm_ota_version.c:15-36 | accepts exactly 32-bit decimal numbers without leading zeros; the overflow guard is exact |
| `Version.OneVersionPerText` | components/pm_ota/pm_ota_version.c:38-65 | a text denotes at most one version |
| `Version.NumberIsUnique` | components/pm_ota/pm_ota_version.c:15-36 | a text starts with at most one number |
| `Version.DecimalOfValue` | components/pm_ota/pm_ota_version.c:24-33 | printing the value of digits without a leading zero gives them back |
| `Version.CompareVersions` | components/pm_ota/pm_ota_version.c:67-83 | is the precedence of section 11 of Semantic Versioning 2.0.0 |
| `Version.OrderIsTotal` | components/pm_ota/pm_ota_version.c:67-83 | a strict total order, zero only on equal versions |
| `Version.RequireUpgrade` | components/pm_ota/pm_ota_version.c:85-94 | accepts exactly a candidate that denotes a higher version |
| `Version.UpgradesIncrease` | components/pm_ota/pm_ota_version.c:85-94 | along every run of accepted upgrades versions strictly increase, so none comes back |
| `Version.UpgradesCompose` | components/pm_ota/pm_ota_version.c:85-94 | an upgrade of an upgrade is an upgrade of the first |
| `Deadline.ClosedFormIsTheLoop` | components/pm_telemetry/pm_telemetry.c:104-119 | the division gives the first grid point after now, and INT64_MAX exactly when that does not fit |
| `Deadline.OverflowExactly` | components/pm_telemetry/pm_telemetry.c:113-114 | the count of periods overflows for exactly one triple |
| `Deadline.RepeatedAddition` | components/pm_network/pm_network.c:220-222 | the loop ends at the first grid point after now; unlike the closed form it always adds at least one period |
| `Deadline.DivisionFindsIt` | components/pm_telemetry/pm_telemetry.c:113-118 | the quotient counts the periods that have passed |
| `Deadline.NoDrift` | components/pm_network/pm_network_v2.c:184-199 | however late requests complete, every deadline lies on the grid in force, which only a failure moves, and after the last success |

## Left out

- HTTP, TLS, Wi-Fi, UART, USB, the SD card, FreeRTOS, cJSON, PSA and mbedTLS: foreign code. Their success, failure or crash is a parameter or a free choice; SHA-256 is an injective function.
- `pm_ota_install` and its checkpoints, `pm_state.c`, diagnostics, start-up of tasks, telemetry slots, backoff bounds, PZEM field scaling, Python tools: they would only add easy members.
- Text of timestamps: the characters that `sscanf` accepts; the model starts from the fields.
- File I/O errors during a scan: a read that fails is an offset that does not decode.
- Writing segment headers, and opening and rotating segments. Reclaiming is the loss of acknowledged records, without the segments they are in.
- Exactness of the unavailable range: it is a single hull and can include readable records; that it covers what is missing and has grounds at both ends is stated.
- Fields that no modelled decision reads: issue time, not-before time, attempt, evidence, and the result texts that self-tests and snapshots print.
- Provisioning sessions and factory reset during a rotation: they write the configuration store outside the rotation protocol.
- NVS calls that return an error during a rotation or a destructive transaction: those protocols are modelled for power loss only. In the same two models the ledger in memory is the durable one, so edits the source makes in memory before a write that is refused for an exhausted generation are not tracked.
- Interference inside one operation: `SequenceStore`, `ConfigStore`, `CommandLedger` and the protocol devices run each operation alone; interleavings are the subject of `SequenceTasks`, of `ConfigTasks` and, at the level of whole operations under the command lock, of `CommandRuntime`.
- The configuration inside the two protocol models is read and written through atomic keys without the transaction struct, and a reset shows only the three fields it changes; that staging and selecting behave so is what `ConfigStore` and `ConfigTasks` show.
- The live format and reset structs beside the destructive journal: under power loss alone they agree with its PREPARED phase.
- SequenceTasks.FreshExactly: raise_floor, which only the recovery of a data reset calls, is not among the overlapping operations; each operation takes one copy and persists or fails as a whole.
- CommandLedger.CrashAtomicity: without failing zeroization and without tears reported as success, which `LedgerFaults` adds with the exact condition.
- SUPERSEDED as an absorbing state: the two lists of final states differ and no code sets it.
- DestructiveProtocol.Device.Resume: progress of a data reset only with no allocation since it was prepared, because the floor is fixed then and the sequence store refuses a lower one.
- RotationProtocol.Device.Resume: progress from COMMIT_INTENT on; before it, a prepare command may have been evicted, and only safety is stated.
- RotationProtocol.Device.Execute: what executing an entry does after a resume has broken the queue, beyond the run in `RedeliveredPrepareIsOvertaken`.
- Query.CanonicalQuery: `qsort` itself is foreign; the model sorts by insertion, and `SortedIsUnique` says that this cannot matter.
- Wiping of memory, layout and padding of structs.
