# Schedune, modelled and proved in Dafny

Schedune launches virtual machines on nodes. Its control plane keeps an execution record for
every launch, drives it through a state machine, polls the process behind it, and repairs the
records after a restart. A background sweep looks for hypervisor processes that no record
accounts for. A scheduler picks nodes, and the control plane and the node agent each pick a
backend and build its command line.

This project models those parts and proves what they guarantee. `dafny verify dfyconfig.toml`
checks everything.

## How it is built

**The execution lifecycle.** `ExecutionRecord` is the record that the source updates through a
pointer: one cell whose fields are overwritten one after the other. `ExecutionStore` is the
pair of tables. `LaunchOrchestrator`, `LaunchHandler` and `RecoveryBootstrapper` are the
operations on them, written as in the source and proved against functions that give the next
record (`LaunchSteps`, `Reconciliation`, `Recovery`). `Runs` puts these functions together as a
state machine with one step per save. Launches, terminations and polls of many executions
interleave, a crash drops whatever is in memory, and a restart recovers the store before it
serves. Inspectors, executors and the clock answer arbitrarily; the clock never goes back.
`RunTheorems` then speaks about every run of any length, and shows that the methods themselves
are such runs, save by save. `LaunchOutcomes`, `PollOutcomes` and `RestartOutcomes` say case by
case what each operation stores and reports. `Witnesses` builds runs that lead where one might
not expect. A record carries a specification variable `history`, the states it has been in.

**The orphan sweep.** `OrphanMatching` and `OrphanSweep` model matcher, table and sweep, with
store errors possible at each process; `OrphanTheorems` says what the table means after one
sweep and after any number of them, `OrphanReports` what the sweeps report. `Accounting` joins
it to the lifecycle and to the command lines: which record a launched process goes to, and what
becomes of one that no record claims.

**Placement and preparation.** `Evaluation`, `Projection` and `Scheduler` follow a node from the
envelope an agent sends to its place in the ranking. `BackendSelection` (with `BackendOutcomes`),
`Versions`, `Storage`, `Executors` and `Paths` follow a launch to its command line, `ProcCmdline`
reads that command line back from `/proc`, and `Agent` is the agent's separate implementation of
the same choices.

## Assumptions

- Operations on one execution id are serialised, and saves succeed. The handlers hold no lock
  and each saves a whole copied record, so overlapping operations can overwrite each other; no
  theorem here speaks about them.
- A fresh execution id is not in the table yet, and orphan fingerprints are opaque.
- Clock readings inside an operation are in order. A placement reads the clock once.
- No file has the empty path. Whether another path exists, for the agent, and whether it is
  missing, for the control plane, are two questions: both are no for a path whose status cannot
  be read.

## Where code and documentation differ

The model follows the code.

- `docs/state-machine.md` says a workload cannot skip Preparing to Starting on its way to
  Running. The table allows it through Unknown
  (`Lifecycle.TableAloneAllowsRunningWithoutStart`); what makes the sentence true of stored
  records is the invariant behind `RunTheorems.StoredProcessesAreReal`.
- `docs/recovery.md` lists five recoverable states and says a confirmed record remains Running.
  The code recovers every non-terminal state and leaves the state of a confirmed record alone.
- A Degraded record whose process dies or becomes ready asks for transitions the table does not
  have; such a poll is refused, and the record stays Degraded in the store
  (`PollProperties.RefusedExactly`).
- `docs/state-machine.md` says that Running means active and ready. A return from Unknown sets
  Running without touching the readiness (`Witnesses.RunningNotReadyHappens`,
  `Witnesses.RunningReadsDegradedHappens`). A stored Running record reads Ready exactly when it
  became ready and was never Degraded (`RunTheorems.RunningIsReadyIff`).
- The same document says that Terminated means the process was cleanly killed. A dry run and a
  restart end in Terminated without recording a death (`Witnesses.DryRunIsNotDead`,
  `Witnesses.RestartIsNotDead`); a Terminated record reads Dead exactly when it has a
  termination time (`RunTheorems.TerminatedIsDeadIff`).
- A requested termination can be forgotten: Terminating returns to Running when one inspection
  fails (`Witnesses.TerminationIsLostHappens`), and only through Unknown
  (`RunTheorems.TerminatingReturnsThroughUnknown`, `RunTheorems.TerminatingIsLostIff`).

## Model

| member | source | states |
|---|---|---|
| `Lifecycle.BoundedLifecycle` | schedune-control-plane/internal/domain/lifecycle/state.go:11-48 | any chain of accepted transitions from Pending has at most 8 + 4u members, u of them into Unknown; at most 8 without Unknown |
| `Lifecycle.BoundIsTight` | schedune-control-plane/internal/domain/lifecycle/state.go:11-48 | for every u there is a legal life that reaches the bound, so it cannot be lowered |
| `Lifecycle.HeightBudget` | schedune-control-plane/internal/domain/lifecycle/state.go:11-48 | the potential behind the bound: what is left of a life plus what was spent never exceeds 8 + 4u |
| `Lifecycle.TableAloneAllowsRunningWithoutStart` | schedune-control-plane/internal/domain/lifecycle/state.go:27-48 | the table by itself accepts Pending, Unknown, Running: the documented order of stages does not follow from it |
| `Lifecycle.TerminatingIsLeftThroughUnknown` | schedune-control-plane/internal/domain/lifecycle/state.go:11-48 | on a legal path whatever follows Terminating, except Terminated, follows an Unknown right after it |
| `Lifecycle.TerminatingMayReturn` | schedune-control-plane/internal/domain/lifecycle/state.go:27-48 | and from that Unknown the way back to Running is legal |
| `Lifecycle.AcceptedTransitions` | schedune-control-plane/internal/domain/lifecycle/state.go:11-48 | the accepted transitions, pair by pair |
| `Lifecycle.TerminalIffNoWayOut` | schedune-control-plane/internal/domain/lifecycle/state.go:27-48 | Exited, Failed and Terminated are exactly the states no transition leaves |
| `ExecutionRecords.ExecutionRecord.AppendTrace` | schedune-control-plane/internal/domain/lifecycle/state.go:51-59 | appends one trace step and changes nothing else |
| `ExecutionRecords.ExecutionRecord.TransitionTo` | schedune-control-plane/internal/domain/lifecycle/state.go:62-70 | moves and logs when the table allows it; otherwise reports the refusal and leaves the record alone |
| `ExecutionRecords.ExecutionRecord.Reconcile` | schedune-control-plane/internal/domain/lifecycle/reconcile.go:12-128 | one poll, branch by branch: the fields written, the transition asked for, and whether it was refused |
| `ExecutionRecords.ExecutionRecord.ReconcileGone` | schedune-control-plane/internal/domain/lifecycle/reconcile.go:49-86 | a vanished process ends a requested termination, fails a start, and is otherwise an exit with its code |
| `ExecutionRecords.ExecutionRecord.ReconcileAlive` | schedune-control-plane/internal/domain/lifecycle/reconcile.go:58-128 | readiness before the deadline, the deadline, backend errors, and the way back from Degraded and Unknown |
| `PollProperties.RefusedExactly` | schedune-control-plane/internal/domain/lifecycle/reconcile.go:25-123 | for persisted records the chosen transition is refused in exactly four situations |
| `Witnesses.RefusedWhileServing` | schedune-control-plane/internal/domain/lifecycle/reconcile.go:25-123 | of the four, Terminating without a PID cannot be polled in any run; the other three are exactly the refusals of a reachable store |
| `Witnesses.DegradedRefusalsHappen` | schedune-control-plane/internal/domain/lifecycle/reconcile.go:76-114 | every launch that executes can reach Degraded, where a poll that finds the process gone, or ready again, is refused |
| `Witnesses.UnknownRefusalsHappen` | schedune-control-plane/internal/domain/lifecycle/reconcile.go:116-123 | and can reach Unknown, where a poll that finds it alive but not ready is refused |
| `PollProperties.RefusedLeavesNoMark` | schedune-control-plane/internal/api/launch_handlers.go:174-204 | a refused poll persists nothing, emits nothing, and keeps state and trace |
| `PollProperties.RefusedPollMayWriteMemory` | schedune-control-plane/internal/domain/lifecycle/reconcile.go:69-86 | a dead Degraded process is Dead in memory and still Alive in the store |
| `PollProperties.NoStartingAfterDeadline` | schedune-control-plane/internal/domain/lifecycle/reconcile.go:58-102 | a poll more than 15 seconds after StartedAtSec never leaves the record in Starting |
| `PollProperties.WaitsUntilDeadline` | schedune-control-plane/internal/domain/lifecycle/reconcile.go:58-102 | a live process that is not ready stays in Starting up to 15 seconds after the start and fails exactly after that |
| `Witnesses.FifteenSecondsHappen` | schedune-control-plane/internal/domain/lifecycle/reconcile.go:58-102 | two runs from the same start: at exactly 15 seconds the record still waits, at 16 it fails |
| `PollOutcomes.BlindPoll` | schedune-control-plane/internal/domain/lifecycle/reconcile.go:25-37 | in every reachable store: without a PID the record fails, without an answer it becomes Unknown, and nothing else is written |
| `PollOutcomes.GonePoll` | schedune-control-plane/internal/domain/lifecycle/reconcile.go:49-86 | in every reachable store, for each state: what the death of the process stores, exit code, times, readiness and reason included |
| `PollOutcomes.AlivePollState` | schedune-control-plane/internal/domain/lifecycle/reconcile.go:88-123 | in every reachable store, for each state: the state after a poll that finds the process alive |
| `PollOutcomes.AlivePollWrites` | schedune-control-plane/internal/domain/lifecycle/reconcile.go:38-123 | and what else it stores: what was seen, readiness and its time; nothing where the table refuses |
| `PollOutcomes.AlivePollTrace` | schedune-control-plane/internal/domain/lifecycle/reconcile.go:88-127 | and the reason it logs, or the update time if the state stays |
| `PollOutcomes.PollReportsIff` | schedune-control-plane/internal/api/launch_handlers.go:160-238 | a poll reports exactly when state, liveness, readiness, exit code or the gist of the signal changed in the store, with both sides of the change |
| `PollProperties.PollingConverges` | schedune-control-plane/internal/api/launch_handlers.go:160-238 | any number of polls with the same answer change the persisted state at most twice and emit at most two events |
| `PollProperties.PollsSpend` | schedune-control-plane/internal/api/launch_handlers.go:160-238 | state changes never outnumber events, and events never exceed a budget fixed by the record and the answer |
| `PollProperties.PollingReachesLimit` | schedune-control-plane/internal/domain/lifecycle/reconcile.go:12-128 | after the deadline two equal answers bring every record to a state that further polls do not leave |
| `Orchestration.LaunchHandler.ReconcileExecution` | schedune-control-plane/internal/api/launch_handlers.go:160-238 | every poll that is not refused is saved once; only a material change is reported, with exit code and signal; a refusal leaves table, saves and events untouched |
| `Orchestration.LaunchHandler.InspectLaunch` | schedune-control-plane/internal/api/launch_handlers.go:241-254 | a lookup polls the stored record and saves it unless the poll was refused; an unknown id changes nothing |
| `ExecutionStores.ExecutionStore.SaveExecution` | schedune-control-plane/internal/store/sqlite/db.go:87-111 | upsert by id; the state column always agrees with the payload |
| `ExecutionStores.ExecutionStore.GetExecution` | schedune-control-plane/internal/store/sqlite/db.go:113-128 | the stored record of an id, if there is one |
| `ExecutionStores.ExecutionStore.ListRecoverableExecutions` | schedune-control-plane/internal/store/sqlite/db.go:138-163 | every non-terminal record exactly once, and no other, in some order |
| `ExecutionStores.ExecutionStore.AppendEvent` | schedune-control-plane/internal/store/sqlite/db.go:165-188 | the event stream only grows at its end |
| `ExecutionStores.SavedColumns` | schedune-control-plane/internal/store/sqlite/db.go:87-111 | state, update time and payload follow each save, the other columns are those of the first |
| `Orchestration.LaunchOrchestrator.StartLaunch` | schedune-control-plane/internal/domain/orchestrator.go:49-64 | saves exactly the records of the stages reached, in order, leaves the last one stored, and emits one event per stage |
| `Orchestration.LaunchOrchestrator.InitializeRecord` | schedune-control-plane/internal/domain/orchestrator.go:92-109 | a Pending record with one Init trace step |
| `Orchestration.LaunchOrchestrator.ValidateAndRecord` | schedune-control-plane/internal/domain/orchestrator.go:111-135 | Preparing, or Failed with the reason of the failure |
| `Orchestration.LaunchOrchestrator.PrepareAndRecord` | schedune-control-plane/internal/domain/orchestrator.go:137-168 | Validated with the prepared launch attached, or Failed |
| `Orchestration.LaunchOrchestrator.SpawnAndRecord` | schedune-control-plane/internal/domain/orchestrator.go:170-198 | Launching is saved before the spawn, the outcome after it |
| `Orchestration.LaunchOrchestrator.TerminateLaunch` | schedune-control-plane/internal/domain/orchestrator.go:204-241 | unknown id, terminal record, failed kill and success, each with its saves, events and error |
| `Orchestration.LaunchOrchestrator.KillAndRecord` | schedune-control-plane/internal/domain/orchestrator.go:219-241 | kills only a record with a PID and a prepared launch; a failed kill leaves it in place with a trace step |
| `Recovery.RecoveryBootstrapper.Bootstrap` | schedune-control-plane/internal/recovery/bootstrap.go:45-59 | every non-terminal record is recovered and saved once, in the order of the listing, with one event each; terminal records are untouched |
| `Recovery.RecoveryBootstrapper.RecoverExecution` | schedune-control-plane/internal/recovery/bootstrap.go:61-127 | the epoch stamp, the inspection, the four outcomes and their events |
| `RestartOutcomes.RestartState` | schedune-control-plane/internal/recovery/bootstrap.go:71-116 | in every run: Terminated exactly if Terminating and seen gone, state kept exactly if seen alive or Unknown already, Unknown otherwise; never Failed or Exited |
| `RestartOutcomes.RestartWrites` | schedune-control-plane/internal/recovery/bootstrap.go:61-116 | the epoch and observation stamps, the liveness of a process seen alive, one trace step with its reason, and nothing else |
| `RestartOutcomes.RestartReports` | schedune-control-plane/internal/recovery/bootstrap.go:71-127 | the event and reason of each outcome |
| `RecordInvariants.TransitionedKeepsLog` | schedune-control-plane/internal/domain/lifecycle/state.go:51-70 | an accepted transition adds one state and one trace entry together; a refused one adds neither |
| `LaunchOutcomes.NewRecord` | schedune-control-plane/internal/domain/orchestrator.go:92-109 | what is and what is not known about a new record |
| `LaunchOutcomes.RefusedLaunch` | schedune-control-plane/internal/domain/orchestrator.go:111-135 | states, events and reasons of a launch that validation refuses |
| `LaunchOutcomes.UnpreparedLaunch` | schedune-control-plane/internal/domain/orchestrator.go:137-158 | states, events and reasons of a launch that cannot be prepared |
| `LaunchOutcomes.PreparedLaunchCourse` | schedune-control-plane/internal/domain/orchestrator.go:160-198 | states, events and reasons of a dry run, a failed spawn and a start |
| `LaunchOutcomes.LaunchWrites` | schedune-control-plane/internal/domain/orchestrator.go:111-198 | what each stage writes besides the state, and the trace it leaves |
| `LaunchOutcomes.TerminationCourse` | schedune-control-plane/internal/domain/orchestrator.go:204-241 | states, events and reasons of a termination, with and without a kill that fails |
| `LaunchOutcomes.TerminationWrites` | schedune-control-plane/internal/domain/orchestrator.go:219-241 | the time, the death and the readiness it writes, or why the kill failed |
| `LaunchOutcomes.EventsTell` | schedune-control-plane/internal/domain/orchestrator.go:66-90 | each event tells id, workload, node, backend and state of the record saved with it |
| `RecordInvariants.ValidationInv` | schedune-control-plane/internal/domain/orchestrator.go:111-135 | validation keeps the record invariant and extends the previous save |
| `RecordInvariants.PreparationInv` | schedune-control-plane/internal/domain/orchestrator.go:137-168 | preparation keeps the record invariant and extends the previous save |
| `RecordInvariants.SpawnInv` | schedune-control-plane/internal/domain/orchestrator.go:170-198 | the spawn keeps it: a PID appears together with StartedAtSec, after the whole pipeline |
| `RecordInvariants.KillInv` | schedune-control-plane/internal/domain/orchestrator.go:219-241 | the kill keeps it, from Terminating and from a Pending record whose request was refused |
| `RecordInvariants.PollInv` | schedune-control-plane/internal/domain/lifecycle/reconcile.go:12-128 | a poll keeps it, for every answer of the inspector |
| `RecordInvariants.RecoveryInv` | schedune-control-plane/internal/recovery/bootstrap.go:61-127 | a recovery keeps it and never loses the PID |
| `Runs.StepKeeps` | schedune-control-plane/internal/domain/orchestrator.go:49-241 | every step of every operation, a crash between any two saves, and a restart keep the invariant of the whole store |
| `Runs.RunKeeps` | schedune-control-plane/internal/domain/orchestrator.go:49-241 | so does every run of any length |
| `RunTheorems.StoredProcessesAreReal` | schedune-control-plane/internal/domain/orchestrator.go:137-198 | in every run, a record stored as Starting, Running or Degraded has a PID, a prepared launch and a start time, and its history begins Pending, Preparing, Validated, Launching, Starting |
| `RunTheorems.StoredRecordsAreCoherent` | schedune-control-plane/internal/domain/lifecycle/reconcile.go:49-102 | in every run: Running or Degraded implies Alive, Exited implies Dead, a termination time implies Terminated, start time exactly with PID, ready only if started, created <= started <= ready <= terminated wherever set, trace in time order |
| `RunTheorems.StoredTransitionsAreBounded` | schedune-control-plane/internal/domain/lifecycle/state.go:51-70 | the StateTransition entries of a stored trace number exactly the accepted transitions of a legal path, at most 8 + 4u |
| `RunTheorems.StoredRecordsOnlyGoOn` | schedune-control-plane/internal/store/sqlite/db.go:87-111 | no record is ever removed, each save extends the trace of the previous one, and a terminal record never changes again |
| `RunTheorems.RunningIsReadyIff` | schedune-control-plane/internal/domain/lifecycle/reconcile.go:88-123 | in every run a stored Running record reads Ready exactly when it has a readiness time and was never Degraded |
| `Witnesses.RunningNotReadyHappens` | schedune-control-plane/internal/domain/lifecycle/reconcile.go:116-123 | a run that stores Running with a readiness that was never written |
| `Witnesses.RunningReadsDegradedHappens` | schedune-control-plane/internal/domain/lifecycle/reconcile.go:104-123 | a run that stores Running, after a ready answer, with readiness Degraded |
| `RunTheorems.TerminatedIsDeadIff` | schedune-control-plane/internal/domain/orchestrator.go:219-241 | in every run a stored Terminated record reads Dead exactly when it has a termination time |
| `Witnesses.DryRunIsNotDead` | schedune-control-plane/internal/domain/orchestrator.go:170-180 | every dry run stores Terminated without Dead |
| `Witnesses.RestartIsNotDead` | schedune-control-plane/internal/recovery/bootstrap.go:98-104 | a run whose restart stores Terminated with liveness Alive |
| `RunTheorems.TerminatingReturnsThroughUnknown` | schedune-control-plane/internal/domain/lifecycle/state.go:27-48 | a stored record that was Terminating and later Running was Unknown right after Terminating |
| `RunTheorems.TerminatingIsLostIff` | schedune-control-plane/internal/domain/lifecycle/reconcile.go:25-37 | a poll sends Terminating to Unknown exactly when there is a process and the inspection fails; a restart also when there is none |
| `Witnesses.TerminationIsLostHappens` | schedune-control-plane/internal/domain/lifecycle/reconcile.go:25-123 | a run that stores Running after a requested termination |
| `Witnesses.AbandonedProcessHappens` | schedune-control-plane/internal/domain/lifecycle/reconcile.go:88-102 | a run in which a readiness timeout stores Failed while the process is alive |
| `RunTheorems.TerminationEnds` | schedune-control-plane/internal/domain/orchestrator.go:204-241 | from every non-terminal record a termination ends in Terminated, or in Terminating exactly when a needed kill failed, although the table refuses two of its requests |
| `RunTheorems.TerminationIsIdempotent` | schedune-control-plane/internal/domain/orchestrator.go:204-241 | asking again after success changes, saves and emits nothing |
| `RunTheorems.RecoveryIsNeverRefused` | schedune-control-plane/internal/recovery/bootstrap.go:71-116 | a restart never asks for a transition the table refuses |
| `RunTheorems.RestartLeavesNothingHalfway` | schedune-control-plane/internal/recovery/bootstrap.go:45-127 | after a restart no record is Pending, Preparing, Validated or Launching, and the others that are not terminal are Unknown or have a PID just seen Alive |
| `RunTheorems.RestartIsRestartable` | schedune-control-plane/internal/recovery/bootstrap.go:45-127 | a restart cut off after any set of records and run again with the same answers gives each record the state and liveness of one pass |
| `RunTheorems.LaunchIsARun` | schedune-control-plane/internal/domain/orchestrator.go:49-64 | the launch method is a run of the state machine, save by save, so a crash may fall after any of them |
| `RunTheorems.TerminationIsARun` | schedune-control-plane/internal/domain/orchestrator.go:204-241 | the termination method is a run, save by save |
| `RunTheorems.RestartIsARun` | schedune-control-plane/internal/recovery/bootstrap.go:45-59 | the restart over any listing is a run, record by record |
| `OrphanMatching.MatchEnumeratedProcessToExecution` | schedune-control-plane/internal/recovery/orphan_classify.go:16-50 | the loop and its decision |
| `OrphanMatching.MatchIsOrderFree` | schedune-control-plane/internal/recovery/orphan_classify.go:16-50 | the match depends only on the table, not on the order of the listing: an exact hint wins over every PID match, and two exact hits are impossible |
| `Accounting.OwnProcessesAreMatched` | schedune-control-plane/internal/recovery/orphan_classify.go:16-50 | in every reachable store the process of a stored record that is not over is never unmatched: it goes to the execution its hint names, else to its own record, else it is ambiguous, exactly when several records claim it |
| `Accounting.LaunchedProcessesAreMatched` | schedune-control-plane/internal/recovery/orphan_classify.go:16-50 | the hint of a launched process is its workload id; it goes to the recoverable execution whose id equals it, if there is one, and else is matched by PID |
| `Accounting.UnmatchedIffUnclaimed` | schedune-control-plane/internal/recovery/orphan_classify.go:16-50 | in every reachable store a process is unmatched exactly when no recoverable record claims it by hint or PID, even if a record that is over started it |
| `Accounting.UnclaimedProcessesAreReported` | schedune-control-plane/internal/recovery/orphan_sweep.go:53-95 | an error-free sweep gives such a process an Active row, stale with a hint and unmanaged without |
| `OrphanSweep.OrphanStore.UpsertOrphan` | schedune-control-plane/internal/store/sqlite/orphans.go:13-39 | on conflict only PID, parent, classification, status, reason, last sighting, epoch and details change |
| `OrphanSweep.OrphanStore.GetOrphan` | schedune-control-plane/internal/store/sqlite/orphans.go:41-81 | the row of an id, or none on an error |
| `OrphanSweep.OrphanStore.MarkMissingAsDisappeared` | schedune-control-plane/internal/store/sqlite/orphans.go:148-165 | every Active row that was not observed becomes Disappeared now, no other row changes |
| `OrphanSweep.OrphanSweepService.SweepOnce` | schedune-control-plane/internal/recovery/orphan_sweep.go:39-101 | the whole sweep with store errors at any process; a failed enumeration changes nothing |
| `OrphanTheorems.ActiveDespiteFaults` | schedune-control-plane/internal/recovery/orphan_sweep.go:57-95 | whatever the store fails to do, the Active ids after the marking are exactly the unmatched processes stored at least once; if the marking fails too, the earlier Active rows stay |
| `OrphanTheorems.ActiveMeansUnmatched` | schedune-control-plane/internal/recovery/orphan_sweep.go:39-101 | after a sweep without store errors the Active ids are exactly the ids of unmatched processes, and rows not seen are kept |
| `OrphanTheorems.EveryProcessIsAccountedFor` | schedune-control-plane/internal/recovery/orphan_sweep.go:39-101 | every enumerated process belongs to a recoverable execution or has an Active row |
| `OrphanTheorems.ActiveRowsShowProcesses` | schedune-control-plane/internal/store/sqlite/orphans.go:13-39 | every row that is Active after an error-free sweep shows PID, parent, classification, reason, details and time of a process of that sweep |
| `OrphanTheorems.ClassificationMeans` | schedune-control-plane/internal/recovery/orphan_classify.go:52-89 | each of the three classes in terms of the hint and the number of PID matches |
| `OrphanTheorems.FaultsKeepFirstSeen` | schedune-control-plane/internal/recovery/orphan_sweep.go:57-95 | whatever the store fails to do, no row is lost and no first sighting changes |
| `OrphanTheorems.SweepsTellHistory` | schedune-control-plane/internal/recovery/orphan_sweep.go:57-95 | over any number of error-free sweeps the rows are the ids ever seen, FirstSeenAtSec is the first sighting, FirstSeenAtSec <= LastSeenAtSec, one OrphanDetected per id |
| `OrphanTheorems.SweepsKeepRows` | schedune-control-plane/internal/store/sqlite/orphans.go:148-165 | one more sweep removes no row, never lowers LastSeenAtSec, and leaves a Disappeared row frozen until seen again |
| `OrphanReports.SweepReportsChanges` | schedune-control-plane/internal/recovery/orphan_sweep.go:67-80 | with one process per id, an error-free sweep reports exactly the rows whose class or status it changed by seeing them, once each, with the old first sighting and the new class |
| `OrphanReports.SweepsReportChanges` | schedune-control-plane/internal/recovery/orphan_sweep.go:67-80 | over any number of sweeps there is one report for every such change |
| `OrphanReports.ReturnsAreReported` | schedune-control-plane/internal/recovery/orphan_sweep.go:67-80 | a return from Disappeared to Active is reported by the sweep that sees it |
| `OrphanReports.EventsDespiteFaults` | schedune-control-plane/internal/recovery/orphan_sweep.go:67-95 | a process whose row is not found is reported as detected, even if the lookup failed, and whether or not the row can be stored |
| `OrphanReports.RowsIdentifyProcesses` | schedune-control-plane/internal/store/sqlite/orphans.go:13-39 | whatever fails, a new row identifies a process of the sweep, and an old row keeps its identity |
| `Paths.SocketPathInjective` | schedune-control-plane/internal/runtime/paths.go:12-39 | two workloads or two backends never share a control socket |
| `Paths.SocketPathExists` | schedune-control-plane/internal/runtime/paths.go:9-39 | a socket path is given exactly for a valid workload id and a valid backend token |
| `Paths.SocketPathParts` | schedune-control-plane/internal/runtime/paths.go:20-39 | the components of a socket path are what it was made of |
| `ProcCmdline.SplitInvertsCmdline` | schedune-control-plane/internal/runtime/enumerate_linux.go:61-62 | splitting a command line gives back NUL-free arguments exactly when the last one is not empty or is the only one |
| `ProcCmdline.ExtractHint` | schedune-control-plane/internal/runtime/enumerate_linux.go:82-99 | the nested loops compute the hint of the last argument that carries one |
| `ProcCmdline.SocketArgumentDecides` | schedune-control-plane/internal/runtime/enumerate_linux.go:82-99 | an argument that carries a socket path yields its workload id, whatever came before |
| `ProcCmdline.FirstScheduneDecides` | schedune-control-plane/internal/runtime/enumerate_linux.go:86-93 | the component after the first "schedune" is the hint of a path |
| `ProcCmdline.FlagDecides` | schedune-control-plane/internal/runtime/enumerate_linux.go:95-98 | an explicit execution id wins over the path in the same argument |
| `ProcCmdline.OnlyTheseDecide` | schedune-control-plane/internal/runtime/enumerate_linux.go:82-99 | an argument with neither leaves the hint alone |
| `Executors.QemuArgsTellSpec` | schedune-control-plane/internal/runtime/kvm.go:22-62 | memory, processors, disk and socket of a QEMU launch can be read back, each behind its own flag |
| `Executors.CloudHypervisorArgsTellSpec` | schedune-control-plane/internal/runtime/cloudhypervisor.go:15-52 | the same for Cloud Hypervisor |
| `Executors.PreparedIff` | schedune-control-plane/internal/runtime/kvm.go:22-40 | a launch is prepared exactly with a disk that is not missing and a safe workload id |
| `ProcCmdline.QemuRoundTrip` | schedune-control-plane/internal/runtime/kvm.go:22-62 | the command line of a prepared QEMU launch gives back its arguments and its workload id, even if the disk path contains the marker |
| `ProcCmdline.CloudHypervisorRoundTrip` | schedune-control-plane/internal/runtime/cloudhypervisor.go:15-52 | the same for Cloud Hypervisor |
| `Storage.ResolvePrimaryDisk` | schedune-control-plane/internal/runtime/storage.go:5-26 | the loop finds the primary disk |
| `Storage.PrimaryIndexIsPrimary` | schedune-control-plane/internal/runtime/storage.go:5-26 | the primary attachment is the first root, or the first of all without a root, and no other |
| `Storage.FirstRootIsTheDisk` | schedune-control-plane/internal/runtime/storage.go:5-14 | the first attachment mounted at "/" or nowhere is the disk, in its own format or raw |
| `Storage.DiskWithoutRoot` | schedune-control-plane/internal/runtime/storage.go:16-26 | without one the first attachment, and without attachments the image as qcow2 |
| `Storage.MicroDisksFromOneSource` | schedune-control-plane/internal/runtime/storage.go:28-42 | both disks of a micro VM come from the attachments, or both from the legacy paths |
| `Storage.LegacyStorage` | schedune-control-plane/internal/domain/runtime_select.go:8-25 | what the legacy fields become, attachment by attachment |
| `Storage.ResolveFirecrackerDisks` | schedune-control-plane/internal/runtime/storage.go:28-42 | kernel and root file system both from the attachments, or both from the legacy fields |
| `Storage.LastOnesAreLast` | schedune-control-plane/internal/runtime/storage.go:28-36 | later attachments override earlier ones |
| `Storage.NormalizationKeepsPrimaryDisk` | schedune-control-plane/internal/domain/runtime_select.go:8-25 | normalised storage boots the same primary disk |
| `Storage.NormalizationKeepsFirecrackerDisks` | schedune-control-plane/internal/domain/runtime_select.go:8-25 | normalised storage boots the same kernel and root file system |
| `Storage.NormalizedIffBootable` | schedune-control-plane/internal/domain/runtime_select.go:8-25 | normalisation finds storage exactly when resolution finds a disk; the two differ exactly when the primary attachment names no host path |
| `BackendSelection.SelectBackend` | schedune-control-plane/internal/domain/runtime_select.go:43-229 | the first viable candidate with one piece of evidence per earlier one; the legacy map follows the evidence |
| `BackendSelection.SelectionIsFirstViable` | schedune-control-plane/internal/domain/runtime_select.go:137-229 | empty exactly when no candidate is viable; the legacy map has exactly the rejected ones with their texts |
| `BackendOutcomes.CloudHypervisorIsOpenIff` | schedune-control-plane/internal/domain/runtime_select.go:158-190 | open exactly with KVM and its own binary, both supported and fresh, an accepted version, and storage |
| `BackendOutcomes.QemuIsOpenIff` | schedune-control-plane/internal/domain/runtime_select.go:192-224 | the same for QEMU with its own binary |
| `BackendOutcomes.FirecrackerIsOpenIff` | schedune-control-plane/internal/domain/runtime_select.go:72-135 | the same for Firecracker with its four capabilities and no qcow2 |
| `BackendOutcomes.CloudHypervisorRejection` | schedune-control-plane/internal/domain/runtime_select.go:158-190 | the evidence blames the first thing missing and shows what the node says about it |
| `BackendOutcomes.QemuRejection` | schedune-control-plane/internal/domain/runtime_select.go:192-224 | the same for QEMU |
| `BackendOutcomes.FirecrackerRejection` | schedune-control-plane/internal/domain/runtime_select.go:72-135 | the same for Firecracker |
| `BackendOutcomes.SelectionWithoutPreference` | schedune-control-plane/internal/domain/runtime_select.go:137-228 | Cloud Hypervisor if open, else QEMU if open, else none, with the rejections before it |
| `BackendOutcomes.SelectionWithPreference` | schedune-control-plane/internal/domain/runtime_select.go:140-228 | the preferred backend if open, the other only by fallback, and one rejection for a preference that is not supported |
| `BackendOutcomes.OnlyQemuOnTheNode` | schedune-control-plane/internal/domain/runtime_select.go:157-224 | with only the QEMU binary on the node QEMU is selected and the Cloud Hypervisor binary is blamed |
| `BackendOutcomes.LegacyTexts` | schedune-control-plane/internal/domain/runtime_select.go:47-68 | the legacy map holds for each rejected backend the reason of its evidence and the reason of the capability |
| `BackendSelection.CandidatesFollowPreference` | schedune-control-plane/internal/domain/runtime_select.go:137-155 | a supported preference comes first, the other backend only by fallback, none twice |
| `Versions.ParsePrinted` | schedune-control-plane/internal/domain/version.go:19-42 | a printed version between a digit-free prefix and a suffix that starts with no digit is read back, and refused when a part does not fit an int |
| `Versions.ParsePrintedWithoutPatch` | schedune-control-plane/internal/domain/version.go:19-42 | without a patch part the patch is 0 |
| `Versions.FoundIff` | schedune-control-plane/internal/domain/version.go:11 | the pattern matches exactly the texts with a digit, a dot and a digit in a row |
| `Versions.CompareIsATotalOrder` | schedune-control-plane/internal/domain/version.go:44-64 | comparison is antisymmetric, transitive and zero exactly on equal versions |
| `Versions.AcceptsIff` | schedune-control-plane/internal/domain/version.go:66-101 | a requirement accepts exactly the versions equal to the exact one and not below the minimum |
| `Versions.FitsIff` | schedune-control-plane/internal/domain/version.go:19-42 | the parts that fit are those below 2^63 |
| `Versions.RefusalReasons` | schedune-control-plane/internal/domain/version.go:66-101 | why a banner is refused, in the order of the checks |
| `Versions.MinimumIsMonotone` | schedune-control-plane/internal/domain/version.go:66-101 | a minimum is upward closed in the observed version and downward closed in the minimum |
| `Versions.ExactIsExact` | schedune-control-plane/internal/domain/version.go:66-101 | an exact requirement accepts one version only, whatever the banner around it |
| `Evaluation.Evaluate` | schedune-control-plane/internal/domain/evaluate.go:27-111 | the checks in order; the outcome does not depend on the order in which the constraint map is walked |
| `Evaluation.ForbiddenOnNode` | schedune-control-plane/internal/domain/evaluate.go:89-97 | the forbidden constraints a node has, in the order of the intent, for any order of the map keys |
| `Evaluation.CodesAreTheFailedChecks` | schedune-control-plane/internal/domain/evaluate.go:36-97 | each rejection code appears exactly when its own check fails |
| `Evaluation.EligibleIff` | schedune-control-plane/internal/domain/evaluate.go:36-97 | eligible exactly when every check passes |
| `Evaluation.CodesAreRanked` | schedune-control-plane/internal/domain/evaluate.go:36-97 | the codes come in the order of the checks, and none but forbidden constraints repeats |
| `Evaluation.ResultShows` | schedune-control-plane/internal/domain/evaluate.go:27-111 | the flags, warnings and matched features of the result in terms of node and intent |
| `Projection.ProjectEnvelope` | schedune-control-plane/internal/domain/projector.go:59-160 | the record of an envelope, field by field; of a provenance object, the entry that the walk over it ends with |
| `Projection.LastReportWins` | schedune-control-plane/internal/domain/projector.go:98-133 | the record holds the last report of each reported feature and no other feature |
| `Projection.RecordTellsEnvelope` | schedune-control-plane/internal/domain/projector.go:59-87 | every plain field of the record is the one of the envelope |
| `Projection.CapabilityTellsLastReport` | schedune-control-plane/internal/domain/projector.go:98-133 | state, reason, version, staleness and provenance of a capability are those of its last report |
| `Projection.LastConstraintWins` | schedune-control-plane/internal/domain/projector.go:135-151 | and so are those of a constraint |
| `Projection.StaleCollectorsAre` | schedune-control-plane/internal/domain/projector.go:88-157 | the names given for stale telemetry: failed collectors, expired probes, an old envelope |
| `Projection.StaleCollectorsInOrder` | schedune-control-plane/internal/domain/projector.go:88-157 | and they come in this order |
| `Projection.ProjectionsAgree` | schedune-control-plane/internal/domain/projector.go:116-133 | two projections of one envelope differ at most in provenance, and not even there when every provenance has one rendering |
| `Projection.StaleIff` | schedune-control-plane/internal/domain/projector.go:88-157 | stale exactly when a stale collector is named, and exactly when a collector failed, a capability expired or the envelope is older than 300 s |
| `Projection.FreshnessCheckIff` | schedune-control-plane/internal/domain/evaluate.go:45-50 | the freshness check of a projected record in terms of the envelope and the two clocks |
| `Projection.AcceptedRestsOnFreshTelemetry` | schedune-control-plane/internal/domain/evaluate.go:36-97 | an accepted node rests on no stale capability, although the KVM and TPM checks never read staleness |
| `Scheduler.ScheduleV0` | schedune-control-plane/internal/domain/scheduler.go:23-77 | filter, score, sort, select |
| `Scheduler.EveryNodeIsRankedOrRejected` | schedune-control-plane/internal/domain/scheduler.go:23-77 | ranked and rejected together are the candidates, none lost or duplicated; exactly the eligible are ranked; nobody beats the selected one |
| `Scheduler.SortedRankingIsUnique` | schedune-control-plane/internal/domain/scheduler.go:63-69 | score descending, then id ascending leaves only one possible ranking |
| `Scheduler.RankingIsOrderFree` | schedune-control-plane/internal/domain/scheduler.go:23-77 | every permutation of the candidates gives the same ranking and the same selection |
| `Scheduler.ScoreIsBounded` | schedune-control-plane/internal/domain/scheduler.go:40-54 | the best score is 50 plus ten per preference, reached exactly by fresh telemetry, no alarm and all preferences |
| `Scheduler.FreshThenQuiet` | schedune-control-plane/internal/domain/scheduler.go:40-69 | with equally many preferences met, fresh telemetry goes first whatever the alarms, and at equal freshness the node without alarm |
| `Scheduler.WishesThatOutweigh` | schedune-control-plane/internal/domain/scheduler.go:40-69 | more than three preferences outweigh freshness and more than two the missing alarm; at exactly three or two the ids decide |
| `Scheduler.SelectedIsBest` | schedune-control-plane/internal/domain/scheduler.go:63-74 | no eligible node is better than the selected one, and scores fall along the ranking |
| `Scheduler.LexLessIff` | schedune-control-plane/internal/domain/scheduler.go:65-67 | ids are compared at the first character where they differ |
| `Scheduler.LexTotal` | schedune-control-plane/internal/domain/scheduler.go:65-67 | the id order is total, so the comparison is one |
| `Agent.SafeIdsAgree` | schedune-agent/src/prepare.rs:148-154 | agent and control plane accept the same workload ids |
| `Agent.SocketPathsAgree` | schedune-agent/src/prepare.rs:335-340 | and derive the same socket path |
| `Agent.ResolvePrimaryDisk` | schedune-agent/src/prepare.rs:302-333 | the loop with its fallback finds the control plane's primary disk |
| `Agent.DisksAgree` | schedune-agent/src/prepare.rs:302-333 | same path always; same format exactly unless the only disk is an image named "" |
| `Agent.QemuPreparationsAgree` | schedune-agent/src/prepare.rs:342-387 | same QEMU arguments and fields but for the looked-up binary, prepared exactly when the binary is found and the control plane prepares it: this holds exactly when the two file tests agree on the chosen disk, or the binary is not found |
| `Agent.CloudHypervisorPreparationsAgree` | schedune-agent/src/prepare.rs:389-431 | the same for Cloud Hypervisor |
| `Agent.PrepareFirecracker` | schedune-agent/src/prepare.rs:433-486 | legacy paths first, then the first attachment that looks like a root file system or a kernel |
| `Agent.FirstOfIsFirst` | schedune-agent/src/prepare.rs:444-452 | the first attachment of a kind is used, and none exactly when there is none |
| `Agent.KindsAre` | schedune-agent/src/prepare.rs:444-452 | what makes an attachment a root file system or a kernel |
| `Agent.FirecrackerOutcome` | schedune-agent/src/prepare.rs:433-486 | what is prepared for a micro VM, and the first thing missing otherwise |
| `Agent.VmRefusals` | schedune-agent/src/prepare.rs:342-408 | why a virtual machine backend is not prepared |
| `Agent.CandidatesAgree` | schedune-agent/src/prepare.rs:194-221 | same candidates in the same order exactly unless the preference is present and empty |
| `Agent.PrepareLaunch` | schedune-agent/src/prepare.rs:177-264 | the first candidate that can be prepared, or one reason per candidate in order |
| `Agent.AgentFollowsControlPlane` | schedune-agent/src/prepare.rs:177-264 | what the agent prepares for a virtual machine is the control plane's own preparation for the first candidate that is open to it, and nothing exactly when there is none: this holds exactly when the two file tests agree on the chosen disk, or no binary is found |

## Left out

- ExecutionRecords.ExecutionRecord: the fields sit in one cell `rec` that each assignment replaces; aliasing between the parts of a record (its trace, its signal) is not modelled.
- Overlapping operations on one execution id, and saves that fail: see the assumptions.
- Events across crashes: methods state the events they emit, the state machine of runs tracks records only.
- Trace and event messages, event details, reason texts: reasons are datatypes, free text is dropped.
- Validation of a launch against a node, executors' `Execute` and `Terminate`, inspectors, socket dialling, signals: they appear as outcomes.
- SQL, JSON, HTTP routing and response shaping: tables are maps whose payload is the record itself.
- UUIDs and SHA-256: fresh ids, opaque fingerprints; the fingerprint is not claimed to be injective.
- A listing error inside a sweep: it returns before anything is written, as the enumeration error that is modelled.
- `filepath.Join`: no component is empty, "." or "..", so its cleaning is the identity.
- A provenance object with a value that is not a text, on which the source panics; the observation times of capabilities and alarms, which nothing modelled reads.
- Scheduler.SortRanking: stands for the library's in-place sort on a value; only sortedness and permutation are used. Strings are compared by code point.
- Widths of memory sizes, CPU counts and clock readings: unbounded; only version parts are held against the 64-bit limit.
- Agreement of control plane and agent on Firecracker disks: they choose differently (last match against first match, and an ext4 attachment counts as root file system only in the agent), so none is stated.
- Network normalisation, the micro VM artifact validator, `readiness.go`, `reassociate.go`, `eligibility.go`, the migration analyser, the doctor command: easy, or never called by what is modelled.
