/** Runs that lead to what one might not expect: refused polls, Running records that do not read
    Ready, Terminated records that do not read Dead, terminations that are lost, and processes
    that outlive their record. */
module Witnesses {
  import opened Wrappers
  import opened LaunchSchema
  import opened Lifecycle
  import opened Reconciliation
  import opened LaunchSteps
  import opened RecordInvariants
  import opened PollProperties
  import opened Recovery
  import opened Runs
  import opened RunTheorems

  lemma ReachableStep(w: World, s: Step)
    requires Reachable(w) && Enabled(w, s)
    ensures Reachable(Next(w, s))
  {
    var epoch, clock, steps :|
      0 <= clock && ValidRun(Initial(epoch, clock), steps) && w == After(Initial(epoch, clock), steps);
    RunAppend(Initial(epoch, clock), steps, s);
  }

  /** Of the four refused cases, Terminating without a PID cannot be polled while operations on
      an execution are serialised: a kill without a process always ends in Terminated. */
  lemma RefusedWhileServing(w: World, id: string, i: Inspection, now: int)
    requires Reachable(w) && Idle(w, id)
    ensures var e := w.table[id];
            && !(e.state.Terminating? && e.pid.None?)
            && (Refused(e, i, now) <==>
                  && i.Observed?
                  && (|| (e.state.Degraded? && !i.obs.processExists)
                      || (e.state.Degraded? && i.obs.processExists && i.obs.backendError.None? && i.obs.readySignal)
                      || (e.state.Unknown? && e.pid.Some? && i.obs.processExists && !i.obs.readySignal)))
  {
    ReachableInv(w);
    assert RowOk(w, id);
    RefusedExactly(w.table[id], i, now, w.clock);
  }

  /** One clock reading for everything. */
  const T0 := Readings(0, 0, 0, 0)

  /** A run is about to go on with `id` at phase `p`. */
  ghost predicate At(w: World, id: string, p: Phase, spec: LaunchSpec) {
    && Reachable(w) && w.clock == 0 && InFlight(w, id, p)
    && id in w.table && w.flights[id].copy == w.table[id] && w.table[id].spec == spec
    && RecordInv(w.table[id], 0) && StateIn(p, w.table[id].state) && w.mode.Serving?
  }

  lemma CreatedIsReachable(id: string, spec: LaunchSpec) returns (w: World)
    ensures At(w, id, ToValidate, spec)
  {
    var w0 := Initial("", 0);
    assert ValidRun(w0, []) && After(w0, []) == w0;
    ReachableStep(w0, Serve);
    var w1 := Next(w0, Serve);
    ReachableStep(w1, Launch(id, spec, T0));
    w := Next(w1, Launch(id, spec, T0));
    CreatedInv(id, spec, T0, 0);
  }

  lemma ValidatedIsReachable(id: string, spec: LaunchSpec) returns (w: World)
    ensures At(w, id, ToPrepare, spec)
  {
    var w0 := CreatedIsReachable(id, spec);
    ValidationInv(w0.table[id], Valid, T0, 0);
    ReachableStep(w0, Step.Validate(id, Valid, T0));
    w := Next(w0, Step.Validate(id, Valid, T0));
  }

  lemma PreparedIsReachable(id: string, spec: LaunchSpec, prep: PreparedLaunch) returns (w: World)
    ensures At(w, id, ToMarkLaunching, spec)
  {
    var w0 := ValidatedIsReachable(id, spec);
    PreparationInv(w0.table[id], PrepareOk(prep), T0, 0);
    ReachableStep(w0, Prepare(id, PrepareOk(prep), T0));
    w := Next(w0, Prepare(id, PrepareOk(prep), T0));
  }

  ghost predicate Polling(w: World, id: string, s: LaunchState) {
    Reachable(w) && w.clock == 0 && Idle(w, id) && w.table[id].state == s && w.table[id].pid.Some?
  }

  lemma StartedIsReachable(id: string, spec: LaunchSpec, prep: PreparedLaunch, pid: int) returns (w: World)
    requires spec.launchMode.Execute?
    ensures Polling(w, id, Starting)
  {
    var w0 := PreparedIsReachable(id, spec, prep);
    LaunchingInv(w0.table[id], T0, 0);
    ReachableStep(w0, MarkLaunching(id, T0));
    var w1 := Next(w0, MarkLaunching(id, T0));
    SpawnInv(w1.table[id], Spawned(pid), T0, 0);
    ReachableStep(w1, Spawn(id, Spawned(pid), T0));
    w := Next(w1, Spawn(id, Spawned(pid), T0));
  }

  lemma PolledIsReachable(w: World, id: string, s: LaunchState, i: Inspection) returns (w': World)
    requires Polling(w, id, s)
    ensures w' == Next(w, Step.Poll(id, i, T0)) && Polling(w', id, Polled(w.table[id], i, T0).state)
  {
    ReachableStep(w, Step.Poll(id, i, T0));
    w' := Next(w, Step.Poll(id, i, T0));
  }

  const READY := Observation(true, None, 0, "", true, true, true, true, "", None)

  lemma ReadyIsReachable(id: string, spec: LaunchSpec, prep: PreparedLaunch, pid: int) returns (w: World)
    requires spec.launchMode.Execute?
    ensures Polling(w, id, Running) && w.table[id].readiness.Ready? && w.table[id].liveness.Alive?
  {
    var started := StartedIsReachable(id, spec, prep, pid);
    w := PolledIsReachable(started, id, Starting, Observed(READY));
  }

  /** Any launch can come to be Degraded, and then a poll that finds the process gone, or ready
      again, is refused. */
  lemma DegradedRefusalsHappen(id: string, spec: LaunchSpec, prep: PreparedLaunch, pid: int) returns (w: World)
    requires spec.launchMode.Execute?
    ensures Polling(w, id, Degraded)
    ensures forall i: Inspection, now: int ::
              i.Observed? && (!i.obs.processExists || (i.obs.backendError.None? && i.obs.readySignal))
              ==> Refused(w.table[id], i, now)
  {
    var running := ReadyIsReachable(id, spec, prep, pid);
    w := PolledIsReachable(running, id, Running, Observed(READY.(backendError := Some(""))));
  }

  /** And any launch can come to be Unknown, and then a poll that finds the process alive but
      not ready is refused. */
  lemma UnknownRefusalsHappen(id: string, spec: LaunchSpec, prep: PreparedLaunch, pid: int) returns (w: World)
    requires spec.launchMode.Execute?
    ensures Polling(w, id, Unknown)
    ensures forall i: Inspection, now: int ::
              i.Observed? && i.obs.processExists && !i.obs.readySignal ==> Refused(w.table[id], i, now)
  {
    var started := StartedIsReachable(id, spec, prep, pid);
    w := PolledIsReachable(started, id, Starting, InspectError);
  }

  // ---------- Running without Ready ----------

  /** A failed inspection and then an answer that is alive and ready. */
  lemma LostAndFound(e: Execution)
    requires IsPolled(e.state) && !e.state.Unknown? && e.pid.Some?
    ensures var lost := Polled(e, InspectError, T0);
            && lost.state.Unknown? && lost.pid == e.pid && lost.readiness == e.readiness
            && lost.history == e.history + [Unknown]
    ensures var found := Polled(Polled(e, InspectError, T0), Observed(READY), T0);
            found.state.Running? && found.readiness == e.readiness && found.history == e.history + [Unknown] + [Running]
  {
    var lost := Polled(e, InspectError, T0);
    assert lost.state.Unknown? && lost.pid == e.pid && lost.readiness == e.readiness;
    Found(lost);
  }

  lemma Found(e: Execution)
    requires e.state.Unknown? && e.pid.Some?
    ensures var found := Polled(e, Observed(READY), T0);
            found.state.Running? && found.readiness == e.readiness && found.history == e.history + [Running]
  {
  }

  lemma ReturnIsReachable(w: World, id: string, s: LaunchState) returns (w': World)
    requires Polling(w, id, s) && IsPolled(s) && !s.Unknown?
    ensures Polling(w', id, Running)
    ensures w'.table[id].readiness == w.table[id].readiness
    ensures w'.table[id].history == w.table[id].history + [Unknown] + [Running]
  {
    LostAndFound(w.table[id]);
    var unknown := PolledIsReachable(w, id, s, InspectError);
    w' := PolledIsReachable(unknown, id, Unknown, Observed(READY));
  }

  /** Any launch can be Running without ever having read Ready. */
  lemma RunningNotReadyHappens(id: string, spec: LaunchSpec, prep: PreparedLaunch, pid: int) returns (w: World)
    requires spec.launchMode.Execute?
    ensures Reachable(w) && id in w.table && w.table[id].state.Running? && w.table[id].readiness.NotStarted?
  {
    var started := StartedIsReachable(id, spec, prep, pid);
    StartingIsNotStarted(started, id);
    w := ReturnIsReachable(started, id, Starting);
  }

  lemma StartingIsNotStarted(w: World, id: string)
    requires Polling(w, id, Starting)
    ensures w.table[id].readiness.NotStarted?
  {
    ReachableInv(w);
    assert RowOk(w, id);
  }

  /** And it can be Running again, and ready, and still read Degraded. */
  lemma RunningReadsDegradedHappens(id: string, spec: LaunchSpec, prep: PreparedLaunch, pid: int) returns (w: World)
    requires spec.launchMode.Execute?
    ensures Reachable(w) && id in w.table && w.table[id].state.Running? && w.table[id].readiness.ReadinessDegraded?
  {
    var degraded := DegradedRefusalsHappen(id, spec, prep, pid);
    DegradedReadsDegraded(degraded, id);
    w := ReturnIsReachable(degraded, id, Degraded);
  }

  lemma DegradedReadsDegraded(w: World, id: string)
    requires Polling(w, id, Degraded)
    ensures w.table[id].readiness.ReadinessDegraded?
  {
    ReachableInv(w);
    assert RowOk(w, id);
  }

  // ---------- Terminated without Dead ----------

  /** A dry run ends in Terminated with a liveness that was never known. */
  lemma DryRunIsNotDead(id: string, spec: LaunchSpec, prep: PreparedLaunch) returns (w: World)
    requires !spec.launchMode.Execute?
    ensures Reachable(w) && id in w.table && w.table[id].state.Terminated? && !w.table[id].liveness.Dead?
  {
    var w0 := PreparedIsReachable(id, spec, prep);
    LaunchingInv(w0.table[id], T0, 0);
    ReachableStep(w0, MarkLaunching(id, T0));
    var w1 := Next(w0, MarkLaunching(id, T0));
    SpawnInv(w1.table[id], SpawnError, T0, 0);
    ReachableStep(w1, Spawn(id, SpawnError, T0));
    w := Next(w1, Spawn(id, SpawnError, T0));
    DryRunKeepsLiveness(w1.table[id], T0);
  }

  lemma DryRunKeepsLiveness(e: Execution, t: Readings)
    requires !e.spec.launchMode.Execute?
    ensures AfterSpawn(e, SpawnError, t).liveness == e.liveness
  {
  }

  /** The process answers, the kill fails. */
  lemma TerminatingIsReachable(id: string, spec: LaunchSpec, prep: PreparedLaunch, pid: int) returns (w: World)
    requires spec.launchMode.Execute?
    ensures Polling(w, id, Terminating) && w.table[id].liveness.Alive?
  {
    var running := ReadyIsReachable(id, spec, prep, pid);
    ReachableInv(running);
    assert RowOk(running, id);
    RequestInv(running.table[id], T0, 0);
    ReachableStep(running, Step.Terminate(id, T0));
    var w1 := Next(running, Step.Terminate(id, T0));
    KillInv(w1.table[id], KillFailed, T0, 0);
    ReachableStep(w1, Kill(id, KillFailed, T0));
    w := Next(w1, Kill(id, KillFailed, T0));
  }

  /** A restart that misses the process of a Terminating record ends it as Terminated, and the
      record still reads Alive. */
  lemma RestartIsNotDead(id: string, spec: LaunchSpec, prep: PreparedLaunch, pid: int, gone: Observation)
    returns (w: World)
    requires spec.launchMode.Execute? && !gone.processExists
    ensures Reachable(w) && id in w.table && w.table[id].state.Terminated? && w.table[id].liveness.Alive?
  {
    var w0 := TerminatingIsReachable(id, spec, prep, pid);
    ReachableStep(w0, Crash(""));
    var w1 := Next(w0, Crash(""));
    ReachableStep(w1, Recover(id, Observed(gone), T0));
    w := Next(w1, Recover(id, Observed(gone), T0));
  }

  // ---------- A lost termination ----------

  lemma LastIsState(w: World, id: string)
    requires Reachable(w) && id in w.table
    ensures w.table[id].state in w.table[id].history
  {
    ReachableInv(w);
    assert RowOk(w, id);
  }

  /** A termination whose kill failed is forgotten after one failed inspection. */
  lemma TerminationIsLostHappens(id: string, spec: LaunchSpec, prep: PreparedLaunch, pid: int) returns (w: World)
    requires spec.launchMode.Execute?
    ensures Reachable(w) && id in w.table && w.table[id].state.Running? && Terminating in w.table[id].history
  {
    var w0 := TerminatingIsReachable(id, spec, prep, pid);
    LastIsState(w0, id);
    w := ReturnIsReachable(w0, id, Terminating);
  }

  // ---------- The readiness deadline ----------

  /** Fifteen seconds after its start a live process that is not ready is still waited for, and
      one second later its record fails. */
  lemma FifteenSecondsHappen(id: string, spec: LaunchSpec, prep: PreparedLaunch, pid: int)
    returns (waiting: World, failed: World)
    requires spec.launchMode.Execute?
    ensures Reachable(waiting) && id in waiting.table && waiting.table[id].state.Starting?
    ensures waiting.table[id].startedAt.Some? && waiting.clock == waiting.table[id].startedAt.value + 15
    ensures Reachable(failed) && id in failed.table && failed.table[id].state.Failed?
    ensures failed.table[id].startedAt == waiting.table[id].startedAt && failed.clock == waiting.clock + 1
  {
    var started := StartedIsReachable(id, spec, prep, pid);
    StartedAtZero(started, id);
    var answer := Observed(READY.(readySignal := false));
    ReachableStep(started, Step.Poll(id, answer, Readings(15, 15, 15, 15)));
    waiting := Next(started, Step.Poll(id, answer, Readings(15, 15, 15, 15)));
    ReachableStep(started, Step.Poll(id, answer, Readings(16, 16, 16, 16)));
    failed := Next(started, Step.Poll(id, answer, Readings(16, 16, 16, 16)));
  }

  lemma StartedAtZero(w: World, id: string)
    requires Polling(w, id, Starting)
    ensures w.table[id].startedAt.Some? && w.table[id].startedAt.value == 0
  {
    ReachableInv(w);
    assert RowOk(w, id);
  }

  // ---------- A process that outlives its record ----------

  /** A process that is alive but not ready in time is left running by a record that is over. */
  lemma AbandonedProcessHappens(id: string, spec: LaunchSpec, prep: PreparedLaunch, pid: int) returns (w: World)
    requires spec.launchMode.Execute?
    ensures Reachable(w) && id in w.table && w.table[id].state.Failed? && w.table[id].liveness.Alive?
    ensures w.table[id].pid.Some?
  {
    var late := Readings(16, 16, 16, 16);
    var waiting := Observed(READY.(readySignal := false));
    var started := StartedIsReachable(id, spec, prep, pid);
    ReachableInv(started);
    assert RowOk(started, id);
    ReachableStep(started, Step.Poll(id, waiting, late));
    w := Next(started, Step.Poll(id, waiting, late));
  }
}
