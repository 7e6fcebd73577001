/** What a restart stores and reports for one record, case by case, in terms of the record and the
    answer alone. */
module RestartOutcomes {
  import opened Wrappers
  import opened LaunchSchema
  import opened Lifecycle
  import opened Recovery
  import opened RecordInvariants
  import opened Runs

  predicate SeenAlive(e: Execution, i: Inspection) {
    e.pid.Some? && i.Observed? && i.obs.processExists
  }

  predicate SeenGone(e: Execution, i: Inspection) {
    e.pid.Some? && i.Observed? && !i.obs.processExists
  }

  /** A restart ends a record only if it was Terminating and its process is gone, leaves the state
      alone exactly when the process was seen alive or the record was Unknown already, and calls
      everything else Unknown. It never stores Failed or Exited. */
  lemma RestartState(w: World, id: string, i: Inspection, t: Readings)
    requires Reachable(w) && Enabled(w, Recover(id, i, t))
    ensures id in Next(w, Recover(id, i, t)).table
    ensures var e, e' := w.table[id], Next(w, Recover(id, i, t)).table[id];
            && (e'.state.Terminated? <==> e.state.Terminating? && SeenGone(e, i))
            && (e'.state == e.state <==> SeenAlive(e, i) || e.state.Unknown?)
            && (e'.state != e.state && !e'.state.Terminated? ==> e'.state.Unknown?)
            && !e'.state.Failed? && !e'.state.Exited?
  {
    ReachableInv(w);
    assert RowOk(w, id);
  }

  /** It stamps the record, marks a process that was seen alive, logs one step, and writes nothing
      else. */
  lemma RestartWrites(w: World, id: string, i: Inspection, t: Readings)
    requires Reachable(w) && Enabled(w, Recover(id, i, t))
    ensures id in Next(w, Recover(id, i, t)).table
    ensures var e, e' := w.table[id], Next(w, Recover(id, i, t)).table[id];
            var step := if SeenAlive(e, i) then TraceStep(RecoveryBootstrap, Success, RecoveryConfirmed, t.t1)
                        else TraceStep(StateTransition, Success,
                                       if e.pid.None? then ErrRecoveryStaleHandle
                                       else if i.InspectError? then ErrRecoveryRehydrateFailed
                                       else ErrRecoveryExecutionMissing, t.t1);
            e' == e.(recoveryEpoch := w.mode.epoch, lastObservedAt := Some(t.t0),
                     liveness := if SeenAlive(e, i) then Alive else e.liveness,
                     trace := e.trace + [step],
                     state := e'.state, history := if SeenAlive(e, i) then e.history else e.history + [e'.state])
  {
    ReachableInv(w);
    assert RowOk(w, id);
    RecoveredWrites(w.table[id], i, w.mode.epoch, t);
  }

  lemma RecoveredWrites(e: Execution, i: Inspection, epoch: string, t: Readings)
    requires !IsTerminal(e.state)
    ensures var e' := Recovered(e, i, epoch, t);
            var step := if SeenAlive(e, i) then TraceStep(RecoveryBootstrap, Success, RecoveryConfirmed, t.t1)
                        else TraceStep(StateTransition, Success,
                                       if e.pid.None? then ErrRecoveryStaleHandle
                                       else if i.InspectError? then ErrRecoveryRehydrateFailed
                                       else ErrRecoveryExecutionMissing, t.t1);
            e' == e.(recoveryEpoch := epoch, lastObservedAt := Some(t.t0),
                     liveness := if SeenAlive(e, i) then Alive else e.liveness,
                     trace := e.trace + [step],
                     state := e'.state, history := if SeenAlive(e, i) then e.history else e.history + [e'.state])
  {
  }

  /** The event of each outcome. */
  lemma RestartReports(e: Execution, i: Inspection, t: Readings)
    ensures RecoveryEvent(e, i, t) ==
            if SeenAlive(e, i) then
              RuntimeEvent(e.executionId, ExecutionRehydrated, t.t0, RecoveryConfirmed, RecoveryPayload)
            else if e.state.Terminating? && SeenGone(e, i) then
              RuntimeEvent(e.executionId, ExecutionRehydrated, t.t0, RecoveryTerminatedMissing, RecoveryPayload)
            else
              RuntimeEvent(e.executionId, ExecutionRecoveryUnknown, t.t0,
                           if e.pid.None? then ErrRecoveryStaleHandle
                           else if i.InspectError? then ErrRecoveryRehydrateFailed
                           else ErrRecoveryExecutionMissing, RecoveryPayload)
  {
  }
}
