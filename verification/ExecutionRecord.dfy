/** The execution record as the object that the control plane updates in place. */
module ExecutionRecords {
  import opened Wrappers
  import opened LaunchSchema
  import opened Lifecycle
  import opened Reconciliation

  /** What the source passes around as a pointer to the record: a cell whose fields are
      overwritten one after the other. A save stores a copy of `rec`. */
  class ExecutionRecord {
    var rec: Execution

    constructor (e: Execution)
      ensures rec == e
    {
      rec := e;
    }

    method AppendTrace(stage: Stage, status: Status, reason: Reason, now: int)
      modifies this
      ensures rec == Traced(old(rec), stage, status, reason, now)
    {
      rec := rec.(trace := rec.trace + [TraceStep(stage, status, reason, now)]);
    }

    /** Moves to `next` if the table allows it; otherwise reports the refusal and changes nothing. */
    method TransitionTo(next: LaunchState, reason: Reason, now: int) returns (refused: bool)
      modifies this
      ensures refused == !IsTransitionAllowed(old(rec).state, next)
      ensures rec == Transitioned(old(rec), next, reason, now)
    {
      if !IsTransitionAllowed(rec.state, next) {
        return true;
      }
      rec := rec.(state := next);
      rec := rec.(history := rec.history + [next]);
      AppendTrace(StateTransition, Success, reason, now);
      return false;
    }

    /** One poll against the inspector's answer `i`. A refusal is the error that makes the
        caller skip its save; the fields written before it stay written in memory. */
    method Reconcile(i: Inspection, t: Readings) returns (refused: bool)
      modifies this
      ensures refused == Refused(old(rec), i, t.t0)
      ensures rec == Reconciled(old(rec), i, t)
    {
      if IsTerminal(rec.state) {
        return false;
      }
      if !IsPolled(rec.state) {
        return false;
      }
      if rec.pid.None? {
        refused := TransitionTo(Failed, ErrReconcileProcessMissing, t.t1);
        return;
      }
      if i.InspectError? {
        refused := TransitionTo(Unknown, ErrReconcileStatusUnreadable, t.t1);
        return;
      }
      rec := rec.(signal := Some(SignalOf(i.obs)));
      if i.obs.processExists {
        refused := ReconcileAlive(i.obs, t);
      } else {
        refused := ReconcileGone(i.obs, t);
      }
    }

    /** The process is gone: a requested termination is complete, anything else is a death. */
    method ReconcileGone(obs: Observation, t: Readings) returns (refused: bool)
      requires IsPolled(rec.state) && rec.pid.Some? && !obs.processExists && rec.signal == Some(SignalOf(obs))
      modifies this
      ensures refused == Refused(old(rec), Observed(obs), t.t0)
      ensures rec == Reconciled(old(rec), Observed(obs), t)
    {
      rec := rec.(liveness := Dead);
      if rec.state.Terminating? {
        rec := rec.(terminatedAt := Some(t.t0));
        rec := rec.(readiness := NotReady);
        refused := TransitionTo(Terminated, NoReason, t.t1);
        return;
      }
      if rec.state.Starting? {
        rec := rec.(readiness := ReadinessFailed);
        refused := TransitionTo(Failed, ErrExecRuntimeExitedEarly, t.t1);
        return;
      }
      if obs.exitCode.Some? {
        rec := rec.(exitCode := obs.exitCode);
      }
      refused := TransitionTo(Exited, ErrExecRuntimeCrashed, t.t1);
    }

    /** The process is alive: wait for readiness, or follow what the backend reports. */
    method ReconcileAlive(obs: Observation, t: Readings) returns (refused: bool)
      requires IsPolled(rec.state) && rec.pid.Some? && obs.processExists && rec.signal == Some(SignalOf(obs))
      modifies this
      ensures refused == Refused(old(rec), Observed(obs), t.t0)
      ensures rec == Reconciled(old(rec), Observed(obs), t)
    {
      var now := t.t0;
      var deadline := if rec.startedAt.Some? then rec.startedAt.value + READINESS_TIMEOUT_SEC else 0;
      rec := rec.(liveness := Alive);
      if rec.state.Starting? && obs.readySignal {
        rec := rec.(readiness := Ready, readyAt := Some(now));
        refused := TransitionTo(Running, NoReason, t.t1);
      } else if rec.state.Starting? && deadline > 0 && now > deadline {
        rec := rec.(readiness := ReadinessFailed);
        refused := TransitionTo(Failed, ErrReadyTimeout, t.t1);
      } else if rec.state.Running? && obs.backendError.Some? {
        rec := rec.(readiness := ReadinessDegraded);
        refused := TransitionTo(Degraded, ErrReadyProbeFailed, t.t1);
      } else if rec.state.Degraded? && obs.backendError.None? && obs.readySignal {
        rec := rec.(readiness := Ready);
        refused := TransitionTo(Running, NoReason, t.t1);
      } else if rec.state.Unknown? {
        refused := TransitionTo(if obs.readySignal then Running else Starting, NoReason, t.t1);
      } else {
        rec := rec.(updatedAt := now);
        refused := false;
      }
    }
  }
}
