/** What one poll does to a record, as a function of the inspector's answer: the fields it
    writes, the transition it picks, and whether the table refuses that transition. */
module Reconciliation {
  import opened Wrappers
  import opened LaunchSchema
  import opened Lifecycle

  const READINESS_TIMEOUT_SEC := 15

  predicate IsPolled(s: LaunchState) {
    s.Starting? || s.Running? || s.Degraded? || s.Terminating? || s.Unknown?
  }

  predicate TimedOut(e: Execution, now: int) {
    e.startedAt.Some? && 0 < e.startedAt.value + READINESS_TIMEOUT_SEC < now
  }

  function SignalOf(obs: Observation): Signal {
    Signal(obs.socketPath, obs.socketExists, obs.socketDialOK, obs.readySignal,
           obs.signalSource, obs.graceElapsed, obs.observedAt)
  }

  /** A requested transition, with the readiness written just before it. */
  datatype Move = Move(next: LaunchState, reason: Reason, readiness: Readiness)

  /** The transition a poll asks for. */
  function Verdict(e: Execution, i: Inspection, now: int): Option<Move> {
    if !IsPolled(e.state) then None
    else if e.pid.None? then Some(Move(Failed, ErrReconcileProcessMissing, e.readiness))
    else if i.InspectError? then Some(Move(Unknown, ErrReconcileStatusUnreadable, e.readiness))
    else if i.obs.processExists then VerdictAlive(e, i.obs, now)
    else VerdictGone(e)
  }

  function VerdictGone(e: Execution): Option<Move> {
    if e.state.Terminating? then Some(Move(Terminated, NoReason, NotReady))
    else if e.state.Starting? then Some(Move(Failed, ErrExecRuntimeExitedEarly, ReadinessFailed))
    else Some(Move(Exited, ErrExecRuntimeCrashed, e.readiness))
  }

  function VerdictAlive(e: Execution, obs: Observation, now: int): Option<Move> {
    match e.state
    case Starting =>
      if obs.readySignal then Some(Move(Running, NoReason, Ready))
      else if TimedOut(e, now) then Some(Move(Failed, ErrReadyTimeout, ReadinessFailed))
      else None
    case Running =>
      if obs.backendError.Some? then Some(Move(Degraded, ErrReadyProbeFailed, ReadinessDegraded)) else None
    case Degraded =>
      if obs.backendError.None? && obs.readySignal then Some(Move(Running, NoReason, Ready)) else None
    case Unknown =>
      Some(Move(if obs.readySignal then Running else Starting, NoReason, e.readiness))
    case _ => None
  }

  /** The fields a poll that saw something writes before it asks for the transition. */
  function Observe(e: Execution, v: Option<Move>, obs: Observation, now: int): Execution {
    var seen := e.(signal := Some(SignalOf(obs)), liveness := if obs.processExists then Alive else Dead);
    if v.None? then seen
    else seen.(
      readiness := v.value.readiness,
      readyAt := if e.state.Starting? && v.value.next.Running? then Some(now) else e.readyAt,
      terminatedAt := if v.value.next.Terminated? then Some(now) else e.terminatedAt,
      exitCode := if v.value.next.Exited? && obs.exitCode.Some? then obs.exitCode else e.exitCode)
  }

  /** The in-memory record after a poll, whether or not the transition was accepted. */
  function Reconciled(e: Execution, i: Inspection, t: Readings): Execution {
    if !IsPolled(e.state) then e
    else
      var v := Verdict(e, i, t.t0);
      var o := if e.pid.None? || i.InspectError? then e else Observe(e, v, i.obs, t.t0);
      if v.Some? then Transitioned(o, v.value.next, v.value.reason, t.t1) else o.(updatedAt := t.t0)
  }

  predicate Refused(e: Execution, i: Inspection, now: int) {
    var v := Verdict(e, i, now);
    v.Some? && !IsTransitionAllowed(e.state, v.value.next)
  }

  // ---------- The handler around it ----------

  /** LastObservedAt and the socket path do not count as a material change. */
  predicate MaterialSignalChanged(a: Option<Signal>, b: Option<Signal>) {
    match (a, b)
    case (None, None) => false
    case (Some(x), Some(y)) =>
      || x.socketExists != y.socketExists
      || x.socketDialOK != y.socketDialOK
      || x.readySignal != y.readySignal
      || x.signalSource != y.signalSource
      || x.graceElapsed != y.graceElapsed
    case _ => true
  }

  predicate MaterialChange(before: Execution, after: Execution) {
    || before.state != after.state
    || before.liveness != after.liveness
    || before.readiness != after.readiness
    || (after.exitCode.Some? && before.exitCode != after.exitCode)
    || MaterialSignalChanged(before.signal, after.signal)
  }

  /** A poll of a terminal record or a refused poll saves nothing. */
  predicate PollSaves(e: Execution, i: Inspection, now: int) {
    !IsTerminal(e.state) && !Refused(e, i, now)
  }

  /** The stored record after a poll. */
  function Polled(e: Execution, i: Inspection, t: Readings): Execution {
    if PollSaves(e, i, t.t0) then Reconciled(e, i, t) else e
  }

  function PollEvents(e: Execution, i: Inspection, t: Readings): seq<RuntimeEvent> {
    var r := Reconciled(e, i, t);
    if PollSaves(e, i, t.t0) && MaterialChange(e, r) then
      [RuntimeEvent(e.executionId, ReconcileStateChanged, t.t2, NoReason,
                    ReconcilePayload(e.spec.nodeId, e.state, r.state, e.liveness, r.liveness, e.readiness, r.readiness,
                                     r.exitCode, r.signal))]
    else []
  }
}
