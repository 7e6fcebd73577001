/** What a poll of a stored record stores and reports, case by case, in terms of the record and
    the answer alone. */
module PollOutcomes {
  import opened Wrappers
  import opened LaunchSchema
  import opened Lifecycle
  import opened Reconciliation
  import opened RecordInvariants
  import opened PollProperties
  import opened Runs

  /** The record is stored, nothing is in progress for it, and it is not over. */
  ghost predicate Open(w: World, id: string) {
    && Reachable(w) && Idle(w, id)
    && !w.table[id].state.Exited? && !w.table[id].state.Failed? && !w.table[id].state.Terminated?
  }

  lemma OpenFacts(w: World, id: string)
    requires Open(w, id)
    ensures RecordInv(w.table[id], w.clock) && (w.table[id].pid.None? ==> w.table[id].state.Unknown?)
  {
    ReachableInv(w);
    assert RowOk(w, id);
  }

  /** A record that is over is neither written nor reported again. */
  lemma OverIsOver(e: Execution, i: Inspection, t: Readings)
    requires e.state.Exited? || e.state.Failed? || e.state.Terminated?
    ensures Polled(e, i, t) == e && PollEvents(e, i, t) == []
  {
  }

  /** Without a PID the record fails; without an answer it becomes Unknown. */
  lemma BlindPoll(w: World, id: string, i: Inspection, t: Readings)
    requires Open(w, id) && (w.table[id].pid.None? || i.InspectError?)
    ensures var e, e' := w.table[id], Polled(w.table[id], i, t);
            var next := if e.pid.None? then Failed else Unknown;
            var reason := if e.pid.None? then ErrReconcileProcessMissing else ErrReconcileStatusUnreadable;
            e' == e.(state := next, history := e.history + [next],
                     trace := e.trace + [TraceStep(StateTransition, Success, reason, t.t1)])
  {
    OpenFacts(w, id);
  }

  /** The process is gone: a start has failed, a requested termination is complete, a Degraded
      record is left as it is, and anything else has exited, with its code if there is one. */
  lemma GonePoll(w: World, id: string, obs: Observation, t: Readings)
    requires Open(w, id) && w.table[id].pid.Some? && !obs.processExists
    ensures var e, e' := w.table[id], Polled(w.table[id], Observed(obs), t);
            match e.state
            case Degraded => e' == e
            case Starting =>
              e'.state.Failed? && e'.readiness.ReadinessFailed? && LastReason(e', e, ErrExecRuntimeExitedEarly, t)
            case Terminating =>
              && e'.state.Terminated? && e'.readiness.NotReady? && e'.terminatedAt == Some(t.t0)
              && LastReason(e', e, NoReason, t)
            case _ =>
              && e'.state.Exited? && e'.readiness == e.readiness
              && e'.exitCode == (if obs.exitCode.Some? then obs.exitCode else e.exitCode)
              && LastReason(e', e, ErrExecRuntimeCrashed, t)
    ensures var e, e' := w.table[id], Polled(w.table[id], Observed(obs), t);
            !e.state.Degraded? ==> e'.liveness.Dead? && SeenAs(e', obs) && e'.readyAt == e.readyAt && SameLaunch(e', e)
  {
    OpenFacts(w, id);
  }

  /** The state after a poll that finds the process alive: a start waits fifteen seconds to
      become ready, a backend error degrades, and what is Degraded or Terminating stays so. */
  lemma AlivePollState(w: World, id: string, obs: Observation, t: Readings)
    requires Open(w, id) && w.table[id].pid.Some? && obs.processExists
    ensures w.table[id].startedAt.Some?
    ensures var e, e' := w.table[id], Polled(w.table[id], Observed(obs), t);
            match e.state
            case Starting =>
              && (e'.state.Running? <==> obs.readySignal)
              && (e'.state.Failed? <==> !obs.readySignal && t.t0 - e.startedAt.value > 15)
              && (e'.state.Starting? <==> !obs.readySignal && t.t0 - e.startedAt.value <= 15)
            case Running => e'.state == if obs.backendError.Some? then Degraded else Running
            case Unknown => e'.state == if obs.readySignal then Running else Unknown
            case s => e'.state == s
  {
    OpenFacts(w, id);
  }

  /** And what else it writes: nothing where the table refuses, otherwise what was seen, and the
      readiness and its time where the state says so. */
  lemma AlivePollWrites(w: World, id: string, obs: Observation, t: Readings)
    requires Open(w, id) && w.table[id].pid.Some? && obs.processExists
    ensures var e, e' := w.table[id], Polled(w.table[id], Observed(obs), t);
            if (e.state.Degraded? && obs.backendError.None? && obs.readySignal)
               || (e.state.Unknown? && !obs.readySignal) then
              e' == e
            else
              e'.liveness.Alive? && SeenAs(e', obs) && SameLaunch(e', e) && Readied(e', e, obs, t)
  {
    OpenFacts(w, id);
    if w.table[id].state.Starting? {
      StartingPollWrites(w.table[id], obs, t);
    } else {
      LaterPollWrites(w.table[id], obs, t);
    }
  }

  ghost predicate Readied(e': Execution, e: Execution, obs: Observation, t: Readings) {
    && e'.terminatedAt == e.terminatedAt && e'.exitCode == e.exitCode
    && e'.readyAt == (if e.state.Starting? && obs.readySignal then Some(t.t0) else e.readyAt)
    && e'.readiness == (if e.state.Starting? && obs.readySignal then Ready
                        else if e'.state.Failed? then ReadinessFailed
                        else if e.state.Running? && obs.backendError.Some? then ReadinessDegraded
                        else e.readiness)
  }

  lemma StartingPollWrites(e: Execution, obs: Observation, t: Readings)
    requires e.state.Starting? && e.pid.Some? && obs.processExists
    ensures var e' := Polled(e, Observed(obs), t);
            e'.liveness.Alive? && SeenAs(e', obs) && SameLaunch(e', e) && Readied(e', e, obs, t)
  {
  }

  lemma LaterPollWrites(e: Execution, obs: Observation, t: Readings)
    requires e.pid.Some? && obs.processExists
    requires e.state.Running? || e.state.Degraded? || e.state.Terminating? || e.state.Unknown?
    ensures var e' := Polled(e, Observed(obs), t);
            if (e.state.Degraded? && obs.backendError.None? && obs.readySignal)
               || (e.state.Unknown? && !obs.readySignal) then
              e' == e
            else
              e'.liveness.Alive? && SeenAs(e', obs) && SameLaunch(e', e) && Readied(e', e, obs, t)
  {
  }

  lemma AlivePollTrace(w: World, id: string, obs: Observation, t: Readings)
    requires Open(w, id) && w.table[id].pid.Some? && obs.processExists
    ensures var e, e' := w.table[id], Polled(w.table[id], Observed(obs), t);
            if e'.state == e.state then
              e'.trace == e.trace && e'.history == e.history && (e' == e || e'.updatedAt == t.t0)
            else
              e'.updatedAt == e.updatedAt
              && LastReason(e', e, if e'.state.Failed? then ErrReadyTimeout
                                else if e'.state.Degraded? then ErrReadyProbeFailed else NoReason, t)
  {
    OpenFacts(w, id);
  }

  /** One transition, with this reason. */
  ghost predicate LastReason(e': Execution, e: Execution, reason: Reason, t: Readings) {
    && e'.trace == e.trace + [TraceStep(StateTransition, Success, reason, t.t1)]
    && e'.history == e.history + [e'.state]
  }

  ghost predicate SeenAs(e': Execution, obs: Observation) {
    e'.signal == Some(Signal(obs.socketPath, obs.socketExists, obs.socketDialOK, obs.readySignal,
                             obs.signalSource, obs.graceElapsed, obs.observedAt))
  }

  ghost predicate SameLaunch(e': Execution, e: Execution) {
    && e'.executionId == e.executionId && e'.spec == e.spec && e'.prepared == e.prepared
    && e'.createdAt == e.createdAt && e'.startedAt == e.startedAt && e'.pid == e.pid
  }

  // ---------- What is reported ----------

  /** A signal without the path of its socket and the time it was taken. */
  function Gist(s: Option<Signal>): Option<Signal> {
    if s.Some? then Some(s.value.(socketPath := "", lastObservedAt := 0)) else None
  }

  /** A poll reports a change exactly when it stores one that someone would notice: in state,
      liveness, readiness, exit code, or in the gist of the signal. */
  lemma PollReportsIff(w: World, id: string, i: Inspection, t: Readings)
    requires Open(w, id)
    ensures var e, e' := w.table[id], Polled(w.table[id], i, t);
            var noticed := e'.state != e.state || e'.liveness != e.liveness || e'.readiness != e.readiness
                           || e'.exitCode != e.exitCode || Gist(e'.signal) != Gist(e.signal);
            PollEvents(e, i, t)
            == if noticed then
                 [RuntimeEvent(id, ReconcileStateChanged, t.t2, NoReason,
                               ReconcilePayload(e.spec.nodeId, e.state, e'.state, e.liveness, e'.liveness,
                                                e.readiness, e'.readiness, e'.exitCode, e'.signal))]
               else []
  {
    OpenFacts(w, id);
    ReachableInv(w);
    assert RowOk(w, id);
    ReportsWhatChanged(w.table[id], i, t);
  }

  lemma ReportsWhatChanged(e: Execution, i: Inspection, t: Readings)
    ensures var e' := Polled(e, i, t);
            (PollEvents(e, i, t) != [] <==>
              e'.state != e.state || e'.liveness != e.liveness || e'.readiness != e.readiness
              || e'.exitCode != e.exitCode || Gist(e'.signal) != Gist(e.signal))
  {
    GistOrMaterial(e.signal, Reconciled(e, i, t).signal);
    ExitCodeStays(e, i, t);
  }

  lemma GistOrMaterial(a: Option<Signal>, b: Option<Signal>)
    ensures MaterialSignalChanged(a, b) <==> Gist(a) != Gist(b)
  {
  }

  /** An exit code is never taken back. */
  lemma ExitCodeStays(e: Execution, i: Inspection, t: Readings)
    ensures e.exitCode.Some? ==> Reconciled(e, i, t).exitCode.Some?
  {
  }
}
