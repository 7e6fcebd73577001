/** What every persisted record obeys, and why each durable step keeps it. */
module RecordInvariants {
  import opened Wrappers
  import opened LaunchSchema
  import opened Lifecycle
  import opened Reconciliation
  import opened LaunchSteps
  import opened Recovery

  // ---------- The log: states and trace ----------

  function CountTransitions(trace: seq<TraceStep>): nat {
    if trace == [] then 0
    else CountTransitions(trace[..|trace| - 1]) + if trace[|trace| - 1].stage.StateTransition? then 1 else 0
  }

  /** The trace numbers exactly the accepted transitions of a legal path from Pending. */
  ghost predicate Logged(history: seq<LaunchState>, state: LaunchState, trace: seq<TraceStep>) {
    && LegalPath(history)
    && history[|history| - 1] == state
    && |history| == 1 + CountTransitions(trace)
  }

  ghost predicate Dated(trace: seq<TraceStep>, from: int, clock: int) {
    && from <= clock
    && (forall i | 0 <= i < |trace| :: from <= trace[i].timestamp <= clock)
    && (forall i, j | 0 <= i < j < |trace| :: trace[i].timestamp <= trace[j].timestamp)
  }

  ghost predicate LogInv(e: Execution, clock: int) {
    Logged(e.history, e.state, e.trace) && Dated(e.trace, e.createdAt, clock)
  }

  /** A later save keeps the identity, the whole log and the creation time of an earlier one. */
  ghost predicate Continues(e: Execution, e': Execution) {
    && e'.executionId == e.executionId && e'.spec == e.spec && e'.createdAt == e.createdAt
    && e.trace <= e'.trace
    && e.history <= e'.history
  }

  lemma TracedKeepsLog(e: Execution, stage: Stage, status: Status, reason: Reason, now: int, clock: int)
    requires LogInv(e, clock) && clock <= now && !stage.StateTransition?
    ensures var e' := Traced(e, stage, status, reason, now); LogInv(e', now) && Continues(e, e')
  {
    var step := TraceStep(stage, status, reason, now);
    assert (e.trace + [step])[..|e.trace|] == e.trace;
  }

  lemma TransitionedKeepsLog(e: Execution, next: LaunchState, reason: Reason, now: int, clock: int)
    requires LogInv(e, clock) && clock <= now
    ensures var e' := Transitioned(e, next, reason, now); LogInv(e', now) && Continues(e, e')
  {
    if IsTransitionAllowed(e.state, next) {
      var step := TraceStep(StateTransition, Success, reason, now);
      assert (e.trace + [step])[..|e.trace|] == e.trace;
      Extend(e.history, next);
    }
  }

  // ---------- The facts: process, liveness and times ----------

  /** The process was spawned by the full pipeline, step by step. */
  ghost predicate WentThroughPipeline(history: seq<LaunchState>) {
    && |history| >= 5
    && history[0].Pending? && history[1].Preparing? && history[2].Validated?
    && history[3].Launching? && history[4].Starting?
  }

  predicate IsMidFlight(s: LaunchState) {
    s.Pending? || s.Preparing? || s.Validated? || s.Launching?
  }

  /** How far the pipeline got, read off the history. */
  ghost predicate MidFlightHistory(e: Execution) {
    var h := e.history;
    match e.state
    case Pending => |h| == 1
    case Preparing => |h| == 2 && h[0].Pending?
    case Validated => |h| == 3 && h[0].Pending? && h[1].Preparing? && e.prepared.Some?
    case Launching => |h| == 4 && h[0].Pending? && h[1].Preparing? && h[2].Validated? && e.prepared.Some?
    case _ => true
  }

  ghost predicate ProcessInv(e: Execution) {
    && (e.pid.Some? <==> e.startedAt.Some?)
    && (e.pid.Some? ==> e.prepared.Some? && WentThroughPipeline(e.history))
    && (e.state.Starting? || e.state.Running? || e.state.Degraded? || e.state.Exited? ==> e.pid.Some?)
    && (IsMidFlight(e.state) ==> e.pid.None?)
    && MidFlightHistory(e)
  }

  ghost predicate CoherenceInv(e: Execution) {
    && (e.state.Running? || e.state.Degraded? ==> e.liveness.Alive?)
    && (e.state.Exited? ==> e.liveness.Dead?)
    && (e.terminatedAt.Some? ==> e.state.Terminated?)
    && (e.readyAt.Some? ==> e.startedAt.Some?)
    && (e.state.Starting? ==> e.readyAt.None?)
  }

  /** The readiness of a record that is not over, read off its past: Degraded leaves a mark that
      nothing takes away, and before that a readiness time means Ready. */
  ghost function ReadinessFrom(history: seq<LaunchState>, readyAt: Option<int>): Readiness {
    if Degraded in history then ReadinessDegraded else if readyAt.Some? then Ready else NotStarted
  }

  ghost predicate ReadinessInv(e: Execution) {
    && (!IsTerminal(e.state) ==> !e.liveness.Dead? && e.readiness == ReadinessFrom(e.history, e.readyAt))
    && (e.state.Terminated? ==> (e.terminatedAt.Some? <==> e.liveness.Dead?))
    && (e.state.Starting? ==> |e.history| == 5)
    && (e.state.Degraded? ==> Degraded in e.history)
  }

  predicate NoLater(a: Option<int>, b: Option<int>) {
    a.Some? && b.Some? ==> a.value <= b.value
  }

  ghost predicate TimesInv(e: Execution, clock: int) {
    && NoLater(Some(e.createdAt), e.startedAt) && NoLater(Some(e.createdAt), e.terminatedAt)
    && NoLater(e.startedAt, e.readyAt) && NoLater(e.startedAt, e.terminatedAt)
    && NoLater(e.readyAt, e.terminatedAt)
    && NoLater(e.startedAt, Some(clock)) && NoLater(e.readyAt, Some(clock)) && NoLater(e.terminatedAt, Some(clock))
  }

  ghost predicate RecordInv(e: Execution, clock: int) {
    && 0 <= e.createdAt
    && LogInv(e, clock)
    && ProcessInv(e)
    && CoherenceInv(e)
    && ReadinessInv(e)
    && TimesInv(e, clock)
  }

  lemma Later(e: Execution, clock: int, clock': int)
    requires RecordInv(e, clock) && clock <= clock'
    ensures RecordInv(e, clock')
  {
  }

  // ---------- Each durable step ----------

  /** A record of which only the state and the log change keeps its facts, if it goes to a state
      that asks for none. */
  lemma MovedFacts(e: Execution, e': Execution, now: int, clock: int)
    requires ProcessInv(e) && CoherenceInv(e) && ReadinessInv(e) && TimesInv(e, clock)
    requires !IsTerminal(e.state) && clock <= now
    requires e'.state.Failed? || e'.state.Terminating? || e'.state.Unknown? || e'.state.Terminated?
    requires e'.history == e.history + [e'.state]
    requires e' == e.(state := e'.state, history := e'.history, trace := e'.trace)
    ensures ProcessInv(e') && CoherenceInv(e') && ReadinessInv(e') && TimesInv(e', now)
  {
  }

  lemma CreatedInv(id: string, spec: LaunchSpec, t: Readings, clock: int)
    requires 0 <= clock && t.NotBefore(clock)
    ensures var e := Created(id, spec, t); RecordInv(e, t.t3) && e.state.Pending? && e.executionId == id
  {
    var e := Created(id, spec, t);
    assert e.trace[..0] == [];
  }

  lemma ValidationInv(e: Execution, v: ValidationOutcome, t: Readings, clock: int)
    requires RecordInv(e, clock) && e.state.Pending? && t.NotBefore(clock)
    ensures var e' := AfterValidation(e, v, t);
            && RecordInv(e', t.t3) && Continues(e, e')
            && (if v.Valid? then e'.state.Preparing? else e'.state.Failed?)
  {
    PreparingInv(e, t.t0, clock);
    var p := Transitioned(e, Preparing, NoReason, t.t0);
    if !v.Valid? {
      FailedInv(p, if v.NodeMissing? then ErrNodeNotFound else ErrValidationFailed, t.t1, t.t0);
    }
    Later(AfterValidation(e, v, t), if v.Valid? then t.t0 else t.t1, t.t3);
  }

  lemma PreparingInv(e: Execution, now: int, clock: int)
    requires RecordInv(e, clock) && e.state.Pending? && clock <= now
    ensures var e' := Transitioned(e, Preparing, NoReason, now);
            RecordInv(e', now) && Continues(e, e') && e'.state.Preparing?
  {
    TransitionedKeepsLog(e, Preparing, NoReason, now, clock);
  }

  /** A stage of the pipeline that fails. */
  lemma FailedInv(e: Execution, reason: Reason, now: int, clock: int)
    requires RecordInv(e, clock) && IsMidFlight(e.state) && !e.state.Pending? && clock <= now
    ensures var e' := Transitioned(e, Failed, reason, now);
            RecordInv(e', now) && Continues(e, e') && e'.state.Failed?
  {
    TransitionedKeepsLog(e, Failed, reason, now, clock);
    MovedFacts(e, Transitioned(e, Failed, reason, now), now, clock);
  }

  lemma PreparationInv(e: Execution, p: PrepareOutcome, t: Readings, clock: int)
    requires RecordInv(e, clock) && e.state.Preparing? && t.NotBefore(clock)
    ensures var e' := AfterPreparation(e, p, t);
            && RecordInv(e', t.t3) && Continues(e, e')
            && (if p.PrepareOk? then e'.state.Validated? else e'.state.Failed?)
  {
    TracedKeepsInv(e, ArtifactResolution, InProgress, t.t0, clock);
    var a := Traced(e, ArtifactResolution, InProgress, NoReason, t.t0);
    if p.PrepareOk? {
      PreparedInv(a, p.prep, t, t.t0);
    } else {
      FailedInv(a, ErrPreparationFailed, t.t1, t.t0);
      Later(AfterPreparation(e, p, t), t.t1, t.t3);
    }
  }

  lemma TracedKeepsInv(e: Execution, stage: Stage, status: Status, now: int, clock: int)
    requires RecordInv(e, clock) && clock <= now && !stage.StateTransition?
    ensures var e' := Traced(e, stage, status, NoReason, now);
            RecordInv(e', now) && Continues(e, e') && e'.state == e.state
  {
    TracedKeepsLog(e, stage, status, NoReason, now, clock);
  }

  lemma PreparedInv(e: Execution, prep: PreparedLaunch, t: Readings, clock: int)
    requires RecordInv(e, clock) && e.state.Preparing? && t.NotBefore(clock)
    ensures var b := Traced(e.(prepared := Some(prep)), ArtifactResolution, Success, NoReason, t.t1);
            var e' := Transitioned(b, Validated, NoReason, t.t2);
            RecordInv(e', t.t3) && Continues(e, e') && e'.state.Validated?
  {
    var b := e.(prepared := Some(prep));
    TracedKeepsLog(b, ArtifactResolution, Success, NoReason, t.t1, clock);
    TransitionedKeepsLog(Traced(b, ArtifactResolution, Success, NoReason, t.t1), Validated, NoReason, t.t2, t.t1);
  }

  lemma LaunchingInv(e: Execution, t: Readings, clock: int)
    requires RecordInv(e, clock) && e.state.Validated? && t.NotBefore(clock)
    ensures var e' := MarkedLaunching(e, t);
            RecordInv(e', t.t3) && Continues(e, e') && e'.state.Launching?
  {
    TransitionedKeepsLog(e, Launching, NoReason, t.t0, clock);
  }

  lemma SpawnInv(e: Execution, s: SpawnOutcome, t: Readings, clock: int)
    requires RecordInv(e, clock) && e.state.Launching? && t.NotBefore(clock)
    ensures var e' := AfterSpawn(e, s, t);
            && RecordInv(e', t.t3) && Continues(e, e')
            && (if !e.spec.launchMode.Execute? then e'.state.Terminated?
                else if s.SpawnError? then e'.state.Failed?
                else e'.state.Starting? && e'.pid == Some(s.pid))
  {
    if !e.spec.launchMode.Execute? {
      DryRunInv(e, t, clock);
    } else if s.SpawnError? {
      FailedInv(e, ErrExecRuntimeSpawnFailed, t.t0, clock);
      Later(AfterSpawn(e, s, t), t.t0, t.t3);
    } else {
      SpawnedInv(e, s.pid, t, clock);
    }
  }

  lemma DryRunInv(e: Execution, t: Readings, clock: int)
    requires RecordInv(e, clock) && e.state.Launching? && t.NotBefore(clock)
    ensures var e' := Transitioned(Transitioned(e, Terminating, NoReason, t.t0), Terminated, NoReason, t.t1);
            RecordInv(e', t.t3) && Continues(e, e') && e'.state.Terminated?
  {
    TransitionedKeepsLog(e, Terminating, NoReason, t.t0, clock);
    TransitionedKeepsLog(Transitioned(e, Terminating, NoReason, t.t0), Terminated, NoReason, t.t1, t.t0);
  }

  lemma SpawnedInv(e: Execution, pid: int, t: Readings, clock: int)
    requires RecordInv(e, clock) && e.state.Launching? && t.NotBefore(clock)
    ensures var e' := Transitioned(e.(pid := Some(pid), startedAt := Some(t.t0)), Starting, NoReason, t.t1);
            RecordInv(e', t.t3) && Continues(e, e') && e'.state.Starting?
  {
    TransitionedKeepsLog(e.(pid := Some(pid), startedAt := Some(t.t0)), Starting, NoReason, t.t1, clock);
  }

  lemma RequestInv(e: Execution, t: Readings, clock: int)
    requires RecordInv(e, clock) && !IsTerminal(e.state) && t.NotBefore(clock)
    ensures var e' := LaunchSteps.TerminationRequested(e, t);
            && RecordInv(e', t.t3) && Continues(e, e')
            && (if e.state.Pending? then e' == e else e'.state.Terminating?)
  {
    TransitionedKeepsLog(e, Terminating, NoReason, t.t0, clock);
    Later(e, clock, t.t3);
    if IsTransitionAllowed(e.state, Terminating) {
      MovedFacts(e, LaunchSteps.TerminationRequested(e, t), t.t0, clock);
    }
  }

  /** The kill step starts in Terminating, or in Pending when the request was refused. */
  lemma KillInv(e: Execution, k: KillOutcome, t: Readings, clock: int)
    requires RecordInv(e, clock) && (e.state.Terminating? || e.state.Pending?) && t.NotBefore(clock)
    ensures var e' := AfterKill(e, k, t);
            && RecordInv(e', t.t3) && Continues(e, e')
            && (if NeedsKill(e) && k.KillFailed? then e'.state.Terminating? && e'.pid == e.pid
                else e'.state.Terminated? && e'.terminatedAt == Some(t.t0))
  {
    if NeedsKill(e) && k.KillFailed? {
      TracedKeepsLog(e, Termination, Failure, ErrTermSignalFailed, t.t0, clock);
    } else {
      KilledInv(e, t, clock);
    }
  }

  lemma KilledInv(e: Execution, t: Readings, clock: int)
    requires RecordInv(e, clock) && (e.state.Terminating? || e.state.Pending?) && t.NotBefore(clock)
    ensures var d := e.(terminatedAt := Some(t.t0), liveness := Dead, readiness := NotReady);
            var e' := Transitioned(d, Terminated, NoReason, t.t1);
            RecordInv(e', t.t3) && Continues(e, e') && e'.state.Terminated? && e'.terminatedAt == Some(t.t0)
  {
    var d := e.(terminatedAt := Some(t.t0), liveness := Dead, readiness := NotReady);
    TransitionedKeepsLog(d, Terminated, NoReason, t.t1, clock);
    KilledFacts(e, Transitioned(d, Terminated, NoReason, t.t1), t.t0, t.t3, clock);
  }

  lemma KilledFacts(e: Execution, e': Execution, now: int, clock': int, clock: int)
    requires ProcessInv(e) && CoherenceInv(e) && ReadinessInv(e) && TimesInv(e, clock)
    requires (e.state.Terminating? || e.state.Pending?) && clock <= now <= clock' && e.createdAt <= clock
    requires e'.state.Terminated? && e'.history == e.history + [Terminated]
    requires e' == e.(state := e'.state, history := e'.history, trace := e'.trace,
                      terminatedAt := Some(now), liveness := Dead, readiness := NotReady)
    ensures ProcessInv(e') && CoherenceInv(e') && ReadinessInv(e') && TimesInv(e', clock')
  {
  }

  lemma PollInv(e: Execution, i: Inspection, t: Readings, clock: int)
    requires RecordInv(e, clock) && t.NotBefore(clock)
    ensures var e' := Polled(e, i, t);
            && RecordInv(e', t.t3) && Continues(e, e')
            && e'.pid == e.pid
            && (IsMidFlight(e'.state) ==> IsMidFlight(e.state))
  {
    Later(e, clock, t.t3);
    if PollSaves(e, i, t.t0) && IsPolled(e.state) {
      if e.pid.None? || i.InspectError? {
        BlindPollInv(e, i, t, clock);
      } else {
        SeeingPollInv(e, i.obs, t, clock);
      }
    }
  }

  /** A poll without a process to ask, or without an answer. */
  lemma BlindPollInv(e: Execution, i: Inspection, t: Readings, clock: int)
    requires RecordInv(e, clock) && t.NotBefore(clock) && IsPolled(e.state)
    requires (e.pid.None? || i.InspectError?) && !Refused(e, i, t.t0)
    ensures var e' := Reconciled(e, i, t);
            RecordInv(e', t.t3) && Continues(e, e') && e'.pid == e.pid && !IsMidFlight(e'.state)
  {
    PollKeepsLog(e, i, t, clock);
  }

  lemma SeeingPollInv(e: Execution, obs: Observation, t: Readings, clock: int)
    requires RecordInv(e, clock) && t.NotBefore(clock) && IsPolled(e.state)
    requires e.pid.Some? && !Refused(e, Observed(obs), t.t0)
    ensures var e' := Reconciled(e, Observed(obs), t);
            RecordInv(e', t.t3) && Continues(e, e') && e'.pid == e.pid && !IsMidFlight(e'.state)
  {
    PollKeepsLog(e, Observed(obs), t, clock);
    if obs.processExists {
      AliveKeepsFacts(e, obs, t, clock);
    } else {
      GoneKeepsFacts(e, obs, t, clock);
    }
  }

  lemma PollKeepsLog(e: Execution, i: Inspection, t: Readings, clock: int)
    requires LogInv(e, clock) && IsPolled(e.state) && t.NotBefore(clock)
    ensures var e' := Reconciled(e, i, t); LogInv(e', t.t3) && Continues(e, e')
  {
    var v := Verdict(e, i, t.t0);
    var o := if e.pid.None? || i.InspectError? then e else Observe(e, v, i.obs, t.t0);
    if v.Some? {
      TransitionedKeepsLog(o, v.value.next, v.value.reason, t.t1, clock);
    }
  }

  /** What a poll that found the process never touches, and what it may set. */
  ghost predicate AliveFrame(e: Execution, e': Execution, now: int) {
    && e'.createdAt == e.createdAt && e'.startedAt == e.startedAt && e'.terminatedAt == e.terminatedAt
    && e'.pid == e.pid && e'.prepared == e.prepared
    && (if e'.state == e.state then e'.history == e.history else e'.history == e.history + [e'.state])
    && e'.liveness.Alive?
    && (e'.state.Failed? || IsPolled(e'.state))
    && (e'.state.Starting? ==> e.state.Starting?)
    && (e'.state.Degraded? ==> e.state.Running? || e.state.Degraded?)
    && (e.state.Degraded? ==> e'.state.Degraded?)
    && (if e.state.Starting? && e'.state.Running? then e'.readyAt == Some(now) && e'.readiness.Ready?
        else e'.readyAt == e.readyAt
             && (e'.state.Failed?
                 || e'.readiness == if e.state.Running? && e'.state.Degraded? then ReadinessDegraded else e.readiness))
  }

  lemma AlivePollFrame(e: Execution, obs: Observation, t: Readings)
    requires IsPolled(e.state) && e.pid.Some? && obs.processExists && !Refused(e, Observed(obs), t.t0)
    ensures AliveFrame(e, Reconciled(e, Observed(obs), t), t.t0)
  {
  }

  lemma AliveFrameKeepsFacts(e: Execution, e': Execution, now: int, clock: int)
    requires ProcessInv(e) && CoherenceInv(e) && TimesInv(e, clock)
    requires IsPolled(e.state) && e.pid.Some? && AliveFrame(e, e', now) && clock <= now
    ensures ProcessInv(e') && CoherenceInv(e') && TimesInv(e', now) && !IsMidFlight(e'.state)
  {
  }

  lemma AliveFrameKeepsReadiness(e: Execution, e': Execution, now: int)
    requires ProcessInv(e) && CoherenceInv(e) && ReadinessInv(e)
    requires IsPolled(e.state) && e.pid.Some? && AliveFrame(e, e', now)
    requires e.history != [] && e.history[|e.history| - 1] == e.state
    ensures ReadinessInv(e')
  {
  }

  lemma AliveKeepsFacts(e: Execution, obs: Observation, t: Readings, clock: int)
    requires RecordInv(e, clock) && IsPolled(e.state) && e.pid.Some? && t.NotBefore(clock)
    requires obs.processExists && !Refused(e, Observed(obs), t.t0)
    ensures var e' := Reconciled(e, Observed(obs), t);
            && ProcessInv(e') && CoherenceInv(e') && ReadinessInv(e') && TimesInv(e', t.t3)
            && e'.pid == e.pid && !IsMidFlight(e'.state)
  {
    AlivePollFrame(e, obs, t);
    AliveFrameKeepsFacts(e, Reconciled(e, Observed(obs), t), t.t0, clock);
    AliveFrameKeepsReadiness(e, Reconciled(e, Observed(obs), t), t.t0);
  }

  lemma GoneKeepsFacts(e: Execution, obs: Observation, t: Readings, clock: int)
    requires RecordInv(e, clock) && IsPolled(e.state) && e.pid.Some? && t.NotBefore(clock)
    requires !obs.processExists && !Refused(e, Observed(obs), t.t0)
    ensures var e' := Reconciled(e, Observed(obs), t);
            && ProcessInv(e') && CoherenceInv(e') && ReadinessInv(e') && TimesInv(e', t.t3)
            && e'.pid == e.pid && !IsMidFlight(e'.state)
  {
  }

  lemma RecoveryInv(e: Execution, i: Inspection, epoch: string, t: Readings, clock: int)
    requires RecordInv(e, clock) && !IsTerminal(e.state) && t.NotBefore(clock)
    ensures var e' := Recovered(e, i, epoch, t);
            RecordInv(e', t.t3) && Continues(e, e') && e'.pid == e.pid
  {
    var a := e.(recoveryEpoch := epoch, lastObservedAt := Some(t.t0));
    var target := RecoveryTarget(e, i);
    if target.Some? {
      LostInv(a, target.value, RecoveryReason(e, i), t.t1, clock);
      Later(Recovered(e, i, epoch, t), t.t1, t.t3);
    } else {
      ConfirmedInv(a, t.t1, clock);
      Later(Recovered(e, i, epoch, t), t.t1, t.t3);
    }
  }

  /** A restart that did not find the process. */
  lemma LostInv(e: Execution, next: LaunchState, reason: Reason, now: int, clock: int)
    requires RecordInv(e, clock) && !IsTerminal(e.state) && clock <= now
    requires next.Unknown? || (next.Terminated? && e.state.Terminating?)
    ensures var e' := Transitioned(e, next, reason, now);
            RecordInv(e', now) && Continues(e, e') && e'.pid == e.pid
  {
    TransitionedKeepsLog(e, next, reason, now, clock);
    MovedFacts(e, Transitioned(e, next, reason, now), now, clock);
  }

  /** A restart that found the process alive. */
  lemma ConfirmedInv(e: Execution, now: int, clock: int)
    requires RecordInv(e, clock) && !IsTerminal(e.state) && clock <= now
    ensures var e' := Traced(e.(liveness := Alive), RecoveryBootstrap, Success, RecoveryConfirmed, now);
            RecordInv(e', now) && Continues(e, e') && e'.pid == e.pid
  {
    TracedKeepsLog(e.(liveness := Alive), RecoveryBootstrap, Success, RecoveryConfirmed, now, clock);
  }
}
