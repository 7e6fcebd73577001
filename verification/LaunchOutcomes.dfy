/** What a launch and a termination store and report, outcome by outcome. */
module LaunchOutcomes {
  import opened Wrappers
  import opened LaunchSchema
  import opened Lifecycle
  import opened LaunchSteps
  import opened RecordInvariants
  import opened Runs

  /** The states of the saved records, oldest first. */
  function States(saves: seq<Execution>): seq<LaunchState> {
    seq(|saves|, k requires 0 <= k < |saves| => saves[k].state)
  }

  function Kinds(events: seq<RuntimeEvent>): seq<EventType> {
    seq(|events|, k requires 0 <= k < |events| => events[k].eventType)
  }

  function Reasons(events: seq<RuntimeEvent>): seq<Reason> {
    seq(|events|, k requires 0 <= k < |events| => events[k].reason)
  }

  /** Each event tells the id, the backend so far and the state of the record saved with it. */
  ghost predicate EventTells(ev: RuntimeEvent, e: Execution) {
    && ev.executionId == e.executionId
    && ev.payload == LifecyclePayload(e.spec.workloadId, e.spec.nodeId,
                                      match e.prepared case Some(p) => p.runtimeBackend case None => "", e.state)
  }

  /** The new record: nothing is known about it but its spec and its creation. */
  lemma NewRecord(id: string, spec: LaunchSpec, t: Readings)
    ensures var e := Created(id, spec, t);
            && e.executionId == id && e.spec == spec && e.state == Pending
            && e.liveness == LivenessUnknown && e.readiness == NotStarted
            && e.createdAt == t.t0 && e.updatedAt == t.t0
            && e.prepared.None? && e.pid.None? && e.startedAt.None? && e.readyAt.None? && e.terminatedAt.None?
            && e.exitCode.None? && e.signal.None? && e.lastObservedAt.None? && e.recoveryEpoch == ""
            && e.trace == [TraceStep(Init, Success, NoReason, t.t1)]
  {
  }

  // ---------- Launches ----------

  /** The course of a launch: the states it stores, the events it emits and their reasons. */
  ghost predicate Course(id: string, spec: LaunchSpec, w: LaunchWorld,
                         states: seq<LaunchState>, kinds: seq<EventType>, reasons: seq<Reason>)
  {
    && States(LaunchSaves(id, spec, w)) == states
    && Kinds(LaunchEvents(id, spec, w)) == kinds && Reasons(LaunchEvents(id, spec, w)) == reasons
  }

  /** A launch that validation refuses. */
  lemma RefusedLaunch(id: string, spec: LaunchSpec, w: LaunchWorld)
    requires w.validation != Valid
    ensures Course(id, spec, w, [Pending, Failed], [ExecutionCreated, ValidationFailed],
                   [NoReason, if w.validation == NodeMissing then ErrNodeNotFound else ErrValidationFailed])
  {
    var e := Created(id, spec, w.t0);
    var v := AfterValidation(e, w.validation, w.t1);
    var ev := ValidationEvent(v, w.validation, w.t1);
    CourseCons(e, [v], LifecycleEvent(e, ExecutionCreated, NoReason, w.t0.t2), [ev]);
    CourseOne(v, ev);
    assert [Pending] + [Failed] == [Pending, Failed];
    assert [ExecutionCreated] + [ValidationFailed] == [ExecutionCreated, ValidationFailed];
    assert [NoReason] + [ev.reason] == [NoReason, ev.reason];
  }

  /** A launch that cannot be prepared. */
  lemma UnpreparedLaunch(id: string, spec: LaunchSpec, w: LaunchWorld)
    requires w.validation == Valid && (w.prepare == NoExecutor || w.prepare == PrepareError)
    ensures Course(id, spec, w, [Pending, Preparing, Failed], [ExecutionCreated, ValidationPassed, PreparationFailed],
                   [NoReason, NoReason, ErrPreparationFailed])
  {
    ValidCourse(id, spec, w);
    Flat3(Pending, Preparing, Failed);
    Flat3(ExecutionCreated, ValidationPassed, PreparationFailed);
    Flat3(NoReason, NoReason, ErrPreparationFailed);
  }

  /** A launch that gets as far as the spawn: a dry run ends there, a spawn fails or starts. */
  lemma PreparedLaunchCourse(id: string, spec: LaunchSpec, w: LaunchWorld)
    requires w.validation == Valid && w.prepare.PrepareOk?
    ensures var dry, failed := spec.launchMode != Execute, w.spawn == SpawnError;
            Course(id, spec, w,
                   [Pending, Preparing, Validated, Launching,
                    if dry then Terminated else if failed then Failed else Starting],
                   [ExecutionCreated, ValidationPassed, PreparationPassed,
                    if dry then DryRunCompleted else if failed then RuntimeSpawnFailed else RuntimeSpawned],
                   [NoReason, NoReason, NoReason, if !dry && failed then ErrExecRuntimeSpawnFailed else NoReason])
  {
    ValidCourse(id, spec, w);
    Flat5(Pending, Preparing, Validated, Launching, SpawnState(spec, w.spawn));
    Flat4(ExecutionCreated, ValidationPassed, PreparationPassed, SpawnKind(spec, w.spawn));
    Flat4(NoReason, NoReason, NoReason, SpawnReason(spec, w.spawn));
  }

  lemma ValidCourse(id: string, spec: LaunchSpec, w: LaunchWorld)
    requires w.validation == Valid
    ensures States(LaunchSaves(id, spec, w)) == [Pending] + ([Preparing] + TailStates(spec, w))
    ensures Kinds(LaunchEvents(id, spec, w)) == [ExecutionCreated] + ([ValidationPassed] + TailKinds(spec, w))
    ensures Reasons(LaunchEvents(id, spec, w)) == [NoReason] + ([NoReason] + TailReasons(spec, w))
  {
    var e := Created(id, spec, w.t0);
    var v := AfterValidation(e, Valid, w.t1);
    CourseCons(e, SavesFromValidation(e, w), LifecycleEvent(e, ExecutionCreated, NoReason, w.t0.t2),
               EventsFromValidation(e, w));
    PreparationCourse(v, w);
    CourseCons(v, SavesFromPreparation(v, w), ValidationEvent(v, Valid, w.t1), EventsFromPreparation(v, w));
  }

  ghost function TailStates(spec: LaunchSpec, w: LaunchWorld): seq<LaunchState> {
    if w.prepare.PrepareOk? then [Validated, Launching, SpawnState(spec, w.spawn)] else [Failed]
  }

  ghost function TailKinds(spec: LaunchSpec, w: LaunchWorld): seq<EventType> {
    if w.prepare.PrepareOk? then [PreparationPassed, SpawnKind(spec, w.spawn)] else [PreparationFailed]
  }

  ghost function TailReasons(spec: LaunchSpec, w: LaunchWorld): seq<Reason> {
    if w.prepare.PrepareOk? then [NoReason, SpawnReason(spec, w.spawn)] else [ErrPreparationFailed]
  }

  lemma Flat3<T>(a: T, b: T, c: T)
    ensures [a] + ([b] + [c]) == [a, b, c]
  {
  }

  lemma Flat4<T>(a: T, b: T, c: T, d: T)
    ensures [a] + ([b] + [c, d]) == [a, b, c, d]
  {
  }

  lemma Flat5<T>(a: T, b: T, c: T, d: T, x: T)
    ensures [a] + ([b] + [c, d, x]) == [a, b, c, d, x]
  {
  }

  lemma CourseCons(e: Execution, saves: seq<Execution>, ev: RuntimeEvent, events: seq<RuntimeEvent>)
    ensures States([e] + saves) == [e.state] + States(saves)
    ensures Kinds([ev] + events) == [ev.eventType] + Kinds(events)
    ensures Reasons([ev] + events) == [ev.reason] + Reasons(events)
  {
  }

  lemma CourseOne(e: Execution, ev: RuntimeEvent)
    ensures States([e]) == [e.state] && Kinds([ev]) == [ev.eventType] && Reasons([ev]) == [ev.reason]
  {
  }

  lemma PreparationCourse(e: Execution, w: LaunchWorld)
    requires e.state.Preparing?
    ensures States(SavesFromPreparation(e, w)) == TailStates(e.spec, w)
    ensures Kinds(EventsFromPreparation(e, w)) == TailKinds(e.spec, w)
    ensures Reasons(EventsFromPreparation(e, w)) == TailReasons(e.spec, w)
  {
    var p := AfterPreparation(e, w.prepare, w.t2);
    var ev := PreparationEvent(p, w.prepare, w.t2);
    if w.prepare.PrepareOk? {
      assert p.state.Validated? && p.spec == e.spec;
      var l := MarkedLaunching(p, w.t3);
      assert l.state.Launching? && l.spec == e.spec;
      var s := AfterSpawn(l, w.spawn, w.t4);
      SpawnReaches(l, w.spawn, w.t4);
      CourseCons(p, [l, s], ev, [SpawnEvent(s, e.spec, w.spawn, w.t4)]);
      CourseCons(l, [s], ev, []);
      assert [l] + [s] == [l, s];
      CourseOne(s, SpawnEvent(s, e.spec, w.spawn, w.t4));
    } else {
      CourseOne(p, ev);
    }
  }

  ghost function SpawnState(spec: LaunchSpec, s: SpawnOutcome): LaunchState {
    if spec.launchMode != Execute then Terminated else if s == SpawnError then Failed else Starting
  }

  ghost function SpawnKind(spec: LaunchSpec, s: SpawnOutcome): EventType {
    if spec.launchMode != Execute then DryRunCompleted
    else if s == SpawnError then RuntimeSpawnFailed
    else RuntimeSpawned
  }

  ghost function SpawnReason(spec: LaunchSpec, s: SpawnOutcome): Reason {
    if spec.launchMode == Execute && s == SpawnError then ErrExecRuntimeSpawnFailed else NoReason
  }

  lemma SpawnReaches(l: Execution, s: SpawnOutcome, t: Readings)
    requires l.state.Launching?
    ensures var a := AfterSpawn(l, s, t);
            && a.state == SpawnState(l.spec, s)
            && SpawnEvent(a, l.spec, s, t).eventType == SpawnKind(l.spec, s)
            && SpawnEvent(a, l.spec, s, t).reason == SpawnReason(l.spec, s)
  {
  }

  /** What the stages write besides the state: the prepared launch, and after the spawn the PID and
      the start; the trace tells why a stage failed. */
  lemma LaunchWrites(e: Execution, v: ValidationOutcome, p: PrepareOutcome, s: SpawnOutcome, t: Readings)
    ensures e.state.Pending? ==>
              var a := AfterValidation(e, v, t);
              a == e.(state := a.state, history := a.history, trace := a.trace)
              && (v != Valid ==> a.trace[|a.trace| - 1]
                                 == TraceStep(StateTransition, Success,
                                              if v == NodeMissing then ErrNodeNotFound else ErrValidationFailed, t.t1))
    ensures e.state.Preparing? ==>
              var a := AfterPreparation(e, p, t);
              a == e.(state := a.state, history := a.history, trace := a.trace,
                      prepared := match p case PrepareOk(prep) => Some(prep) case _ => e.prepared)
              && a.trace == e.trace + [TraceStep(ArtifactResolution, InProgress, NoReason, t.t0)] +
                            (if p.PrepareOk? then [TraceStep(ArtifactResolution, Success, NoReason, t.t1),
                                                   TraceStep(StateTransition, Success, NoReason, t.t2)]
                             else [TraceStep(StateTransition, Success, ErrPreparationFailed, t.t1)])
    ensures e.state.Launching? ==>
              var a := AfterSpawn(e, s, t);
              var started := e.spec.launchMode == Execute && s.Spawned?;
              a == e.(state := a.state, history := a.history, trace := a.trace,
                      pid := if started then Some(s.pid) else e.pid,
                      startedAt := if started then Some(t.t0) else e.startedAt)
              && (e.spec.launchMode == Execute && s == SpawnError ==>
                    a.trace == e.trace + [TraceStep(StateTransition, Success, ErrExecRuntimeSpawnFailed, t.t0)])
  {
  }

  // ---------- Terminations ----------

  /** A termination of a stored record that is not over: it asks for Terminating, which only a
      Pending record refuses, kills a process if there is one, and stores the outcome. */
  lemma TerminationCourse(e: Execution, k: KillOutcome, t0: Readings, t1: Readings, clock: int)
    requires RecordInv(e, clock) && !e.state.Exited? && !e.state.Failed? && !e.state.Terminated?
    ensures var saves, events := TerminationSaves(e, k, t0, t1), TerminationEvents(e, k, t0, t1);
            var failed := e.pid.Some? && k == KillFailed;
            && States(saves) == [if e.state.Pending? then Pending else Terminating,
                                 if failed then Terminating else Terminated]
            && Kinds(events) == [EventType.TerminationRequested, if failed then TerminationFailed else TerminatedEvent]
            && Reasons(events) == [NoReason, if failed then ErrTermSignalFailed else NoReason]
  {
    var r := LaunchSteps.TerminationRequested(e, t0);
    assert NeedsKill(r) <==> e.pid.Some?;
  }

  /** What it writes: the death of the process and its time, or why the kill failed. */
  lemma TerminationWrites(e: Execution, k: KillOutcome, t: Readings)
    requires e.state.Terminating? || e.state.Pending?
    requires e.pid.Some? ==> e.prepared.Some?
    ensures var a := AfterKill(e, k, t);
            if e.pid.Some? && k == KillFailed then
              a == e.(trace := e.trace + [TraceStep(Termination, Failure, ErrTermSignalFailed, t.t0)])
            else
              a == e.(state := Terminated, history := e.history + [Terminated],
                      terminatedAt := Some(t.t0), liveness := Dead, readiness := NotReady,
                      trace := e.trace + [TraceStep(StateTransition, Success, NoReason, t.t1)])
  {
  }

  /** The events of both operations tell the records they were saved with. */
  lemma EventsTell(e: Execution, v: ValidationOutcome, p: PrepareOutcome, s: SpawnOutcome, k: KillOutcome, t: Readings,
                   kind: EventType, reason: Reason, now: int)
    ensures EventTells(LifecycleEvent(e, kind, reason, now), e)
    ensures EventTells(ValidationEvent(e, v, t), e) && ValidationEvent(e, v, t).timestamp == t.t2
    ensures EventTells(PreparationEvent(e, p, t), e) && PreparationEvent(e, p, t).timestamp == t.t3
    ensures EventTells(SpawnEvent(e, e.spec, s, t), e) && SpawnEvent(e, e.spec, s, t).timestamp == t.t2
    ensures EventTells(KillEvent(e, e, k, t), e) && KillEvent(e, e, k, t).timestamp == t.t2
  {
  }
}
