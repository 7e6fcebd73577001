/** The durable steps of a launch and of a termination: what each stage leaves in the record
    it saves, as a function of the record before it and of what the outside world answered. */
module LaunchSteps {
  import opened Wrappers
  import opened LaunchSchema
  import opened Lifecycle

  datatype ValidationOutcome = NodeMissing | Invalid | Valid
  datatype PrepareOutcome = NoExecutor | PrepareError | PrepareOk(prep: PreparedLaunch)
  datatype SpawnOutcome = SpawnError | Spawned(pid: int)
  datatype KillOutcome = KillFailed | Killed

  /** Everything a launch gets from outside, with the clock readings of its five saves. */
  datatype LaunchWorld = LaunchWorld(
    validation: ValidationOutcome, prepare: PrepareOutcome, spawn: SpawnOutcome,
    t0: Readings, t1: Readings, t2: Readings, t3: Readings, t4: Readings)

  // ---------- The saved records ----------

  function Created(id: string, spec: LaunchSpec, t: Readings): Execution {
    Execution(id, spec, None, Pending, LivenessUnknown, NotStarted, t.t0, t.t0, None, None, None,
              None, None, [TraceStep(Init, Success, NoReason, t.t1)], "", None, None, [Pending])
  }

  function AfterValidation(e: Execution, v: ValidationOutcome, t: Readings): Execution {
    var p := Transitioned(e, Preparing, NoReason, t.t0);
    match v
    case Valid => p
    case NodeMissing => Transitioned(p, Failed, ErrNodeNotFound, t.t1)
    case Invalid => Transitioned(p, Failed, ErrValidationFailed, t.t1)
  }

  function AfterPreparation(e: Execution, p: PrepareOutcome, t: Readings): Execution {
    var a := Traced(e, ArtifactResolution, InProgress, NoReason, t.t0);
    if p.PrepareOk? then
      var b := Traced(a.(prepared := Some(p.prep)), ArtifactResolution, Success, NoReason, t.t1);
      Transitioned(b, Validated, NoReason, t.t2)
    else
      Transitioned(a, Failed, ErrPreparationFailed, t.t1)
  }

  function MarkedLaunching(e: Execution, t: Readings): Execution {
    Transitioned(e, Launching, NoReason, t.t0)
  }

  function AfterSpawn(e: Execution, s: SpawnOutcome, t: Readings): Execution {
    if !e.spec.launchMode.Execute? then
      Transitioned(Transitioned(e, Terminating, NoReason, t.t0), Terminated, NoReason, t.t1)
    else if s.SpawnError? then
      Transitioned(e, Failed, ErrExecRuntimeSpawnFailed, t.t0)
    else
      Transitioned(e.(pid := Some(s.pid), startedAt := Some(t.t0)), Starting, NoReason, t.t1)
  }

  function TerminationRequested(e: Execution, t: Readings): Execution {
    Transitioned(e, Terminating, NoReason, t.t0)
  }

  predicate NeedsKill(e: Execution) {
    e.pid.Some? && e.prepared.Some?
  }

  function AfterKill(e: Execution, k: KillOutcome, t: Readings): Execution {
    if NeedsKill(e) && k.KillFailed? then
      Traced(e, Termination, Failure, ErrTermSignalFailed, t.t0)
    else
      Transitioned(e.(terminatedAt := Some(t.t0), liveness := Dead, readiness := NotReady),
                   Terminated, NoReason, t.t1)
  }

  // ---------- Whole operations ----------

  /** The records that a launch saves, in order: it stops at the first stage that fails. */
  function LaunchSaves(id: string, spec: LaunchSpec, w: LaunchWorld): seq<Execution> {
    var e := Created(id, spec, w.t0);
    [e] + SavesFromValidation(e, w)
  }

  function SavesFromValidation(e: Execution, w: LaunchWorld): seq<Execution> {
    var v := AfterValidation(e, w.validation, w.t1);
    if w.validation.Valid? then [v] + SavesFromPreparation(v, w) else [v]
  }

  function SavesFromPreparation(e: Execution, w: LaunchWorld): seq<Execution> {
    var p := AfterPreparation(e, w.prepare, w.t2);
    if w.prepare.PrepareOk? then
      var l := MarkedLaunching(p, w.t3);
      [p] + [l, AfterSpawn(l, w.spawn, w.t4)]
    else [p]
  }

  function TerminationSaves(e: Execution, k: KillOutcome, t0: Readings, t1: Readings): seq<Execution> {
    if IsTerminal(e.state) then []
    else [TerminationRequested(e, t0), AfterTermination(e, k, t0, t1)]
  }

  /** What a whole termination leaves in the store. */
  function AfterTermination(e: Execution, k: KillOutcome, t0: Readings, t1: Readings): Execution {
    if IsTerminal(e.state) then e else AfterKill(TerminationRequested(e, t0), k, t1)
  }

  // ---------- Events ----------

  function LifecycleEvent(e: Execution, eventType: EventType, reason: Reason, now: int): RuntimeEvent {
    RuntimeEvent(e.executionId, eventType, now, reason,
                 LifecyclePayload(e.spec.workloadId, e.spec.nodeId,
                                  if e.prepared.Some? then e.prepared.value.runtimeBackend else "", e.state))
  }

  function ValidationEvent(e: Execution, v: ValidationOutcome, t: Readings): RuntimeEvent {
    match v
    case NodeMissing => LifecycleEvent(e, ValidationFailed, ErrNodeNotFound, t.t2)
    case Invalid => LifecycleEvent(e, ValidationFailed, ErrValidationFailed, t.t2)
    case Valid => LifecycleEvent(e, ValidationPassed, NoReason, t.t2)
  }

  function PreparationEvent(e: Execution, p: PrepareOutcome, t: Readings): RuntimeEvent {
    if p.PrepareOk? then LifecycleEvent(e, PreparationPassed, NoReason, t.t3)
    else LifecycleEvent(e, PreparationFailed, ErrPreparationFailed, t.t3)
  }

  function SpawnEvent(e: Execution, spec: LaunchSpec, s: SpawnOutcome, t: Readings): RuntimeEvent {
    if !spec.launchMode.Execute? then LifecycleEvent(e, DryRunCompleted, NoReason, t.t2)
    else if s.SpawnError? then LifecycleEvent(e, RuntimeSpawnFailed, ErrExecRuntimeSpawnFailed, t.t2)
    else LifecycleEvent(e, RuntimeSpawned, NoReason, t.t2)
  }

  /** One event per stage reached. */
  function LaunchEvents(id: string, spec: LaunchSpec, w: LaunchWorld): seq<RuntimeEvent> {
    var e := Created(id, spec, w.t0);
    [LifecycleEvent(e, ExecutionCreated, NoReason, w.t0.t2)] + EventsFromValidation(e, w)
  }

  function EventsFromValidation(e: Execution, w: LaunchWorld): seq<RuntimeEvent> {
    var v := AfterValidation(e, w.validation, w.t1);
    var ev := ValidationEvent(v, w.validation, w.t1);
    if w.validation.Valid? then [ev] + EventsFromPreparation(v, w) else [ev]
  }

  function EventsFromPreparation(e: Execution, w: LaunchWorld): seq<RuntimeEvent> {
    var p := AfterPreparation(e, w.prepare, w.t2);
    var ev := PreparationEvent(p, w.prepare, w.t2);
    if w.prepare.PrepareOk? then
      [ev] + [SpawnEvent(AfterSpawn(MarkedLaunching(p, w.t3), w.spawn, w.t4), e.spec, w.spawn, w.t4)]
    else [ev]
  }

  function KillEvent(before: Execution, after: Execution, k: KillOutcome, t: Readings): RuntimeEvent {
    if NeedsKill(before) && k.KillFailed? then LifecycleEvent(after, TerminationFailed, ErrTermSignalFailed, t.t2)
    else LifecycleEvent(after, TerminatedEvent, NoReason, t.t2)
  }

  function TerminationEvents(e: Execution, k: KillOutcome, t0: Readings, t1: Readings): seq<RuntimeEvent> {
    if IsTerminal(e.state) then []
    else
      var r := TerminationRequested(e, t0);
      [LifecycleEvent(r, EventType.TerminationRequested, NoReason, t0.t2), KillEvent(r, AfterKill(r, k, t1), k, t1)]
  }
}
