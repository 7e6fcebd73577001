/** The launch contract: specs, execution records, observations and events.
    A record is a value here; `ExecutionRecord` is the object that is updated in place. */
module LaunchSchema {
  import opened Wrappers

  // ---------- Specs ----------

  datatype RuntimeClass = VirtualMachine | MicroVM | OtherClass

  datatype LaunchMode = Validate | DryRun | Execute

  datatype StorageAttachment = StorageAttachment(hostPath: string, readOnly: bool, format: string, mountPoint: string)

  datatype VersionRequirement = VersionRequirement(minimum: string, exact: string)

  datatype LaunchSpec = LaunchSpec(
    workloadId: string,
    nodeId: string,
    runtimeClass: RuntimeClass,
    architecture: string,
    imageReference: string,
    kernelImagePath: string,
    rootfsPath: string,
    storage: seq<StorageAttachment>,
    vcpu: nat,
    memoryMB: nat,
    launchMode: LaunchMode,
    backendPreference: string,
    allowBackendFallback: bool,
    runtimeVersion: Option<VersionRequirement>)

  const KVM_QEMU := "kvm_qemu"
  const CLOUD_HYPERVISOR := "cloud_hypervisor"
  const FIRECRACKER := "firecracker"

  datatype PreparedLaunch = PreparedLaunch(
    runtimeBackend: string,
    memoryMB: nat,
    vcpu: nat,
    startupGraceSec: nat,
    binaryPath: string,
    artifactPath: string,
    commandArgs: seq<string>,
    controlSocketPath: string)

  // ---------- Records ----------

  datatype LaunchState =
    | Pending | Preparing | Validated | Launching | Starting | Running | Degraded
    | Exited | Failed | Terminating | Terminated | Unknown

  predicate IsTerminal(s: LaunchState) {
    s.Exited? || s.Failed? || s.Terminated?
  }

  datatype Liveness = LivenessUnknown | Alive | Dead

  datatype Readiness = NotStarted | NotReady | Ready | ReadinessDegraded | ReadinessFailed

  datatype Stage = Init | StateTransition | ArtifactResolution | Termination | RecoveryBootstrap

  datatype Status = Success | InProgress | Failure

  datatype Reason =
    | NoReason
    | ErrNodeNotFound | ErrValidationFailed | ErrPreparationFailed
    | ErrExecRuntimeSpawnFailed | ErrTermSignalFailed
    | ErrReconcileProcessMissing | ErrReconcileStatusUnreadable
    | ErrExecRuntimeExitedEarly | ErrExecRuntimeCrashed
    | ErrReadyTimeout | ErrReadyProbeFailed
    | ErrRecoveryRehydrateFailed | ErrRecoveryExecutionMissing | ErrRecoveryStaleHandle
    | RecoveryConfirmed | RecoveryTerminatedMissing

  datatype TraceStep = TraceStep(stage: Stage, status: Status, reason: Reason, timestamp: int)

  datatype Signal = Signal(
    socketPath: string,
    socketExists: bool,
    socketDialOK: bool,
    readySignal: bool,
    signalSource: string,
    graceElapsed: bool,
    lastObservedAt: int)

  /** What the executions table holds. `history` is a specification variable: the states
      the record has been in, oldest first. The program keeps only the last of them. */
  datatype Execution = Execution(
    executionId: string,
    spec: LaunchSpec,
    prepared: Option<PreparedLaunch>,
    state: LaunchState,
    liveness: Liveness,
    readiness: Readiness,
    createdAt: int,
    updatedAt: int,
    startedAt: Option<int>,
    readyAt: Option<int>,
    terminatedAt: Option<int>,
    pid: Option<int>,
    exitCode: Option<int>,
    trace: seq<TraceStep>,
    recoveryEpoch: string,
    lastObservedAt: Option<int>,
    signal: Option<Signal>,
    history: seq<LaunchState>)

  // ---------- Observations ----------

  datatype Observation = Observation(
    processExists: bool,
    exitCode: Option<int>,
    observedAt: int,
    socketPath: string,
    socketExists: bool,
    socketDialOK: bool,
    graceElapsed: bool,
    readySignal: bool,
    signalSource: string,
    backendError: Option<string>)

  /** The answer of an inspector: an error, or what it saw. */
  datatype Inspection = InspectError | Observed(obs: Observation)

  /** The successive readings of the wall clock inside one durable step. */
  datatype Readings = Readings(t0: int, t1: int, t2: int, t3: int)
  {
    predicate NotBefore(lower: int) {
      lower <= t0 <= t1 <= t2 <= t3
    }
  }

  // ---------- Events ----------

  datatype EventType =
    | ExecutionCreated | ValidationFailed | ValidationPassed | PreparationFailed | PreparationPassed
    | RuntimeSpawnFailed | RuntimeSpawned | DryRunCompleted
    | TerminationRequested | TerminationFailed | TerminatedEvent
    | ReconcileStateChanged | ExecutionRehydrated | ExecutionRecoveryUnknown

  datatype Payload =
    | LifecyclePayload(workloadId: string, nodeId: string, backend: string, state: LaunchState)
    | ReconcilePayload(nodeId: string,
                       beforeState: LaunchState, afterState: LaunchState,
                       beforeLiveness: Liveness, afterLiveness: Liveness,
                       beforeReadiness: Readiness, afterReadiness: Readiness,
                       exitCode: Option<int>, signal: Option<Signal>)
    | RecoveryPayload

  datatype RuntimeEvent = RuntimeEvent(
    executionId: string, eventType: EventType, timestamp: int, reason: Reason, payload: Payload)
}
