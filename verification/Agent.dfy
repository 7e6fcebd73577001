/** The node agent's own preparation of a launch, and its agreement with the control plane.
    Finding a binary and testing for a file appear as the functions `find` and `exists_`. */
module Agent {
  import opened Wrappers
  import opened LaunchSchema
  import opened Strings
  import opened Paths
  import opened Storage
  import opened Executors
  import BackendSelection

  datatype AgentStorage = AgentStorage(hostPath: string, readOnly: bool, format: string, mountPoint: Option<string>)

  datatype AgentSpec = AgentSpec(
    workloadId: string, nodeId: string, runtimeClass: RuntimeClass, architecture: string,
    imageReference: Option<string>, kernelImagePath: Option<string>, rootfsPath: Option<string>,
    storage: seq<AgentStorage>, vcpu: nat, memoryMB: nat, backendPreference: Option<string>, allowBackendFallback: bool)

  datatype AgentError =
    | UnsafeWorkloadId | BackendNotSupported | MissingQemuBinary | MissingChBinary | MissingFcBinary
    | MissingArtifact | InvalidFirecrackerArtifactModel

  datatype Preparation =
    | Prepared(launch: PreparedLaunch, kernelImagePath: Option<string>)
    | NotPrepared(why: AgentError)

  datatype PreparationResult = PreparationResult(
    backend: string, reasons: seq<AgentError>, prepared: Option<Preparation>)

  // ---------- The agent's spec read by the control plane ----------

  function ReadAttachment(s: AgentStorage): StorageAttachment {
    StorageAttachment(s.hostPath, s.readOnly, s.format, OrEmpty(s.mountPoint))
  }

  /** Absent fields are empty strings on the control plane's side. */
  function Read(spec: AgentSpec): LaunchSpec {
    LaunchSpec(spec.workloadId, spec.nodeId, spec.runtimeClass, spec.architecture,
               OrEmpty(spec.imageReference), OrEmpty(spec.kernelImagePath), OrEmpty(spec.rootfsPath),
               seq(|spec.storage|, k requires 0 <= k < |spec.storage| => ReadAttachment(spec.storage[k])),
               spec.vcpu, spec.memoryMB, Execute, OrEmpty(spec.backendPreference), spec.allowBackendFallback, None)
  }

  // ---------- Workload ids and sockets ----------

  predicate IsSafeId(id: string) {
    && !(id == "" || id == "." || id == ".." || '/' in id || '\\' in id)
    && forall c | c in id :: 'a' <= c <= 'z' || 'A' <= c <= 'Z' || '0' <= c <= '9' || c == '-' || c == '_'
  }

  /** Agent and control plane accept the same workload ids. */
  lemma SafeIdsAgree(id: string)
    ensures IsSafeId(id) <==> IsValidId(id)
  {
    assert !IsSafeChar('.') && !IsSafeChar('/') && !IsSafeChar('\\');
    assert id == "." || id == ".." ==> id[0] in id;
    if IsSafeId(id) {
      forall c | c in id ensures IsSafeChar(c) {}
    }
    if IsValidId(id) {
      forall c | c in id
        ensures c != '.' && c != '/' && c != '\\'
      {
        assert IsSafeChar(c);
      }
    }
  }

  function GenerateSocketPath(spec: AgentSpec, token: string): string {
    "var/run/schedune/" + spec.workloadId + "/" + token + ".sock"
  }

  lemma SamePath(head: string, middle: string, id: string, token: string)
    ensures head + middle + id + "/" + token + ".sock" == head + middle + id + "/" + (token + ".sock")
  {
  }

  lemma SocketPathsAgree(spec: AgentSpec, token: string)
    requires IsSafeId(spec.workloadId) && IsValidId(token)
    ensures GetControlSocketPath(spec.workloadId, token) == Some(GenerateSocketPath(spec, token))
  {
    SafeIdsAgree(spec.workloadId);
    SocketPathParts(spec.workloadId, token);
    SamePath("var", "/run/schedune/", spec.workloadId, token);
    assert "var" + "/run/schedune/" == "var/run/schedune/";
  }

  // ---------- The primary disk ----------

  /** The control plane's disk, except that an image named "" still counts as an image. */
  function PrimaryDiskOf(spec: AgentSpec): Option<Disk> {
    if spec.storage != [] then Some(PrimaryDisk(Read(spec)))
    else if spec.imageReference.Some? then Some(Disk(spec.imageReference.value, "qcow2"))
    else None
  }

  method ResolvePrimaryDisk(spec: AgentSpec) returns (disk: Option<Disk>)
    ensures disk == PrimaryDiskOf(spec)
  {
    var primary: Option<AgentStorage>, fallback: Option<AgentStorage> := None, None;
    ghost var storage := Read(spec).storage;
    for k := 0 to |spec.storage|
      invariant primary.None?
      invariant fallback == if k == 0 then None else Some(spec.storage[0])
      invariant forall j | 0 <= j < k :: !IsRoot(storage[j])
    {
      var s := spec.storage[k];
      if fallback.None? {
        fallback := Some(s);
      }
      if s.mountPoint.None? || s.mountPoint == Some("/") || s.mountPoint == Some("") {
        primary := Some(s);
        PrimaryIndexIsPrimary(storage, k);
        break;
      }
    }
    var chosen := if primary.Some? then primary else fallback;
    if chosen.Some? {
      if primary.None? {
        PrimaryIndexIsPrimary(storage, 0);
      }
      var p := chosen.value;
      return Some(Disk(p.hostPath, if p.format == "" then "raw" else p.format));
    }
    if spec.imageReference.Some? {
      return Some(Disk(spec.imageReference.value, "qcow2"));
    }
    return None;
  }

  /** Both sides choose the same path, and the same format unless the only disk is an image
      named "". */
  lemma DisksAgree(spec: AgentSpec)
    ensures var ours := if PrimaryDiskOf(spec).Some? then PrimaryDiskOf(spec).value else Disk("", "");
            && ours.path == PrimaryDisk(Read(spec)).path
            && (ours == PrimaryDisk(Read(spec)) <==> !(spec.storage == [] && spec.imageReference == Some("")))
  {
    assert "qcow2"[0] == 'q';
  }

  // ---------- Preparing for one backend ----------

  function QemuBinary(spec: AgentSpec): string {
    "qemu-system-" + spec.architecture
  }

  function PrepareKvmQemu(spec: AgentSpec, find: string -> Option<string>, exists_: string -> bool): Preparation {
    var binary, disk := find(QemuBinary(spec)), PrimaryDiskOf(spec);
    if binary.None? then NotPrepared(MissingQemuBinary)
    else if disk.None? || !exists_(disk.value.path) then NotPrepared(MissingArtifact)
    else
      var socket := GenerateSocketPath(spec, "qemu");
      Prepared(PreparedLaunch(KVM_QEMU, spec.memoryMB, spec.vcpu, 5, binary.value, disk.value.path,
                              ["-enable-kvm",
                               "-m", Decimal(spec.memoryMB),
                               "-smp", Decimal(spec.vcpu),
                               "-drive", "file=" + disk.value.path + ",format=" + disk.value.format,
                               "-nographic",
                               "-qmp", "unix:" + socket + ",server,nowait"],
                              socket), None)
  }

  function PrepareCloudHypervisorLaunch(spec: AgentSpec, find: string -> Option<string>, exists_: string -> bool)
    : Preparation
  {
    var binary, disk := find("cloud-hypervisor"), PrimaryDiskOf(spec);
    if binary.None? then NotPrepared(MissingChBinary)
    else if disk.None? || !exists_(disk.value.path) then NotPrepared(MissingArtifact)
    else
      var socket := GenerateSocketPath(spec, "cloudhypervisor");
      Prepared(PreparedLaunch(CLOUD_HYPERVISOR, spec.memoryMB, spec.vcpu, 3, binary.value, disk.value.path,
                              ["--memory", "size=" + Decimal(spec.memoryMB) + "M",
                               "--cpus", "boot=" + Decimal(spec.vcpu),
                               "--disk", "path=" + disk.value.path,
                               "--api-socket", socket],
                              socket), None)
  }

  /** The two preparations of the same backend: equal but for the binary, which the agent
      looks up and the control plane only names. */
  ghost predicate SamePreparation(ours: Preparation, theirs: Option<PreparedLaunch>, binary: Option<string>) {
    && (ours.Prepared? <==> binary.Some? && theirs.Some?)
    && (ours.Prepared? ==> ours.launch == theirs.value.(binaryPath := binary.value))
  }

  /** The agent asks whether the chosen disk exists, the control plane whether it is missing. The
      answers differ on a path whose status cannot be read. */
  predicate SameDiskTest(spec: AgentSpec, exists_: string -> bool, missing: string -> bool) {
    var path := PrimaryDisk(Read(spec)).path;
    path == "" || (exists_(path) <==> !missing(path))
  }

  /** Both sides prepare the same QEMU launch exactly when they see the chosen disk alike, unless
      the node has no binary, and then the agent prepares nothing. */
  lemma QemuPreparationsAgree(spec: AgentSpec, find: string -> Option<string>, exists_: string -> bool,
                              missing: string -> bool)
    requires IsSafeId(spec.workloadId) && !exists_("")
    ensures SamePreparation(PrepareKvmQemu(spec, find, exists_),
                            PrepareKvm(Read(spec), missing), find(QemuBinary(spec)))
            <==> find(QemuBinary(spec)).None? || SameDiskTest(spec, exists_, missing)
  {
    DisksAgree(spec);
    SocketPathsAgree(spec, QEMU_TOKEN);
  }

  lemma CloudHypervisorPreparationsAgree(spec: AgentSpec, find: string -> Option<string>, exists_: string -> bool,
                                         missing: string -> bool)
    requires IsSafeId(spec.workloadId) && !exists_("")
    ensures SamePreparation(PrepareCloudHypervisorLaunch(spec, find, exists_),
                            PrepareCloudHypervisor(Read(spec), missing), find("cloud-hypervisor"))
            <==> find("cloud-hypervisor").None? || SameDiskTest(spec, exists_, missing)
  {
    DisksAgree(spec);
    SocketPathsAgree(spec, CH_TOKEN);
  }

  // ---------- Firecracker ----------

  predicate LooksLikeRootfs(s: AgentStorage) {
    s.mountPoint == Some("/") || s.format == "ext4"
  }

  predicate LooksLikeKernel(s: AgentStorage) {
    !LooksLikeRootfs(s) && s.format == "raw" && s.readOnly
  }

  predicate OfKind(s: AgentStorage, kernel: bool) {
    if kernel then LooksLikeKernel(s) else LooksLikeRootfs(s)
  }

  /** The given path, or else the host path of the first attachment of that kind. */
  function FirstOf(given: Option<string>, storage: seq<AgentStorage>, kernel: bool): Option<string> {
    if given.Some? then given
    else if storage == [] then None
    else if OfKind(storage[0], kernel) then Some(storage[0].hostPath)
    else FirstOf(given, storage[1..], kernel)
  }

  /** Attachment `k` is of that kind, and none before it is. */
  ghost predicate IsFirst(storage: seq<AgentStorage>, kernel: bool, k: nat) {
    k < |storage| && OfKind(storage[k], kernel) && forall j | 0 <= j < k :: !OfKind(storage[j], kernel)
  }

  /** Nothing when no attachment is of that kind, and otherwise the first one that is. */
  lemma {:induction false} FirstOfIsFirst(storage: seq<AgentStorage>, kernel: bool)
    ensures var found := FirstOf(None, storage, kernel);
            && (found.None? <==> forall s | s in storage :: !OfKind(s, kernel))
            && (found.Some? ==> exists k: nat :: IsFirst(storage, kernel, k) && storage[k].hostPath == found.value)
  {
    if storage != [] {
      FirstOfIsFirst(storage[1..], kernel);
      assert storage == [storage[0]] + storage[1..];
      if OfKind(storage[0], kernel) {
        assert IsFirst(storage, kernel, 0);
      } else if FirstOf(None, storage[1..], kernel).Some? {
        var k: nat :| IsFirst(storage[1..], kernel, k)
                      && storage[1..][k].hostPath == FirstOf(None, storage[1..], kernel).value;
        FirstShifts(storage, kernel, k);
      }
    }
  }

  lemma FirstShifts(storage: seq<AgentStorage>, kernel: bool, k: nat)
    requires storage != [] && !OfKind(storage[0], kernel) && IsFirst(storage[1..], kernel, k)
    ensures IsFirst(storage, kernel, k + 1)
  {
    forall j | 0 <= j < k + 1
      ensures !OfKind(storage[j], kernel)
    {
      assert j > 0 ==> storage[1..][j - 1] == storage[j];
    }
  }

  function FirecrackerPreparation(spec: AgentSpec, find: string -> Option<string>, exists_: string -> bool)
    : Preparation
  {
    var binary := find("firecracker");
    var kernel := FirstOf(spec.kernelImagePath, spec.storage, true);
    var rootfs := FirstOf(spec.rootfsPath, spec.storage, false);
    if binary.None? then NotPrepared(MissingFcBinary)
    else if kernel.None? || rootfs.None? then NotPrepared(InvalidFirecrackerArtifactModel)
    else if !exists_(kernel.value) || !exists_(rootfs.value) then NotPrepared(MissingArtifact)
    else
      var socket := GenerateSocketPath(spec, "firecracker");
      Prepared(PreparedLaunch(FIRECRACKER, spec.memoryMB, spec.vcpu, 2, binary.value, rootfs.value,
                              ["--api-sock", socket,
                               "--config-file", "var/run/schedune/" + spec.workloadId + "/fc-config.json"],
                              socket), kernel)
  }

  method PrepareFirecracker(spec: AgentSpec, find: string -> Option<string>, exists_: string -> bool)
    returns (p: Preparation)
    ensures p == FirecrackerPreparation(spec, find, exists_)
  {
    var binary := find("firecracker");
    if binary.None? {
      return NotPrepared(MissingFcBinary);
    }
    var kernel, rootfs := spec.kernelImagePath, spec.rootfsPath;
    for k := 0 to |spec.storage|
      invariant FirstOf(kernel, spec.storage[k..], true) == FirstOf(spec.kernelImagePath, spec.storage, true)
      invariant FirstOf(rootfs, spec.storage[k..], false) == FirstOf(spec.rootfsPath, spec.storage, false)
    {
      var s := spec.storage[k];
      assert spec.storage[k..][1..] == spec.storage[k + 1..];
      if s.mountPoint == Some("/") || s.format == "ext4" {
        if rootfs.None? {
          rootfs := Some(s.hostPath);
        }
      } else if s.format == "raw" && s.readOnly && kernel.None? {
        kernel := Some(s.hostPath);
      }
    }
    if kernel.None? || rootfs.None? {
      return NotPrepared(InvalidFirecrackerArtifactModel);
    }
    if !exists_(kernel.value) || !exists_(rootfs.value) {
      return NotPrepared(MissingArtifact);
    }
    var socket := GenerateSocketPath(spec, "firecracker");
    var args := ["--api-sock", socket, "--config-file", "var/run/schedune/" + spec.workloadId + "/fc-config.json"];
    return Prepared(PreparedLaunch(FIRECRACKER, spec.memoryMB, spec.vcpu, 2, binary.value, rootfs.value, args, socket),
                    kernel);
  }

  /** What makes an attachment a root file system or a kernel in the agent's eyes. */
  lemma KindsAre(s: AgentStorage)
    ensures OfKind(s, false) <==> s.mountPoint == Some("/") || s.format == "ext4"
    ensures OfKind(s, true) <==> s.mountPoint != Some("/") && s.format == "raw" && s.readOnly
  {
    assert "raw"[0] == 'r' && "ext4"[0] == 'e';
  }

  /** A micro VM is prepared from the first kernel and root file system, if the binary and both
      files are there; otherwise the first thing missing is named. */
  lemma FirecrackerOutcome(spec: AgentSpec, find: string -> Option<string>, exists_: string -> bool)
    ensures var kernel := FirstOf(spec.kernelImagePath, spec.storage, true);
            var rootfs := FirstOf(spec.rootfsPath, spec.storage, false);
            var outcome := FirecrackerPreparation(spec, find, exists_);
            if find("firecracker").None? then outcome == NotPrepared(MissingFcBinary)
            else if kernel.None? || rootfs.None? then outcome == NotPrepared(InvalidFirecrackerArtifactModel)
            else if !exists_(kernel.value) || !exists_(rootfs.value) then outcome == NotPrepared(MissingArtifact)
            else
              && outcome.Prepared? && outcome.kernelImagePath == kernel
              && var p := outcome.launch;
                 && p.runtimeBackend == "firecracker" && p.startupGraceSec == 2 && p.memoryMB == spec.memoryMB
                 && p.vcpu == spec.vcpu && Some(p.binaryPath) == find("firecracker") && Some(p.artifactPath) == rootfs
                 && p.controlSocketPath == "var/run/schedune/" + spec.workloadId + "/" + "firecracker" + ".sock"
                 && |p.commandArgs| == 4
                 && p.commandArgs[0] == "--api-sock" && p.commandArgs[1] == p.controlSocketPath
                 && p.commandArgs[2] == "--config-file"
                 && p.commandArgs[3] == "var/run/schedune/" + spec.workloadId + "/fc-config.json"
  {
  }

  /** A given path wins over the attachments. */
  lemma GivenPathWins(path: string, storage: seq<AgentStorage>, kernel: bool)
    ensures FirstOf(Some(path), storage, kernel) == Some(path)
  {
  }

  /** Why a virtual machine backend is not prepared: no binary, or no disk that exists. */
  lemma VmRefusals(spec: AgentSpec, find: string -> Option<string>, exists_: string -> bool)
    ensures var qemu, ch := PrepareKvmQemu(spec, find, exists_), PrepareCloudHypervisorLaunch(spec, find, exists_);
            && (qemu == NotPrepared(MissingQemuBinary) <==> find("qemu-system-" + spec.architecture).None?)
            && (ch == NotPrepared(MissingChBinary) <==> find("cloud-hypervisor").None?)
            && (qemu.NotPrepared? ==> qemu.why == MissingQemuBinary || qemu.why == MissingArtifact)
            && (ch.NotPrepared? ==> ch.why == MissingChBinary || ch.why == MissingArtifact)
  {
  }

  // ---------- Preparing a launch ----------

  /** None for a preference that is not supported. */
  function Candidates(spec: AgentSpec): Option<seq<string>> {
    if spec.runtimeClass.MicroVM? then Some([FIRECRACKER])
    else if spec.backendPreference.None? then Some([CLOUD_HYPERVISOR, KVM_QEMU])
    else
      var preference := spec.backendPreference.value;
      if preference != KVM_QEMU && preference != CLOUD_HYPERVISOR then None
      else if !spec.allowBackendFallback then Some([preference])
      else if preference == CLOUD_HYPERVISOR then Some([CLOUD_HYPERVISOR, KVM_QEMU])
      else Some([KVM_QEMU, CLOUD_HYPERVISOR])
  }

  lemma MicroVmCandidates(spec: AgentSpec)
    requires spec.runtimeClass == MicroVM
    ensures Candidates(spec) == Some(["firecracker"])
  {
  }

  /** For a virtual machine both sides try the same backends in the same order, unless the
      preference is present and empty, which only the agent refuses. */
  lemma CandidatesAgree(spec: AgentSpec)
    requires !spec.runtimeClass.MicroVM?
    ensures Candidates(spec) == BackendSelection.Candidates(OrEmpty(spec.backendPreference), spec.allowBackendFallback)
            <==> spec.backendPreference != Some("")
  {
    BackendSelection.CandidatesFollowPreference(OrEmpty(spec.backendPreference), spec.allowBackendFallback);
    assert |CLOUD_HYPERVISOR| == 16 && |KVM_QEMU| == 8;
  }

  function PreparationFor(backend: string, spec: AgentSpec, find: string -> Option<string>, exists_: string -> bool)
    : Preparation
  {
    if backend == KVM_QEMU then PrepareKvmQemu(spec, find, exists_)
    else if backend == CLOUD_HYPERVISOR then PrepareCloudHypervisorLaunch(spec, find, exists_)
    else if backend == FIRECRACKER then FirecrackerPreparation(spec, find, exists_)
    else NotPrepared(BackendNotSupported)
  }

  /** `r` is the first candidate that can be prepared, or the last one with the reason of
      each failure in order. */
  ghost predicate FirstPreparable(order: seq<string>, spec: AgentSpec, find: string -> Option<string>,
                                  exists_: string -> bool, r: PreparationResult)
  {
    if r.prepared.Some? then
      && r.reasons == []
      && exists k: nat | k < |order| ::
           && r.backend == order[k]
           && r.prepared == Some(PreparationFor(order[k], spec, find, exists_))
           && r.prepared.value.Prepared?
           && forall j | 0 <= j < k :: PreparationFor(order[j], spec, find, exists_).NotPrepared?
    else
      && order != [] && r.backend == order[|order| - 1]
      && |r.reasons| == |order|
      && forall j | 0 <= j < |order| :: PreparationFor(order[j], spec, find, exists_) == NotPrepared(r.reasons[j])
  }

  method TryCandidates(candidates: seq<string>, spec: AgentSpec, find: string -> Option<string>,
                       exists_: string -> bool)
    returns (r: PreparationResult)
    requires candidates != []
    ensures FirstPreparable(candidates, spec, find, exists_, r)
  {
    var reasons: seq<AgentError>, backend := [], "";
    for k := 0 to |candidates|
      invariant k > 0 ==> backend == candidates[k - 1]
      invariant |reasons| == k
      invariant forall j | 0 <= j < k :: PreparationFor(candidates[j], spec, find, exists_) == NotPrepared(reasons[j])
    {
      backend := candidates[k];
      var p: Preparation;
      if backend == KVM_QEMU {
        p := PrepareKvmQemu(spec, find, exists_);
      } else if backend == CLOUD_HYPERVISOR {
        p := PrepareCloudHypervisorLaunch(spec, find, exists_);
      } else if backend == FIRECRACKER {
        p := PrepareFirecracker(spec, find, exists_);
      } else {
        p := NotPrepared(BackendNotSupported);
      }
      assert p == PreparationFor(candidates[k], spec, find, exists_);
      if p.Prepared? {
        return PreparationResult(backend, [], Some(p));
      }
      reasons := reasons + [p.why];
    }
    return PreparationResult(backend, reasons, None);
  }

  method PrepareLaunch(spec: AgentSpec, find: string -> Option<string>, exists_: string -> bool)
    returns (r: PreparationResult)
    ensures !IsSafeId(spec.workloadId) ==> r == PreparationResult("unknown", [UnsafeWorkloadId], None)
    ensures IsSafeId(spec.workloadId) ==>
              match Candidates(spec)
              case Some(order) => FirstPreparable(order, spec, find, exists_, r)
              case None => r == PreparationResult("unknown", [BackendNotSupported], None)
  {
    if !IsSafeId(spec.workloadId) {
      return PreparationResult("unknown", [UnsafeWorkloadId], None);
    }
    var candidates: seq<string> := [];
    if spec.runtimeClass.MicroVM? {
      candidates := candidates + [FIRECRACKER];
    } else {
      if spec.backendPreference.Some? {
        var preference := spec.backendPreference.value;
        if preference == KVM_QEMU || preference == CLOUD_HYPERVISOR {
          candidates := candidates + [preference];
          if spec.allowBackendFallback {
            if preference == CLOUD_HYPERVISOR {
              candidates := candidates + [KVM_QEMU];
            } else {
              candidates := candidates + [CLOUD_HYPERVISOR];
            }
          }
        } else {
          return PreparationResult("unknown", [BackendNotSupported], None);
        }
      }
      if candidates == [] {
        candidates := [CLOUD_HYPERVISOR, KVM_QEMU];
      }
    }
    assert |candidates| == 1 ==> candidates == [candidates[0]];
    assert |candidates| == 2 ==> candidates == [candidates[0], candidates[1]];
    assert Candidates(spec) == Some(candidates);
    r := TryCandidates(candidates, spec, find, exists_);
  }

  // ---------- Agreement with the control plane ----------

  /** The control plane's preparation for a virtual machine backend. */
  function ControlPlanePreparation(backend: string, spec: LaunchSpec, missing: string -> bool): Option<PreparedLaunch> {
    if backend == KVM_QEMU then PrepareKvm(spec, missing) else PrepareCloudHypervisor(spec, missing)
  }

  function BinaryFor(backend: string, spec: AgentSpec): string {
    if backend == KVM_QEMU then QemuBinary(spec) else "cloud-hypervisor"
  }

  /** The node has the binary and the control plane would prepare the launch. */
  predicate OpenTo(backend: string, spec: AgentSpec, find: string -> Option<string>, missing: string -> bool) {
    find(BinaryFor(backend, spec)).Some? && ControlPlanePreparation(backend, Read(spec), missing).Some?
  }

  /** `r` is the control plane's own preparation for the first open backend of its own order,
      or nothing when none is open. */
  ghost predicate FollowsControlPlane(order: seq<string>, spec: AgentSpec, find: string -> Option<string>,
                                      missing: string -> bool, r: PreparationResult)
  {
    && (r.prepared.None? <==> forall b | b in order :: !OpenTo(b, spec, find, missing))
    && (r.prepared.Some? ==>
          exists k: nat | k < |order| ::
            && r.backend == order[k]
            && SamePreparation(r.prepared.value, ControlPlanePreparation(order[k], Read(spec), missing),
                               find(BinaryFor(order[k], spec)))
            && forall j | 0 <= j < k :: !OpenTo(order[j], spec, find, missing))
  }

  /** What the agent prepares for a virtual machine follows the control plane exactly when they
      see the chosen disk alike, unless the node has none of the binaries. */
  lemma AgentFollowsControlPlane(spec: AgentSpec, find: string -> Option<string>, exists_: string -> bool,
                                 missing: string -> bool, order: seq<string>, r: PreparationResult)
    requires !spec.runtimeClass.MicroVM? && IsSafeId(spec.workloadId) && !exists_("")
    requires spec.backendPreference != Some("")
    requires BackendSelection.Candidates(Read(spec).backendPreference, spec.allowBackendFallback) == Some(order)
    requires FirstPreparable(order, spec, find, exists_, r)
    ensures FollowsControlPlane(order, spec, find, missing, r) <==>
            (forall b | b in order :: find(BinaryFor(b, spec)).None?) || SameDiskTest(spec, exists_, missing)
  {
    BackendSelection.CandidatesFollowPreference(Read(spec).backendPreference, spec.allowBackendFallback);
    forall b | b in order
      ensures b == CLOUD_HYPERVISOR || b == KVM_QEMU
    {
    }
    if (forall b | b in order :: find(BinaryFor(b, spec)).None?) || SameDiskTest(spec, exists_, missing) {
      AgreementFollows(spec, find, exists_, missing, order, r);
    } else {
      DisagreementShows(spec, find, exists_, missing, order, r);
    }
  }

  /** The agreement of one backend of either kind. */
  lemma OneBackendAgrees(b: string, spec: AgentSpec, find: string -> Option<string>, exists_: string -> bool,
                         missing: string -> bool)
    requires b == CLOUD_HYPERVISOR || b == KVM_QEMU
    requires IsSafeId(spec.workloadId) && !exists_("")
    ensures SamePreparation(PreparationFor(b, spec, find, exists_), ControlPlanePreparation(b, Read(spec), missing),
                            find(BinaryFor(b, spec)))
            <==> find(BinaryFor(b, spec)).None? || SameDiskTest(spec, exists_, missing)
  {
    QemuPreparationsAgree(spec, find, exists_, missing);
    CloudHypervisorPreparationsAgree(spec, find, exists_, missing);
  }

  lemma AgreementFollows(spec: AgentSpec, find: string -> Option<string>, exists_: string -> bool,
                         missing: string -> bool, order: seq<string>, r: PreparationResult)
    requires IsSafeId(spec.workloadId) && !exists_("")
    requires forall b | b in order :: b == CLOUD_HYPERVISOR || b == KVM_QEMU
    requires FirstPreparable(order, spec, find, exists_, r)
    requires forall b | b in order :: find(BinaryFor(b, spec)).None? || SameDiskTest(spec, exists_, missing)
    ensures FollowsControlPlane(order, spec, find, missing, r)
  {
    forall b | b in order
      ensures SamePreparation(PreparationFor(b, spec, find, exists_), ControlPlanePreparation(b, Read(spec), missing),
                              find(BinaryFor(b, spec)))
    {
      OneBackendAgrees(b, spec, find, exists_, missing);
    }
    if r.prepared.None? {
      forall b | b in order
        ensures !OpenTo(b, spec, find, missing)
      {
        var j :| 0 <= j < |order| && order[j] == b;
        assert PreparationFor(order[j], spec, find, exists_) == NotPrepared(r.reasons[j]);
      }
    }
  }

  /** A backend whose binary is there shows the difference: the agent prepares what the control
      plane refuses, or the other way round. */
  lemma DisagreementShows(spec: AgentSpec, find: string -> Option<string>, exists_: string -> bool,
                          missing: string -> bool, order: seq<string>, r: PreparationResult)
    requires IsSafeId(spec.workloadId) && !exists_("") && !SameDiskTest(spec, exists_, missing)
    requires forall b | b in order :: b == CLOUD_HYPERVISOR || b == KVM_QEMU
    requires exists b | b in order :: find(BinaryFor(b, spec)).Some?
    requires FirstPreparable(order, spec, find, exists_, r)
    ensures !FollowsControlPlane(order, spec, find, missing, r)
  {
    forall b | b in order
      ensures PreparationFor(b, spec, find, exists_).Prepared? <==>
              find(BinaryFor(b, spec)).Some? && exists_(PrimaryDisk(Read(spec)).path)
      ensures OpenTo(b, spec, find, missing) <==>
              find(BinaryFor(b, spec)).Some? && !missing(PrimaryDisk(Read(spec)).path)
    {
      DiskTestsDecide(b, spec, find, exists_, missing);
    }
    var b :| b in order && find(BinaryFor(b, spec)).Some?;
    var j :| 0 <= j < |order| && order[j] == b;
  }

  /** For a named disk and a safe workload id only the binary and the disk test are left. */
  lemma DiskTestsDecide(b: string, spec: AgentSpec, find: string -> Option<string>, exists_: string -> bool,
                        missing: string -> bool)
    requires b == CLOUD_HYPERVISOR || b == KVM_QEMU
    requires IsSafeId(spec.workloadId) && PrimaryDisk(Read(spec)).path != ""
    ensures PreparationFor(b, spec, find, exists_).Prepared? <==>
            find(BinaryFor(b, spec)).Some? && exists_(PrimaryDisk(Read(spec)).path)
    ensures ControlPlanePreparation(b, Read(spec), missing).Some? <==> !missing(PrimaryDisk(Read(spec)).path)
  {
    DisksAgree(spec);
    SocketPathsAgree(spec, QEMU_TOKEN);
    SocketPathsAgree(spec, CH_TOKEN);
  }
}
