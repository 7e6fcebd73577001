/** What the QEMU and Cloud Hypervisor executors prepare. The file system appears as the
    predicate `missing`: the paths for which the file status says that there is no such file. A
    path whose status cannot be read for another reason is not missing. Spawning and killing are
    not part of this model. */
module Executors {
  import opened Wrappers
  import opened LaunchSchema
  import opened Strings
  import opened Paths
  import opened Storage

  const QEMU_TOKEN := "qemu"
  const CH_TOKEN := "cloudhypervisor"

  function QemuArgs(spec: LaunchSpec, disk: Disk, socket: string): seq<string> {
    ["-enable-kvm",
     "-m", Decimal(spec.memoryMB),
     "-smp", Decimal(spec.vcpu),
     "-drive", "file=" + disk.path + ",format=" + disk.format,
     "-nographic",
     "-qmp", "unix:" + socket + ",server,nowait"]
  }

  function CloudHypervisorArgs(spec: LaunchSpec, disk: Disk, socket: string): seq<string> {
    ["--memory", "size=" + Decimal(spec.memoryMB) + "M",
     "--cpus", "boot=" + Decimal(spec.vcpu),
     "--disk", "path=" + disk.path,
     "--api-socket", socket]
  }

  /** None stands for an error: no disk, no such file, or an unsafe workload id. */
  function PrepareKvm(spec: LaunchSpec, missing: string -> bool): Option<PreparedLaunch> {
    var disk := PrimaryDisk(spec);
    var socket := GetControlSocketPath(spec.workloadId, QEMU_TOKEN);
    if disk.path == "" || missing(disk.path) || socket.None? then None
    else Some(PreparedLaunch(KVM_QEMU, spec.memoryMB, spec.vcpu, 5, "qemu-system-" + spec.architecture,
                             disk.path, QemuArgs(spec, disk, socket.value), socket.value))
  }

  function PrepareCloudHypervisor(spec: LaunchSpec, missing: string -> bool): Option<PreparedLaunch> {
    var disk := PrimaryDisk(spec);
    var socket := GetControlSocketPath(spec.workloadId, CH_TOKEN);
    if disk.path == "" || missing(disk.path) || socket.None? then None
    else Some(PreparedLaunch(CLOUD_HYPERVISOR, spec.memoryMB, spec.vcpu, 3, "cloud-hypervisor",
                             disk.path, CloudHypervisorArgs(spec, disk, socket.value), socket.value))
  }

  // ---------- Reading the arguments ----------

  /** The text is a number in decimal digits. */
  ghost predicate Reads(text: string, n: nat) {
    AllDigits(text) && ValueOf(text) == n
  }

  /** Memory and processors of a QEMU launch can be read back from its arguments, and so can disk
      and socket, each behind its own flag. */
  lemma QemuArgsTellSpec(spec: LaunchSpec, missing: string -> bool)
    requires PrepareKvm(spec, missing).Some?
    ensures var p := PrepareKvm(spec, missing).value;
            && p.runtimeBackend == "kvm_qemu" && p.startupGraceSec == 5
            && p.memoryMB == spec.memoryMB && p.vcpu == spec.vcpu
            && p.binaryPath == "qemu-system-" + spec.architecture
            && p.artifactPath == PrimaryDisk(spec).path && p.artifactPath != "" && !missing(p.artifactPath)
            && Some(p.controlSocketPath) == GetControlSocketPath(spec.workloadId, "qemu")
    ensures var p := PrepareKvm(spec, missing).value;
            var args := p.commandArgs;
            && |args| == 10 && args[0] == "-enable-kvm" && args[7] == "-nographic"
            && args[1] == "-m" && Reads(args[2], spec.memoryMB)
            && args[3] == "-smp" && Reads(args[4], spec.vcpu)
            && args[5] == "-drive" && args[6] == "file=" + p.artifactPath + ",format=" + PrimaryDisk(spec).format
            && args[8] == "-qmp" && args[9] == "unix:" + p.controlSocketPath + ",server,nowait"
  {
    DecimalRoundTrip(spec.memoryMB);
    DecimalRoundTrip(spec.vcpu);
  }

  lemma CloudHypervisorArgsTellSpec(spec: LaunchSpec, missing: string -> bool)
    requires PrepareCloudHypervisor(spec, missing).Some?
    ensures var p := PrepareCloudHypervisor(spec, missing).value;
            && p.runtimeBackend == "cloud_hypervisor" && p.startupGraceSec == 3
            && p.memoryMB == spec.memoryMB && p.vcpu == spec.vcpu && p.binaryPath == "cloud-hypervisor"
            && p.artifactPath == PrimaryDisk(spec).path && p.artifactPath != "" && !missing(p.artifactPath)
            && Some(p.controlSocketPath) == GetControlSocketPath(spec.workloadId, "cloudhypervisor")
    ensures var p := PrepareCloudHypervisor(spec, missing).value;
            var args := p.commandArgs;
            && |args| == 8
            && args[0] == "--memory" && (exists m :: Reads(m, spec.memoryMB) && args[1] == "size=" + m + "M")
            && args[2] == "--cpus" && (exists n :: Reads(n, spec.vcpu) && args[3] == "boot=" + n)
            && args[4] == "--disk" && args[5] == "path=" + p.artifactPath
            && args[6] == "--api-socket" && args[7] == p.controlSocketPath
  {
    DecimalRoundTrip(spec.memoryMB);
    DecimalRoundTrip(spec.vcpu);
    assert Reads(Decimal(spec.memoryMB), spec.memoryMB) && Reads(Decimal(spec.vcpu), spec.vcpu);
  }

  /** A launch is prepared exactly when it has a disk that is not missing and a safe workload id. */
  lemma PreparedIff(spec: LaunchSpec, missing: string -> bool)
    ensures PrepareKvm(spec, missing).Some? <==>
            PrimaryDisk(spec).path != "" && !missing(PrimaryDisk(spec).path) && IsValidId(spec.workloadId)
    ensures PrepareCloudHypervisor(spec, missing).Some? <==>
            PrimaryDisk(spec).path != "" && !missing(PrimaryDisk(spec).path) && IsValidId(spec.workloadId)
  {
    SocketPathExists(spec.workloadId, "qemu");
    SocketPathExists(spec.workloadId, "cloudhypervisor");
  }
}
