/** Which backend a spec gets on a node and why the others are rejected, in terms of the node's
    capabilities by name. */
module BackendOutcomes {
  import opened Wrappers
  import opened LaunchSchema
  import opened NodeRecords
  import opened Versions
  import opened Storage
  import opened BackendSelection

  ghost predicate Offers(node: NodeRecord, name: string) {
    name in node.capabilities && node.capabilities[name].state == Supported && !node.capabilities[name].isStale
  }

  /** The node offers the binary in a version that the spec accepts. */
  ghost predicate OffersBinary(node: NodeRecord, name: string, spec: LaunchSpec) {
    Offers(node, name) && Accepts(node.capabilities[name].version, spec.runtimeVersion)
  }

  ghost predicate HasDisk(spec: LaunchSpec) {
    spec.storage != [] || spec.imageReference != ""
  }

  lemma CloudHypervisorIsOpenIff(spec: LaunchSpec, node: NodeRecord)
    requires spec.runtimeClass.VirtualMachine?
    ensures VmObstacle("cloud_hypervisor", spec, node).None? <==>
            && Offers(node, "kvm_vm_launch")
            && OffersBinary(node, "cloud_hypervisor_binary_present", spec)
            && HasDisk(spec)
  {
  }

  lemma QemuIsOpenIff(spec: LaunchSpec, node: NodeRecord)
    requires spec.runtimeClass.VirtualMachine?
    ensures VmObstacle("kvm_qemu", spec, node).None? <==>
            Offers(node, "kvm_vm_launch") && OffersBinary(node, "qemu_binary_present", spec) && HasDisk(spec)
  {
    assert KVM_QEMU != CLOUD_HYPERVISOR by {
      assert |KVM_QEMU| == 8 && |CLOUD_HYPERVISOR| == 16;
    }
  }

  /** Firecracker needs four capabilities, typed storage or both legacy paths, and no qcow2. */
  lemma FirecrackerIsOpenIff(spec: LaunchSpec, node: NodeRecord)
    requires spec.runtimeClass.MicroVM?
    ensures MicroVmObstacle(spec, node).None? <==>
            && Offers(node, "kvm_vm_launch")
            && OffersBinary(node, "firecracker_binary_present", spec)
            && Offers(node, "firecracker_tun_ready")
            && Offers(node, "firecracker_cgroups_ready")
            && (spec.storage != [] || (spec.kernelImagePath != "" && spec.rootfsPath != ""))
            && forall s | s in spec.storage :: s.format != "qcow2"
  {
    assert "raw"[0] == 'r' && "ext4"[0] == 'e' && "qcow2"[0] == 'q';
    if spec.storage == [] && NormalizeStorage(spec) != [] {
      assert forall s | s in NormalizeStorage(spec) :: s.format == "ext4" || s.format == "raw";
    }
  }

  // ---------- Rejections ----------

  /** The evidence blames this capability, and shows what the node says about it. */
  ghost predicate Blames(ev: Evidence, backend: string, reason: RejectReason, node: NodeRecord, name: string) {
    && ev.backend == backend && ev.reason == reason && ev.capabilityName == Some(name)
    && (if name in node.capabilities then
          var cap := node.capabilities[name];
          && ev.capabilityState == Some(cap.state) && ev.capabilityStale == Some(cap.isStale)
          && ev.capabilityReason == (if cap.reasonCode == "" then None else Some(cap.reasonCode))
        else ev.capabilityState.None? && ev.capabilityStale.None? && ev.capabilityReason.None?)
  }

  ghost predicate BlamesNothing(ev: Evidence, backend: string, reason: RejectReason) {
    ev == Evidence(backend, reason, None, None, None, None)
  }

  /** Why a virtual machine backend with this binary is rejected: the first thing that is missing. */
  ghost predicate VmRejection(ev: Evidence, backend: string, binary: string, missing: RejectReason,
                              spec: LaunchSpec, node: NodeRecord)
  {
    if !Offers(node, "kvm_vm_launch") then Blames(ev, backend, MissingKvm, node, "kvm_vm_launch")
    else if !Offers(node, binary) then Blames(ev, backend, missing, node, binary)
    else if !OffersBinary(node, binary, spec) then
      ev.reason.BadVersion? && Blames(ev, backend, ev.reason, node, binary)
      && CheckRequirement(node.capabilities[binary].version, spec.runtimeVersion) == Some(ev.reason.why)
    else BlamesNothing(ev, backend, MissingArtifact) && !HasDisk(spec)
  }

  lemma CloudHypervisorRejection(spec: LaunchSpec, node: NodeRecord)
    requires spec.runtimeClass.VirtualMachine? && VmObstacle("cloud_hypervisor", spec, node).Some?
    ensures VmRejection(VmObstacle("cloud_hypervisor", spec, node).value, "cloud_hypervisor",
                        "cloud_hypervisor_binary_present", MissingChBinary, spec, node)
  {
  }

  lemma QemuRejection(spec: LaunchSpec, node: NodeRecord)
    requires spec.runtimeClass.VirtualMachine? && VmObstacle("kvm_qemu", spec, node).Some?
    ensures VmRejection(VmObstacle("kvm_qemu", spec, node).value, "kvm_qemu", "qemu_binary_present", MissingQemuBinary,
                        spec, node)
  {
    assert |KVM_QEMU| == 8 && |CLOUD_HYPERVISOR| == 16;
  }

  lemma FirecrackerRejection(spec: LaunchSpec, node: NodeRecord)
    requires spec.runtimeClass.MicroVM? && MicroVmObstacle(spec, node).Some?
    ensures var ev := MicroVmObstacle(spec, node).value;
            if !Offers(node, "kvm_vm_launch") then Blames(ev, "firecracker", MissingKvm, node, "kvm_vm_launch")
            else if !Offers(node, "firecracker_binary_present") then
              Blames(ev, "firecracker", MissingFcBinary, node, "firecracker_binary_present")
            else if !OffersBinary(node, "firecracker_binary_present", spec) then
              ev.reason.BadVersion? && Blames(ev, "firecracker", ev.reason, node, "firecracker_binary_present")
            else if !Offers(node, "firecracker_tun_ready") then
              Blames(ev, "firecracker", MissingFcTun, node, "firecracker_tun_ready")
            else if !Offers(node, "firecracker_cgroups_ready") then
              Blames(ev, "firecracker", MissingFcCgroups, node, "firecracker_cgroups_ready")
            else if spec.storage == [] then BlamesNothing(ev, "firecracker", InvalidArtifactModel)
            else BlamesNothing(ev, "firecracker", InvalidStorageFormat)
  {
    FirecrackerIsOpenIff(spec, node);
  }

  // ---------- Selections ----------

  ghost predicate ChOpen(spec: LaunchSpec, node: NodeRecord) {
    Offers(node, "kvm_vm_launch") && OffersBinary(node, "cloud_hypervisor_binary_present", spec) && HasDisk(spec)
  }

  ghost predicate QemuOpen(spec: LaunchSpec, node: NodeRecord) {
    Offers(node, "kvm_vm_launch") && OffersBinary(node, "qemu_binary_present", spec) && HasDisk(spec)
  }

  /** The rejections that come with a selection, by backend. */
  ghost predicate Rejects(s: Selection, backends: seq<string>, spec: LaunchSpec, node: NodeRecord) {
    && |s.evidence| == |backends|
    && forall k | 0 <= k < |backends| ::
         RejectsOne(s.evidence[k], backends[k], spec, node)
  }

  ghost predicate RejectsOne(ev: Evidence, backend: string, spec: LaunchSpec, node: NodeRecord) {
    if backend == "cloud_hypervisor" then
      VmRejection(ev, "cloud_hypervisor", "cloud_hypervisor_binary_present", MissingChBinary, spec, node)
    else VmRejection(ev, "kvm_qemu", "qemu_binary_present", MissingQemuBinary, spec, node)
  }

  /** Without a preference Cloud Hypervisor is tried first and QEMU second. */
  lemma SelectionWithoutPreference(spec: LaunchSpec, node: NodeRecord, s: Selection)
    requires spec.runtimeClass.VirtualMachine? && spec.backendPreference == "" && Selects(spec, node, s)
    ensures if ChOpen(spec, node) then s.backend == "cloud_hypervisor" && s.evidence == []
            else if QemuOpen(spec, node) then s.backend == "kvm_qemu" && Rejects(s, ["cloud_hypervisor"], spec, node)
            else s.backend == "" && Rejects(s, ["cloud_hypervisor", "kvm_qemu"], spec, node)
  {
    TwoCandidates(spec, node, s, "cloud_hypervisor", "kvm_qemu");
  }

  /** With a preference the preferred one is tried first, and the other only by fallback. */
  lemma SelectionWithPreference(spec: LaunchSpec, node: NodeRecord, s: Selection)
    requires spec.runtimeClass.VirtualMachine? && spec.backendPreference != "" && Selects(spec, node, s)
    ensures spec.backendPreference == "cloud_hypervisor" ==>
              if ChOpen(spec, node) then s.backend == "cloud_hypervisor" && s.evidence == []
              else if spec.allowBackendFallback && QemuOpen(spec, node) then
                s.backend == "kvm_qemu" && Rejects(s, ["cloud_hypervisor"], spec, node)
              else s.backend == "" && |s.evidence| == (if spec.allowBackendFallback then 2 else 1)
    ensures spec.backendPreference == "kvm_qemu" ==>
              if QemuOpen(spec, node) then s.backend == "kvm_qemu" && s.evidence == []
              else if spec.allowBackendFallback && ChOpen(spec, node) then
                s.backend == "cloud_hypervisor" && Rejects(s, ["kvm_qemu"], spec, node)
              else s.backend == "" && |s.evidence| == (if spec.allowBackendFallback then 2 else 1)
    ensures spec.backendPreference != "cloud_hypervisor" && spec.backendPreference != "kvm_qemu" ==>
              s.backend == "" && |s.evidence| == 1
              && BlamesNothing(s.evidence[0], spec.backendPreference, BackendNotSupported)
  {
    assert |KVM_QEMU| == 8 && |CLOUD_HYPERVISOR| == 16;
    if spec.backendPreference == "cloud_hypervisor" {
      if spec.allowBackendFallback {
        TwoCandidates(spec, node, s, "cloud_hypervisor", "kvm_qemu");
      } else {
        OneCandidate(spec, node, s, "cloud_hypervisor");
      }
    } else if spec.backendPreference == "kvm_qemu" {
      if spec.allowBackendFallback {
        TwoCandidates(spec, node, s, "kvm_qemu", "cloud_hypervisor");
      } else {
        OneCandidate(spec, node, s, "kvm_qemu");
      }
    }
  }

  ghost predicate IsOpen(backend: string, spec: LaunchSpec, node: NodeRecord) {
    if backend == "cloud_hypervisor" then ChOpen(spec, node) else QemuOpen(spec, node)
  }

  lemma OpenOrRejected(backend: string, spec: LaunchSpec, node: NodeRecord)
    requires spec.runtimeClass.VirtualMachine? && (backend == "cloud_hypervisor" || backend == "kvm_qemu")
    ensures VmObstacle(backend, spec, node).None? <==> IsOpen(backend, spec, node)
    ensures VmObstacle(backend, spec, node).Some? ==>
              RejectsOne(VmObstacle(backend, spec, node).value, backend, spec, node)
  {
    assert |KVM_QEMU| == 8 && |CLOUD_HYPERVISOR| == 16;
    CloudHypervisorIsOpenIff(spec, node);
    QemuIsOpenIff(spec, node);
    if VmObstacle(backend, spec, node).Some? {
      if backend == "cloud_hypervisor" {
        CloudHypervisorRejection(spec, node);
      } else {
        QemuRejection(spec, node);
      }
    }
  }

  lemma OneCandidate(spec: LaunchSpec, node: NodeRecord, s: Selection, first: string)
    requires spec.runtimeClass.VirtualMachine? && (first == "cloud_hypervisor" || first == "kvm_qemu")
    requires FirstViable([first], spec, node, s)
    ensures if IsOpen(first, spec, node) then s.backend == first && s.evidence == []
            else s.backend == "" && Rejects(s, [first], spec, node)
  {
    assert [first][0] == first;
    OpenOrRejected(first, spec, node);
    forall k | 0 <= k < |s.evidence|
      ensures RejectsOne(s.evidence[k], [first][k], spec, node)
    {
      assert VmObstacle([first][k], spec, node) == Some(s.evidence[k]);
    }
  }

  lemma TwoCandidates(spec: LaunchSpec, node: NodeRecord, s: Selection, first: string, second: string)
    requires spec.runtimeClass.VirtualMachine?
    requires || (first == "cloud_hypervisor" && second == "kvm_qemu")
             || (first == "kvm_qemu" && second == "cloud_hypervisor")
    requires FirstViable([first, second], spec, node, s)
    ensures if IsOpen(first, spec, node) then s.backend == first && s.evidence == []
            else if IsOpen(second, spec, node) then s.backend == second && Rejects(s, [first], spec, node)
            else s.backend == "" && Rejects(s, [first, second], spec, node)
  {
    assert [first, second][0] == first && [first, second][1] == second;
    OpenOrRejected(first, spec, node);
    OpenOrRejected(second, spec, node);
    forall k | 0 <= k < |s.evidence|
      ensures RejectsOne(s.evidence[k], [first, second][k], spec, node)
    {
      assert VmObstacle([first, second][k], spec, node) == Some(s.evidence[k]);
    }
  }

  /** With only the QEMU binary on the node and no preference, QEMU is selected, and the evidence
      blames the Cloud Hypervisor binary. */
  lemma OnlyQemuOnTheNode(spec: LaunchSpec, node: NodeRecord, s: Selection)
    requires spec.runtimeClass.VirtualMachine? && spec.backendPreference == "" && HasDisk(spec)
    requires Selects(spec, node, s)
    requires Offers(node, "kvm_vm_launch") && OffersBinary(node, "qemu_binary_present", spec)
    requires !Offers(node, "cloud_hypervisor_binary_present")
    ensures s.backend == "kvm_qemu" && |s.evidence| == 1
    ensures Blames(s.evidence[0], "cloud_hypervisor", MissingChBinary, node, "cloud_hypervisor_binary_present")
  {
    SelectionWithoutPreference(spec, node, s);
  }

  /** The legacy map gives each rejected backend the reason of its evidence, and the capability's
      own reason if it has one. */
  lemma LegacyTexts(spec: LaunchSpec, node: NodeRecord, s: Selection)
    requires Selects(spec, node, s)
    ensures forall ev | ev in s.evidence ::
              ev.backend in s.rejected && s.rejected[ev.backend] == ReasonText(ev.reason, ev.capabilityReason)
    ensures forall b | b in s.rejected :: exists ev | ev in s.evidence :: ev.backend == b
  {
    if spec.runtimeClass.VirtualMachine? && Candidates(spec.backendPreference, spec.allowBackendFallback).Some? {
      var order := Candidates(spec.backendPreference, spec.allowBackendFallback).value;
      CandidatesFollowPreference(spec.backendPreference, spec.allowBackendFallback);
      EvidenceNamesCandidates(spec, node, order, s);
      DistinctBackends(order, s.evidence);
    }
    TextsOfEvidence(s);
  }

  lemma DistinctBackends(order: seq<string>, evidence: seq<Evidence>)
    requires forall i, j | 0 <= i < j < |order| :: order[i] != order[j]
    requires |evidence| <= |order| && forall j | 0 <= j < |evidence| :: evidence[j].backend == order[j]
    ensures forall i, j | 0 <= i < j < |evidence| :: evidence[i].backend != evidence[j].backend
  {
  }

  lemma TextsOfEvidence(s: Selection)
    requires s.rejected == LegacyMap(s.evidence)
    requires forall i, j | 0 <= i < j < |s.evidence| :: s.evidence[i].backend != s.evidence[j].backend
    ensures forall ev | ev in s.evidence ::
              ev.backend in s.rejected && s.rejected[ev.backend] == ReasonText(ev.reason, ev.capabilityReason)
    ensures forall b | b in s.rejected :: exists ev | ev in s.evidence :: ev.backend == b
  {
    LegacyMapIsEvidence(s.evidence);
    forall b | b in s.rejected
      ensures exists ev | ev in s.evidence :: ev.backend == b
    {
      assert b in LegacyMap(s.evidence).Keys;
    }
  }
}
