/** Choosing a runtime backend for a launch, with the evidence of every rejection. */
module BackendSelection {
  import opened Wrappers
  import opened LaunchSchema
  import opened NodeRecords
  import opened Storage
  import opened Versions

  datatype RejectReason =
    | MissingKvm | MissingChBinary | MissingQemuBinary | MissingFcBinary | MissingFcTun | MissingFcCgroups
    | BadVersion(why: VersionReason)
    | MissingArtifact | InvalidArtifactModel | InvalidStorageFormat | BackendNotSupported

  datatype Evidence = Evidence(
    backend: string, reason: RejectReason, capabilityName: Option<string>,
    capabilityState: Option<CapabilityState>, capabilityReason: Option<string>, capabilityStale: Option<bool>)

  /** The legacy text: the reason code, and the capability's own reason in parentheses. */
  datatype ReasonText = ReasonText(reason: RejectReason, detail: Option<string>)

  function Reject(backend: string, reason: RejectReason, name: Option<string>, cap: Option<Capability>): Evidence {
    Evidence(backend, reason, name,
             if cap.Some? then Some(cap.value.state) else None,
             if cap.Some? && cap.value.reasonCode != "" then Some(cap.value.reasonCode) else None,
             if cap.Some? then Some(cap.value.isStale) else None)
  }

  function TextOf(ev: Evidence): ReasonText {
    ReasonText(ev.reason, ev.capabilityReason)
  }

  function LegacyMap(evidence: seq<Evidence>): map<string, ReasonText> {
    if evidence == [] then map[]
    else
      var last := evidence[|evidence| - 1];
      LegacyMap(evidence[..|evidence| - 1])[last.backend := TextOf(last)]
  }

  // ---------- One backend ----------

  function Lookup(node: NodeRecord, name: string): Option<Capability> {
    if name in node.capabilities then Some(node.capabilities[name]) else None
  }

  function Gap(backend: string, reason: RejectReason, name: string, node: NodeRecord): Option<Evidence> {
    if Usable(node, name) then None else Some(Reject(backend, reason, Some(name), Lookup(node, name)))
  }

  function VersionGap(backend: string, name: string, spec: LaunchSpec, node: NodeRecord): Option<Evidence>
    requires Usable(node, name)
  {
    var cap := node.capabilities[name];
    match CheckRequirement(cap.version, spec.runtimeVersion)
    case None => None
    case Some(why) => Some(Reject(backend, BadVersion(why), Some(name), Some(cap)))
  }

  function BinaryOf(backend: string): string {
    if backend == CLOUD_HYPERVISOR then CH_BINARY else if backend == KVM_QEMU then QEMU_BINARY else FC_BINARY
  }

  function MissingBinary(backend: string): RejectReason {
    if backend == CLOUD_HYPERVISOR then MissingChBinary
    else if backend == KVM_QEMU then MissingQemuBinary
    else MissingFcBinary
  }

  /** Why a virtual machine cannot run on `backend`; None when it can. */
  function VmObstacle(backend: string, spec: LaunchSpec, node: NodeRecord): Option<Evidence> {
    var kvm := Gap(backend, MissingKvm, KVM_LAUNCH, node);
    var binary := Gap(backend, MissingBinary(backend), BinaryOf(backend), node);
    if kvm.Some? then kvm
    else if binary.Some? then binary
    else
      var version := VersionGap(backend, BinaryOf(backend), spec, node);
      if version.Some? then version
      else if NormalizeStorage(spec) == [] then Some(Reject(backend, MissingArtifact, None, None))
      else None
  }

  /** Why a micro VM cannot run; None when it can. */
  function MicroVmObstacle(spec: LaunchSpec, node: NodeRecord): Option<Evidence> {
    var kvm := Gap(FIRECRACKER, MissingKvm, KVM_LAUNCH, node);
    var binary := Gap(FIRECRACKER, MissingFcBinary, FC_BINARY, node);
    var tun := Gap(FIRECRACKER, MissingFcTun, FC_TUN, node);
    var cgroups := Gap(FIRECRACKER, MissingFcCgroups, FC_CGROUPS, node);
    var storage := NormalizeStorage(spec);
    if kvm.Some? then kvm
    else if binary.Some? then binary
    else
      var version := VersionGap(FIRECRACKER, FC_BINARY, spec, node);
      if version.Some? then version
      else if tun.Some? then tun
      else if cgroups.Some? then cgroups
      else if storage == [] then Some(Reject(FIRECRACKER, InvalidArtifactModel, None, None))
      else if exists s | s in storage :: s.format == "qcow2" then
        Some(Reject(FIRECRACKER, InvalidStorageFormat, None, None))
      else None
  }

  /** A backend is open to a virtual machine exactly when these four things hold. */
  lemma NoVmObstacleIff(backend: string, spec: LaunchSpec, node: NodeRecord)
    ensures VmObstacle(backend, spec, node).None? <==>
            && Usable(node, KVM_LAUNCH)
            && Usable(node, BinaryOf(backend))
            && Accepts(node.capabilities[BinaryOf(backend)].version, spec.runtimeVersion)
            && NormalizeStorage(spec) != []
    ensures VmObstacle(backend, spec, node).Some? ==> VmObstacle(backend, spec, node).value.backend == backend
  {
  }

  /** The evidence names the first check that failed, and the capability it looked at. */
  lemma VmObstacleIsFirstFailure(backend: string, spec: LaunchSpec, node: NodeRecord)
    requires VmObstacle(backend, spec, node).Some?
    ensures var ev := VmObstacle(backend, spec, node).value;
            var kvm, binary := Usable(node, KVM_LAUNCH), Usable(node, BinaryOf(backend));
            && (ev.reason.MissingKvm? <==> !kvm)
            && (ev.reason == MissingBinary(backend) <==> kvm && !binary)
            && (ev.reason.BadVersion? <==>
                  kvm && binary && !Accepts(node.capabilities[BinaryOf(backend)].version, spec.runtimeVersion))
            && ev.capabilityName == (if !kvm then Some(KVM_LAUNCH)
                                     else if ev.reason.MissingArtifact? then None else Some(BinaryOf(backend)))
  {
  }

  /** Firecracker is open to a micro VM exactly when all of this holds. */
  lemma NoMicroVmObstacleIff(spec: LaunchSpec, node: NodeRecord)
    ensures MicroVmObstacle(spec, node).None? <==>
            && Usable(node, KVM_LAUNCH) && Usable(node, FC_BINARY) && Usable(node, FC_TUN) && Usable(node, FC_CGROUPS)
            && Accepts(node.capabilities[FC_BINARY].version, spec.runtimeVersion)
            && NormalizeStorage(spec) != []
            && forall s | s in NormalizeStorage(spec) :: s.format != "qcow2"
    ensures MicroVmObstacle(spec, node).Some? ==> MicroVmObstacle(spec, node).value.backend == FIRECRACKER
  {
  }

  // ---------- The order of preference ----------

  /** None for a preference that names no virtual machine backend. */
  function Candidates(preference: string, fallback: bool): Option<seq<string>> {
    if preference == "" then Some([CLOUD_HYPERVISOR, KVM_QEMU])
    else if preference != CLOUD_HYPERVISOR && preference != KVM_QEMU then None
    else if !fallback then Some([preference])
    else if preference == CLOUD_HYPERVISOR then Some([CLOUD_HYPERVISOR, KVM_QEMU])
    else Some([KVM_QEMU, CLOUD_HYPERVISOR])
  }

  /** A supported preference comes first, everything else only by fallback, nothing twice. */
  lemma CandidatesFollowPreference(preference: string, fallback: bool)
    ensures var c := Candidates(preference, fallback);
            && (c.None? <==> preference != "" && preference != CLOUD_HYPERVISOR && preference != KVM_QEMU)
            && (c.Some? ==>
                  && c.value != [] && (preference != "" ==> c.value[0] == preference)
                  && (forall b | b in c.value :: b == CLOUD_HYPERVISOR || b == KVM_QEMU)
                  && (forall i, j | 0 <= i < j < |c.value| :: c.value[i] != c.value[j])
                  && (preference == "" || fallback ==> CLOUD_HYPERVISOR in c.value && KVM_QEMU in c.value))
  {
    var ch, q := CLOUD_HYPERVISOR, KVM_QEMU;
    assert |ch| != |q|;
  }

  // ---------- The selection ----------

  datatype Selection = Selection(backend: string, evidence: seq<Evidence>, rejected: map<string, ReasonText>)

  /** The first candidates, in order, all have an obstacle, and these are the obstacles. */
  ghost predicate Blocked(order: seq<string>, evidence: seq<Evidence>, spec: LaunchSpec, node: NodeRecord) {
    |evidence| <= |order| && forall j | 0 <= j < |evidence| :: VmObstacle(order[j], spec, node) == Some(evidence[j])
  }

  lemma OneMoreBlocked(order: seq<string>, evidence: seq<Evidence>, ev: Evidence, spec: LaunchSpec, node: NodeRecord)
    requires Blocked(order, evidence, spec, node) && |evidence| < |order|
    requires VmObstacle(order[|evidence|], spec, node) == Some(ev)
    ensures Blocked(order, evidence + [ev], spec, node)
  {
  }

  /** `s` is the first backend of `order` without an obstacle, or "" when all have one, with
      one piece of evidence for each earlier candidate, in order. */
  ghost predicate FirstViable(order: seq<string>, spec: LaunchSpec, node: NodeRecord, s: Selection) {
    var k := |s.evidence|;
    && Blocked(order, s.evidence, spec, node)
    && (if k < |order| then s.backend == order[k] && VmObstacle(order[k], spec, node).None? else s.backend == "")
  }

  /** What a selection is for each runtime class. */
  ghost predicate Selects(spec: LaunchSpec, node: NodeRecord, s: Selection) {
    && s.rejected == LegacyMap(s.evidence)
    && (spec.runtimeClass.VirtualMachine? ==>
          match Candidates(spec.backendPreference, spec.allowBackendFallback)
          case Some(order) => FirstViable(order, spec, node, s)
          case None =>
            s.backend == "" && s.evidence == [Reject(spec.backendPreference, BackendNotSupported, None, None)])
    && (spec.runtimeClass.MicroVM? ==>
          match MicroVmObstacle(spec, node)
          case None => s.backend == FIRECRACKER && s.evidence == []
          case Some(ev) => s.backend == "" && s.evidence == [ev])
    && (spec.runtimeClass.OtherClass? ==> s.backend == "" && s.evidence == [])
  }

  method SelectBackend(spec: LaunchSpec, node: NodeRecord) returns (s: Selection)
    ensures Selects(spec, node, s)
  {
    var evidence: seq<Evidence>, rejected: map<string, ReasonText> := [], map[];
    if spec.runtimeClass.MicroVM? {
      var obstacle := MicroVmObstacle(spec, node);
      if obstacle.Some? {
        evidence, rejected := Recorded(evidence, rejected, obstacle.value);
        return Selection("", evidence, rejected);
      }
      return Selection(FIRECRACKER, evidence, rejected);
    }
    if spec.runtimeClass.VirtualMachine? {
      var backends := [CLOUD_HYPERVISOR, KVM_QEMU];
      var preference := spec.backendPreference;
      if preference != "" {
        if preference == CLOUD_HYPERVISOR || preference == KVM_QEMU {
          backends := [preference];
          if spec.allowBackendFallback {
            if preference == CLOUD_HYPERVISOR {
              backends := [CLOUD_HYPERVISOR, KVM_QEMU];
            } else {
              backends := [KVM_QEMU, CLOUD_HYPERVISOR];
            }
          }
        } else {
          evidence, rejected := Recorded(evidence, rejected, Reject(preference, BackendNotSupported, None, None));
          return Selection("", evidence, rejected);
        }
      }
      assert Candidates(preference, spec.allowBackendFallback) == Some(backends);
      s := TryBackends(backends, spec, node);
      return;
    }
    return Selection("", evidence, rejected);
  }

  method TryBackends(backends: seq<string>, spec: LaunchSpec, node: NodeRecord) returns (s: Selection)
    ensures FirstViable(backends, spec, node, s) && s.rejected == LegacyMap(s.evidence)
  {
    var evidence: seq<Evidence>, rejected: map<string, ReasonText> := [], map[];
    for i := 0 to |backends|
      invariant rejected == LegacyMap(evidence)
      invariant |evidence| == i && Blocked(backends, evidence, spec, node)
    {
      var obstacle := VmObstacle(backends[i], spec, node);
      if obstacle.None? {
        return Selection(backends[i], evidence, rejected);
      }
      OneMoreBlocked(backends, evidence, obstacle.value, spec, node);
      evidence, rejected := Recorded(evidence, rejected, obstacle.value);
    }
    return Selection("", evidence, rejected);
  }

  method Recorded(evidence: seq<Evidence>, rejected: map<string, ReasonText>, ev: Evidence)
    returns (evidence': seq<Evidence>, rejected': map<string, ReasonText>)
    requires rejected == LegacyMap(evidence)
    ensures evidence' == evidence + [ev] && rejected' == LegacyMap(evidence')
  {
    rejected' := rejected[ev.backend := TextOf(ev)];
    evidence' := evidence + [ev];
    assert evidence'[..|evidence|] == evidence;
  }

  // ---------- What follows for a virtual machine ----------

  lemma {:induction false} LegacyMapIsEvidence(evidence: seq<Evidence>)
    requires forall i, j | 0 <= i < j < |evidence| :: evidence[i].backend != evidence[j].backend
    ensures LegacyMap(evidence).Keys == set ev | ev in evidence :: ev.backend
    ensures forall ev | ev in evidence :: LegacyMap(evidence)[ev.backend] == TextOf(ev)
  {
    if evidence != [] {
      var n := |evidence| - 1;
      LegacyMapIsEvidence(evidence[..n]);
      assert evidence == evidence[..n] + [evidence[n]];
    }
  }

  /** The selection is empty exactly when no candidate is viable, a selected backend is
      viable and no earlier candidate is, and the legacy map has exactly the rejected ones. */
  lemma SelectionIsFirstViable(spec: LaunchSpec, node: NodeRecord, order: seq<string>, s: Selection)
    requires Candidates(spec.backendPreference, spec.allowBackendFallback) == Some(order)
    requires FirstViable(order, spec, node, s) && s.rejected == LegacyMap(s.evidence)
    ensures s.backend == "" <==> forall b | b in order :: VmObstacle(b, spec, node).Some?
    ensures s.backend != "" ==> s.backend in order && VmObstacle(s.backend, spec, node).None?
    ensures forall b :: b in s.rejected <==> exists j :: 0 <= j < |s.evidence| && order[j] == b
    ensures forall j | 0 <= j < |s.evidence| ::
              s.rejected[order[j]] == TextOf(VmObstacle(order[j], spec, node).value)
  {
    CandidatesFollowPreference(spec.backendPreference, spec.allowBackendFallback);
    if |s.evidence| < |order| {
      assert order[|s.evidence|] in order;
    }
    EvidenceNamesCandidates(spec, node, order, s);
    RejectedAreEvidence(order, s);
    forall j | 0 <= j < |s.evidence|
      ensures s.rejected[order[j]] == TextOf(VmObstacle(order[j], spec, node).value)
    {
      assert s.evidence[j].backend == order[j];
    }
  }

  lemma EvidenceNamesCandidates(spec: LaunchSpec, node: NodeRecord, order: seq<string>, s: Selection)
    requires FirstViable(order, spec, node, s)
    ensures forall j | 0 <= j < |s.evidence| :: s.evidence[j].backend == order[j]
  {
    forall j | 0 <= j < |s.evidence|
      ensures s.evidence[j].backend == order[j]
    {
      NoVmObstacleIff(order[j], spec, node);
    }
  }

  /** The legacy map has the rejected candidates and their texts, and nothing else. */
  lemma RejectedAreEvidence(order: seq<string>, s: Selection)
    requires |s.evidence| <= |order| && s.rejected == LegacyMap(s.evidence)
    requires forall i, j | 0 <= i < j < |order| :: order[i] != order[j]
    requires forall j | 0 <= j < |s.evidence| :: s.evidence[j].backend == order[j]
    ensures forall b :: b in s.rejected <==> exists j :: 0 <= j < |s.evidence| && order[j] == b
    ensures forall j | 0 <= j < |s.evidence| :: s.rejected[order[j]] == TextOf(s.evidence[j])
  {
    LegacyMapIsEvidence(s.evidence);
    forall b
      ensures b in s.rejected <==> exists j :: 0 <= j < |s.evidence| && order[j] == b
    {
      if j :| 0 <= j < |s.evidence| && order[j] == b {
        assert s.evidence[j] in s.evidence;
      }
    }
    forall j | 0 <= j < |s.evidence|
      ensures s.rejected[order[j]] == TextOf(s.evidence[j])
    {
      assert s.evidence[j] in s.evidence;
    }
  }
}
