/** What the control plane knows about a node. */
module NodeRecords {
  datatype CapabilityState = Supported | Unsupported | UnknownSupport | Unavailable

  datatype Capability = Capability(
    state: CapabilityState, provenance: string, reasonCode: string, version: string, isStale: bool)

  datatype Constraint = Constraint(
    constraintType: string, description: string, observedValue: string, expectedValue: string)

  datatype HealthState = Healthy | Warning | DegradedHealth | Unschedulable | Quarantined | UnknownHealth

  datatype NodeRecord = NodeRecord(
    id: string,
    hostname: string,
    architecture: string,
    totalCores: int,
    totalMemoryMB: int,
    health: HealthState,
    activeAlarms: seq<string>,
    compatibilityClass: string,
    compatibilityReasons: seq<string>,
    capabilities: map<string, Capability>,
    constraints: map<string, Constraint>,
    lastCollectionId: string,
    lastCollection: int,
    isStale: bool,
    staleCollectors: seq<string>)

  const KVM_LAUNCH := "kvm_vm_launch"
  const HARDWARE_TPM := "hardware_tpm"
  const CH_BINARY := "cloud_hypervisor_binary_present"
  const QEMU_BINARY := "qemu_binary_present"
  const FC_BINARY := "firecracker_binary_present"
  const FC_TUN := "firecracker_tun_ready"
  const FC_CGROUPS := "firecracker_cgroups_ready"

  /** Present, supported and not stale. */
  predicate Usable(node: NodeRecord, name: string) {
    name in node.capabilities && node.capabilities[name].state.Supported? && !node.capabilities[name].isStale
  }
}
