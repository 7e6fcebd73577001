/** Whether a node may run a workload, and every reason why not. */
module Evaluation {
  import opened NodeRecords

  datatype Intent = Intent(
    workloadId: string, requiredArchitecture: string, maxTelemetryAgeSec: int,
    requiresKvm: bool, requiresTpm: bool, forbiddenConstraints: seq<string>,
    requiredClasses: seq<string>, preferredFeatures: seq<string>)

  datatype RejectionCode =
    | NodeUnhealthy | TelemetryStale | ArchitectureMismatch | CompatibilityClassMismatch
    | MissingKvm | MissingTpm | ForbiddenConstraint(code: string)

  datatype Eligibility = Eligibility(
    nodeId: string, isEligible: bool, codes: seq<RejectionCode>,
    freshnessOK: bool, compatibilityOK: bool, healthOK: bool, matched: seq<string>, alarmWarning: bool)

  predicate Supports(node: NodeRecord, feature: string) {
    feature in node.capabilities && node.capabilities[feature].state.Supported?
  }

  /** The forbidden constraints a node has, in the order the intent lists them. */
  function Violations(forbidden: seq<string>, constraints: map<string, Constraint>): seq<RejectionCode> {
    if forbidden == [] then []
    else
      var code := forbidden[|forbidden| - 1];
      Violations(forbidden[..|forbidden| - 1], constraints)
      + if code in constraints then [ForbiddenConstraint(code)] else []
  }

  /** The preferred features a node supports, in the order the intent lists them. */
  function Matched(features: seq<string>, node: NodeRecord): seq<string> {
    if features == [] then []
    else
      var feature := features[|features| - 1];
      Matched(features[..|features| - 1], node) + if Supports(node, feature) then [feature] else []
  }

  predicate HealthOK(node: NodeRecord) {
    node.health.Healthy? || node.health.Warning?
  }

  predicate FreshnessOK(intent: Intent, node: NodeRecord, now: int) {
    now - node.lastCollection <= intent.maxTelemetryAgeSec && !node.isStale
  }

  predicate ArchitectureOK(intent: Intent, node: NodeRecord) {
    intent.requiredArchitecture == "any" || intent.requiredArchitecture == node.architecture
  }

  predicate KvmOK(intent: Intent, node: NodeRecord) {
    intent.requiresKvm ==> Supports(node, KVM_LAUNCH)
  }

  predicate TpmOK(intent: Intent, node: NodeRecord) {
    intent.requiresTpm ==> Supports(node, HARDWARE_TPM)
  }

  function Unless(ok: bool, code: RejectionCode): seq<RejectionCode> {
    if ok then [] else [code]
  }

  function Codes(intent: Intent, node: NodeRecord, now: int): seq<RejectionCode> {
    Unless(HealthOK(node), NodeUnhealthy)
    + Unless(FreshnessOK(intent, node, now), TelemetryStale)
    + Unless(ArchitectureOK(intent, node), ArchitectureMismatch)
    + Unless(node.compatibilityClass in intent.requiredClasses, CompatibilityClassMismatch)
    + (Unless(KvmOK(intent, node), MissingKvm) + Unless(TpmOK(intent, node), MissingTpm))
    + Violations(intent.forbiddenConstraints, node.constraints)
  }

  function Evaluated(intent: Intent, node: NodeRecord, now: int): Eligibility {
    var codes := Codes(intent, node, now);
    Eligibility(node.id, codes == [], codes, FreshnessOK(intent, node, now),
                node.compatibilityClass in intent.requiredClasses, HealthOK(node),
                Matched(intent.preferredFeatures, node), node.activeAlarms != [])
  }

  method Evaluate(intent: Intent, node: NodeRecord, now: int) returns (r: Eligibility)
    ensures r == Evaluated(intent, node, now)
  {
    var isEligible, healthOK, freshnessOK, compatibilityOK, codes := CheckNode(intent, node, now);
    var hasFeatures, features := MissingFeatures(intent, node);
    var allowed, violations := ForbiddenOnNode(intent.forbiddenConstraints, node.constraints);
    isEligible, codes := isEligible && hasFeatures && allowed, codes + features + violations;
    var matched := SupportedOf(intent.preferredFeatures, node);
    r := Eligibility(node.id, isEligible, codes, freshnessOK, compatibilityOK, healthOK,
                     matched, |node.activeAlarms| > 0);
  }

  method CheckNode(intent: Intent, node: NodeRecord, now: int)
    returns (isEligible: bool, healthOK: bool, freshnessOK: bool, compatibilityOK: bool, codes: seq<RejectionCode>)
    ensures isEligible <==> codes == []
    ensures healthOK == HealthOK(node) && freshnessOK == FreshnessOK(intent, node, now)
    ensures compatibilityOK == (node.compatibilityClass in intent.requiredClasses)
    ensures codes == Unless(healthOK, NodeUnhealthy)
                     + Unless(freshnessOK, TelemetryStale)
                     + Unless(ArchitectureOK(intent, node), ArchitectureMismatch)
                     + Unless(compatibilityOK, CompatibilityClassMismatch)
  {
    isEligible, codes := true, [];
    healthOK := node.health == Healthy || node.health == Warning;
    if !healthOK {
      isEligible, codes := false, codes + [NodeUnhealthy];
    }
    freshnessOK := now - node.lastCollection <= intent.maxTelemetryAgeSec && !node.isStale;
    if !freshnessOK {
      isEligible, codes := false, codes + [TelemetryStale];
    }
    if intent.requiredArchitecture != "any" && intent.requiredArchitecture != node.architecture {
      isEligible, codes := false, codes + [ArchitectureMismatch];
    }
    compatibilityOK := IsOneOf(node.compatibilityClass, intent.requiredClasses);
    if !compatibilityOK {
      isEligible, codes := false, codes + [CompatibilityClassMismatch];
    }
  }

  method MissingFeatures(intent: Intent, node: NodeRecord) returns (isEligible: bool, codes: seq<RejectionCode>)
    ensures isEligible <==> codes == []
    ensures codes == Unless(KvmOK(intent, node), MissingKvm) + Unless(TpmOK(intent, node), MissingTpm)
  {
    isEligible, codes := true, [];
    if intent.requiresKvm {
      if KVM_LAUNCH !in node.capabilities || node.capabilities[KVM_LAUNCH].state != Supported {
        isEligible, codes := false, codes + [MissingKvm];
      }
    }
    if intent.requiresTpm {
      if HARDWARE_TPM !in node.capabilities || node.capabilities[HARDWARE_TPM].state != Supported {
        isEligible, codes := false, codes + [MissingTpm];
      }
    }
  }

  method IsOneOf(class_: string, required: seq<string>) returns (found: bool)
    ensures found <==> class_ in required
  {
    found := false;
    for k := 0 to |required|
      invariant !found && class_ !in required[..k]
    {
      if required[k] == class_ {
        found := true;
        break;
      }
    }
  }

  /** The constraints are a map, walked once for each forbidden code in whatever order the
      keys come; the outcome does not depend on that order. */
  method ForbiddenOnNode(forbidden: seq<string>, constraints: map<string, Constraint>)
    returns (isEligible: bool, codes: seq<RejectionCode>)
    ensures isEligible <==> codes == []
    ensures codes == Violations(forbidden, constraints)
  {
    isEligible, codes := true, [];
    for k := 0 to |forbidden|
      invariant isEligible <==> codes == []
      invariant codes == Violations(forbidden[..k], constraints)
    {
      assert forbidden[..k + 1][..k] == forbidden[..k];
      ghost var before := codes;
      var keys := constraints.Keys;
      while keys != {}
        invariant isEligible <==> codes == []
        invariant keys <= constraints.Keys
        invariant codes == before + if forbidden[k] in constraints.Keys - keys
                                    then [ForbiddenConstraint(forbidden[k])] else []
        decreases |keys|
      {
        var code :| code in keys;
        keys := keys - {code};
        if forbidden[k] == code {
          isEligible, codes := false, codes + [ForbiddenConstraint(code)];
        }
      }
    }
    assert forbidden[..|forbidden|] == forbidden;
  }

  method SupportedOf(features: seq<string>, node: NodeRecord) returns (matched: seq<string>)
    ensures matched == Matched(features, node)
  {
    matched := [];
    for k := 0 to |features|
      invariant matched == Matched(features[..k], node)
    {
      assert features[..k + 1][..k] == features[..k];
      if features[k] in node.capabilities && node.capabilities[features[k]].state == Supported {
        matched := matched + [features[k]];
      }
    }
    assert features[..|features|] == features;
  }

  // ---------- What the codes mean ----------

  lemma {:induction false} ViolationsAre(forbidden: seq<string>, constraints: map<string, Constraint>, c: RejectionCode)
    ensures c in Violations(forbidden, constraints) <==>
            c.ForbiddenConstraint? && c.code in forbidden && c.code in constraints
  {
    if forbidden != [] {
      var n := |forbidden| - 1;
      ViolationsAre(forbidden[..n], constraints, c);
      assert forbidden == forbidden[..n] + [forbidden[n]];
    }
  }

  /** Supported according to the node record, stale or not. */
  ghost predicate Has(node: NodeRecord, name: string) {
    name in node.capabilities && node.capabilities[name].state == Supported
  }

  /** Each rejection code is given exactly when its own check fails. */
  lemma CodesAreTheFailedChecks(intent: Intent, node: NodeRecord, now: int, c: RejectionCode)
    ensures c in Evaluated(intent, node, now).codes <==>
            match c
            case NodeUnhealthy => node.health != Healthy && node.health != Warning
            case TelemetryStale => now - node.lastCollection > intent.maxTelemetryAgeSec || node.isStale
            case ArchitectureMismatch =>
              intent.requiredArchitecture != "any" && intent.requiredArchitecture != node.architecture
            case CompatibilityClassMismatch => node.compatibilityClass !in intent.requiredClasses
            case MissingKvm => intent.requiresKvm && !Has(node, "kvm_vm_launch")
            case MissingTpm => intent.requiresTpm && !Has(node, "hardware_tpm")
            case ForbiddenConstraint(code) => code in intent.forbiddenConstraints && code in node.constraints
  {
    ViolationsAre(intent.forbiddenConstraints, node.constraints, c);
  }

  /** The place of a code in the list of checks. */
  function Rank(c: RejectionCode): nat {
    match c
    case NodeUnhealthy => 0
    case TelemetryStale => 1
    case ArchitectureMismatch => 2
    case CompatibilityClassMismatch => 3
    case MissingKvm => 4
    case MissingTpm => 5
    case ForbiddenConstraint(_) => 6
  }

  ghost predicate Ranked(codes: seq<RejectionCode>, below: nat) {
    && (forall i | 0 <= i < |codes| :: Rank(codes[i]) < below)
    && (forall i, j | 0 <= i < j < |codes| :: Rank(codes[i]) < Rank(codes[j]) || codes[i].ForbiddenConstraint?)
  }

  lemma RankedUnless(codes: seq<RejectionCode>, ok: bool, c: RejectionCode)
    requires Ranked(codes, Rank(c))
    ensures Ranked(codes + Unless(ok, c), Rank(c) + 1)
  {
  }

  /** Codes come in the order of the checks, and none but the forbidden constraints repeats. */
  lemma CodesAreRanked(intent: Intent, node: NodeRecord, now: int)
    ensures Ranked(Evaluated(intent, node, now).codes, 7)
  {
    var first := FirstChecks(HealthOK(node), FreshnessOK(intent, node, now), ArchitectureOK(intent, node),
                             node.compatibilityClass in intent.requiredClasses);
    RankedFirstChecks(HealthOK(node), FreshnessOK(intent, node, now), ArchitectureOK(intent, node),
                      node.compatibilityClass in intent.requiredClasses);
    RankedFeatures(first, KvmOK(intent, node), TpmOK(intent, node));
    RankedViolations(first + (Unless(KvmOK(intent, node), MissingKvm) + Unless(TpmOK(intent, node), MissingTpm)),
                     intent.forbiddenConstraints, node.constraints);
  }

  ghost function FirstChecks(health: bool, recent: bool, architecture: bool, class_: bool): seq<RejectionCode> {
    Unless(health, NodeUnhealthy) + Unless(recent, TelemetryStale)
    + Unless(architecture, ArchitectureMismatch) + Unless(class_, CompatibilityClassMismatch)
  }

  lemma RankedFirstChecks(health: bool, recent: bool, architecture: bool, class_: bool)
    ensures Ranked(FirstChecks(health, recent, architecture, class_), 4)
  {
    var a := Unless(health, NodeUnhealthy);
    RankedUnless(a, recent, TelemetryStale);
    var b := a + Unless(recent, TelemetryStale);
    RankedUnless(b, architecture, ArchitectureMismatch);
    RankedUnless(b + Unless(architecture, ArchitectureMismatch), class_, CompatibilityClassMismatch);
  }

  lemma RankedFeatures(codes: seq<RejectionCode>, kvm: bool, tpm: bool)
    requires Ranked(codes, 4)
    ensures Ranked(codes + (Unless(kvm, MissingKvm) + Unless(tpm, MissingTpm)), 6)
  {
    var k, t := Unless(kvm, MissingKvm), Unless(tpm, MissingTpm);
    RankedUnless(codes, kvm, MissingKvm);
    RankedUnless(codes + k, tpm, MissingTpm);
    assert codes + k + t == codes + (k + t);
  }

  lemma RankedViolations(codes: seq<RejectionCode>, forbidden: seq<string>, constraints: map<string, Constraint>)
    requires Ranked(codes, 6)
    ensures Ranked(codes + Violations(forbidden, constraints), 7)
  {
    var violations := Violations(forbidden, constraints);
    forall i | 0 <= i < |violations|
      ensures violations[i].ForbiddenConstraint?
    {
      ViolationsAre(forbidden, constraints, violations[i]);
    }
  }

  /** The forbidden constraints of a node, in the order of the intent. */
  lemma {:induction false} ViolationsConcat(a: seq<string>, b: seq<string>, constraints: map<string, Constraint>)
    ensures Violations(a + b, constraints) == Violations(a, constraints) + Violations(b, constraints)
  {
    if b == [] {
      assert a + b == a;
    } else {
      var n := |b| - 1;
      assert (a + b)[..|a + b| - 1] == a + b[..n];
      ViolationsConcat(a, b[..n], constraints);
    }
  }

  /** A node is eligible exactly when every check passes. */
  lemma EligibleIff(intent: Intent, node: NodeRecord, now: int)
    ensures Evaluated(intent, node, now).isEligible <==>
            && (node.health == Healthy || node.health == Warning)
            && now - node.lastCollection <= intent.maxTelemetryAgeSec && !node.isStale
            && (intent.requiredArchitecture == "any" || intent.requiredArchitecture == node.architecture)
            && node.compatibilityClass in intent.requiredClasses
            && (intent.requiresKvm ==> Has(node, "kvm_vm_launch"))
            && (intent.requiresTpm ==> Has(node, "hardware_tpm"))
            && forall code | code in intent.forbiddenConstraints :: code !in node.constraints
  {
    var violations := Violations(intent.forbiddenConstraints, node.constraints);
    forall code
      ensures ForbiddenConstraint(code) in violations <==>
              code in intent.forbiddenConstraints && code in node.constraints
    {
      ViolationsAre(intent.forbiddenConstraints, node.constraints, ForbiddenConstraint(code));
    }
    if violations != [] {
      ViolationsAre(intent.forbiddenConstraints, node.constraints, violations[0]);
    }
  }

  /** What else the result shows. */
  lemma ResultShows(intent: Intent, node: NodeRecord, now: int, feature: string)
    ensures var r := Evaluated(intent, node, now);
            && r.nodeId == node.id
            && (r.healthOK <==> node.health == Healthy || node.health == Warning)
            && (r.freshnessOK <==> now - node.lastCollection <= intent.maxTelemetryAgeSec && !node.isStale)
            && (r.compatibilityOK <==> node.compatibilityClass in intent.requiredClasses)
            && (r.alarmWarning <==> node.activeAlarms != [])
            && (feature in r.matched <==> feature in intent.preferredFeatures && Has(node, feature))
  {
    MatchedAre(intent.preferredFeatures, node, feature);
  }

  lemma {:induction false} MatchedAre(features: seq<string>, node: NodeRecord, f: string)
    ensures f in Matched(features, node) <==> f in features && Has(node, f)
  {
    if features != [] {
      var n := |features| - 1;
      MatchedAre(features[..n], node, f);
      assert features == features[..n] + [features[n]];
    }
  }

  /** At most the preferred features are matched, and all of them only if all are supported. */
  lemma {:induction false} MatchedCount(features: seq<string>, node: NodeRecord)
    ensures |Matched(features, node)| <= |features|
    ensures |Matched(features, node)| == |features| <==> forall f | f in features :: Supports(node, f)
  {
    if features != [] {
      var n := |features| - 1;
      MatchedCount(features[..n], node);
      assert features == features[..n] + [features[n]];
    }
  }
}
