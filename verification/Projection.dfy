/** From the envelope an agent sends to the control plane's record of the node, and what
    acceptance of that record says about the telemetry it rests on. */
module Projection {
  import opened Wrappers
  import opened NodeRecords
  import opened Evaluation

  datatype CollectorStatus = CollectorStatus(collectorName: string, success: bool)

  /** What an agent sends as provenance: an object, a text, or something else. */
  datatype Provenance = Tagged(entries: map<string, string>) | Plain(text: string) | OtherProvenance

  datatype CapabilityReport = CapabilityReport(
    feature: string, state: CapabilityState, provenance: Provenance,
    reasonCode: Option<string>, version: Option<string>, staleAfterSec: Option<int>)

  datatype ConstraintReport = ConstraintReport(
    constraintType: string, code: string, description: string,
    observedValue: Option<string>, expectedValue: Option<string>)

  datatype Envelope = Envelope(
    collectionId: string, timestampSec: int, nodeId: string,
    compatibilityClass: string, compatibilityReasons: seq<string>,
    hostname: string, architecture: string, cores: int, memoryMB: int,
    health: HealthState, activeAlarms: seq<string>,
    capabilities: seq<CapabilityReport>, constraints: seq<ConstraintReport>, collectorStatuses: seq<CollectorStatus>)

  const MAX_ENVELOPE_AGE_SEC := 300

  predicate Expired(c: CapabilityReport, now: int) {
    c.staleAfterSec.Some? && c.staleAfterSec.value < now
  }

  function CapabilityOf(c: CapabilityReport, text: string, now: int): Capability {
    Capability(c.state, text, OrEmpty(c.reasonCode), OrEmpty(c.version), Expired(c, now))
  }

  /** The texts a provenance may become: of an object, one of its entries, whichever the walk
      over the object ends with. */
  function Renderings(p: Provenance): set<string> {
    match p
    case Tagged(m) => if m == map[] then {"Observed"} else set k | k in m :: k + ": " + m[k]
    case Plain(text) => {text}
    case OtherProvenance => {"Observed"}
  }

  ghost predicate HasOneRendering(p: Provenance) {
    forall x, y | x in Renderings(p) && y in Renderings(p) :: x == y
  }

  ghost predicate Rendered(reports: seq<CapabilityReport>, texts: seq<string>) {
    |texts| == |reports| && forall k | 0 <= k < |reports| :: texts[k] in Renderings(reports[k].provenance)
  }

  function ConstraintOf(c: ConstraintReport): Constraint {
    Constraint(c.constraintType, c.description, OrEmpty(c.observedValue), OrEmpty(c.expectedValue))
  }

  function FailedCollectors(statuses: seq<CollectorStatus>): seq<string> {
    if statuses == [] then []
    else
      var last := statuses[|statuses| - 1];
      FailedCollectors(statuses[..|statuses| - 1]) + if last.success then [] else [last.collectorName]
  }

  function StaleProbes(reports: seq<CapabilityReport>, now: int): seq<string> {
    if reports == [] then []
    else
      var last := reports[|reports| - 1];
      StaleProbes(reports[..|reports| - 1], now) + if Expired(last, now) then [last.feature + "_probe"] else []
  }

  /** A feature reported twice keeps the later report. */
  function CapabilityMap(reports: seq<CapabilityReport>, texts: seq<string>, now: int): map<string, Capability>
    requires |texts| == |reports|
  {
    if reports == [] then map[]
    else
      var n := |reports| - 1;
      CapabilityMap(reports[..n], texts[..n], now)[reports[n].feature := CapabilityOf(reports[n], texts[n], now)]
  }

  function ConstraintMap(reports: seq<ConstraintReport>): map<string, Constraint> {
    if reports == [] then map[]
    else
      var last := reports[|reports| - 1];
      ConstraintMap(reports[..|reports| - 1])[last.code := ConstraintOf(last)]
  }

  function StaleCollectors(env: Envelope, now: int): seq<string> {
    FailedCollectors(env.collectorStatuses) + StaleProbes(env.capabilities, now)
    + if now - env.timestampSec > MAX_ENVELOPE_AGE_SEC then ["GlobalEnvelopeStale"] else []
  }

  function Projected(env: Envelope, texts: seq<string>, now: int): NodeRecord
    requires |texts| == |env.capabilities|
  {
    NodeRecord(env.nodeId, env.hostname, env.architecture, env.cores, env.memoryMB, env.health, env.activeAlarms,
               env.compatibilityClass, env.compatibilityReasons,
               CapabilityMap(env.capabilities, texts, now), ConstraintMap(env.constraints),
               env.collectionId, env.timestampSec, StaleCollectors(env, now) != [], StaleCollectors(env, now))
  }

  /** `node` is a record that the envelope may be projected to. */
  ghost predicate IsProjection(env: Envelope, now: int, node: NodeRecord) {
    exists texts :: Rendered(env.capabilities, texts) && node == Projected(env, texts, now)
  }

  method ProjectEnvelope(env: Envelope, now: int) returns (record: NodeRecord)
    ensures IsProjection(env, now, record)
  {
    var isStale, staleCollectors := CollectFailures(env.collectorStatuses);
    var expired, probes, capabilities, texts := CollectCapabilities(env.capabilities, now);
    isStale, staleCollectors := isStale || expired, staleCollectors + probes;
    var constraints := CollectConstraints(env.constraints);
    if now - env.timestampSec > 300 {
      isStale, staleCollectors := true, staleCollectors + ["GlobalEnvelopeStale"];
    }
    assert staleCollectors == StaleCollectors(env, now);
    record := NodeRecord(env.nodeId, env.hostname, env.architecture, env.cores, env.memoryMB,
                         env.health, env.activeAlarms, env.compatibilityClass, env.compatibilityReasons,
                         capabilities, constraints, env.collectionId, env.timestampSec, isStale, staleCollectors);
    assert record == Projected(env, texts, now);
  }

  /** The walk over an object overwrites the text with each entry. */
  method RenderProvenance(p: Provenance) returns (text: string)
    ensures text in Renderings(p)
  {
    text := "Observed";
    if p.Tagged? {
      var keys := p.entries.Keys;
      while keys != {}
        invariant keys <= p.entries.Keys
        invariant keys == p.entries.Keys ==> text == "Observed"
        invariant keys != p.entries.Keys ==> text in Renderings(p)
        decreases |keys|
      {
        var k :| k in keys;
        keys := keys - {k};
        text := k + ": " + p.entries[k];
      }
    } else if p.Plain? {
      text := p.text;
    }
  }

  method CollectFailures(statuses: seq<CollectorStatus>) returns (isStale: bool, failed: seq<string>)
    ensures failed == FailedCollectors(statuses)
    ensures isStale <==> failed != []
  {
    isStale, failed := false, [];
    for k := 0 to |statuses|
      invariant failed == FailedCollectors(statuses[..k])
      invariant isStale <==> failed != []
    {
      assert statuses[..k + 1][..k] == statuses[..k];
      if !statuses[k].success {
        failed := failed + [statuses[k].collectorName];
        isStale := true;
      }
    }
    assert statuses[..|statuses|] == statuses;
  }

  method ReadReport(report: CapabilityReport, now: int) returns (isStale: bool, text: string, capability: Capability)
    ensures isStale == Expired(report, now) && text in Renderings(report.provenance)
    ensures capability == CapabilityOf(report, text, now)
  {
    isStale := report.staleAfterSec.Some? && report.staleAfterSec.value < now;
    var reason := if report.reasonCode.Some? then report.reasonCode.value else "";
    var version := if report.version.Some? then report.version.value else "";
    text := RenderProvenance(report.provenance);
    capability := Capability(report.state, text, reason, version, isStale);
  }

  method CollectCapabilities(reports: seq<CapabilityReport>, now: int)
    returns (expired: bool, probes: seq<string>, capabilities: map<string, Capability>, ghost texts: seq<string>)
    ensures probes == StaleProbes(reports, now) && (expired <==> probes != [])
    ensures Rendered(reports, texts) && capabilities == CapabilityMap(reports, texts, now)
  {
    expired, probes, capabilities, texts := false, [], map[], [];
    for k := 0 to |reports|
      invariant probes == StaleProbes(reports[..k], now) && (expired <==> probes != [])
      invariant Rendered(reports[..k], texts) && capabilities == CapabilityMap(reports[..k], texts, now)
    {
      assert reports[..k + 1][..k] == reports[..k];
      var isStale, text, capability := ReadReport(reports[k], now);
      if isStale {
        expired := true;
        probes := probes + [reports[k].feature + "_probe"];
      }
      assert (texts + [text])[..k] == texts;
      texts := texts + [text];
      capabilities := capabilities[reports[k].feature := capability];
    }
    assert reports[..|reports|] == reports;
  }

  method CollectConstraints(reports: seq<ConstraintReport>) returns (constraints: map<string, Constraint>)
    ensures constraints == ConstraintMap(reports)
  {
    constraints := map[];
    for k := 0 to |reports|
      invariant constraints == ConstraintMap(reports[..k])
    {
      assert reports[..k + 1][..k] == reports[..k];
      var r := reports[k];
      var observed := if r.observedValue.Some? then r.observedValue.value else "";
      var expected := if r.expectedValue.Some? then r.expectedValue.value else "";
      constraints := constraints[r.code := Constraint(r.constraintType, r.description, observed, expected)];
    }
    assert reports[..|reports|] == reports;
  }

  // ---------- What the record says about the envelope ----------

  lemma {:induction false} FailedCollectorsEmptyIff(statuses: seq<CollectorStatus>)
    ensures FailedCollectors(statuses) == [] <==> forall s | s in statuses :: s.success
  {
    if statuses != [] {
      var n := |statuses| - 1;
      FailedCollectorsEmptyIff(statuses[..n]);
      assert statuses == statuses[..n] + [statuses[n]];
    }
  }

  lemma {:induction false} StaleProbesEmptyIff(reports: seq<CapabilityReport>, now: int)
    ensures StaleProbes(reports, now) == [] <==> forall c | c in reports :: !Expired(c, now)
  {
    if reports != [] {
      var n := |reports| - 1;
      StaleProbesEmptyIff(reports[..n], now);
      assert reports == reports[..n] + [reports[n]];
    }
  }

  /** Report `k` is the last one of its feature. */
  ghost predicate IsLastReport(reports: seq<CapabilityReport>, feature: string, k: nat) {
    k < |reports| && reports[k].feature == feature && forall j | k < j < |reports| :: reports[j].feature != feature
  }

  /** The map holds, for each reported feature and for no other, the last report of it. */
  lemma {:induction false} LastReportWins(reports: seq<CapabilityReport>, texts: seq<string>, now: int, feature: string)
    requires |texts| == |reports|
    ensures var m := CapabilityMap(reports, texts, now);
            && (feature in m <==> exists k: nat :: IsLastReport(reports, feature, k))
            && (forall k: nat | IsLastReport(reports, feature, k) ::
                  m[feature] == CapabilityOf(reports[k], texts[k], now))
  {
    if reports != [] {
      var n := |reports| - 1;
      LastReportWins(reports[..n], texts[..n], now, feature);
      forall k: nat
        ensures IsLastReport(reports, feature, k) <==>
                if reports[n].feature == feature then k == n else IsLastReport(reports[..n], feature, k)
      {
        OneMoreReport(reports, feature, k);
      }
      assert reports[n].feature == feature ==> IsLastReport(reports, feature, n);
    }
  }

  lemma OneMoreReport(reports: seq<CapabilityReport>, feature: string, k: nat)
    requires reports != []
    ensures var n := |reports| - 1;
            IsLastReport(reports, feature, k) <==>
            if reports[n].feature == feature then k == n else IsLastReport(reports[..n], feature, k)
  {
    var n := |reports| - 1;
    if k < n {
      assert reports[..n][k] == reports[k];
      assert forall j | k < j < n :: reports[..n][j] == reports[j];
    }
  }

  /** Two projections of one envelope differ at most in the provenance of capabilities, and not
      even there if every provenance has one rendering. */
  lemma ProjectionsAgree(env: Envelope, now: int, a: NodeRecord, b: NodeRecord, feature: string)
    requires IsProjection(env, now, a) && IsProjection(env, now, b)
    ensures a == b.(capabilities := a.capabilities)
    ensures feature in a.capabilities <==> feature in b.capabilities
    ensures feature in a.capabilities ==>
              var c, d := a.capabilities[feature], b.capabilities[feature];
              && c == d.(provenance := c.provenance)
              && ((forall r | r in env.capabilities :: HasOneRendering(r.provenance)) ==> c == d)
  {
    var s :| Rendered(env.capabilities, s) && a == Projected(env, s, now);
    var t :| Rendered(env.capabilities, t) && b == Projected(env, t, now);
    LastReportWins(env.capabilities, s, now, feature);
    LastReportWins(env.capabilities, t, now, feature);
    if feature in a.capabilities {
      var k: nat :| IsLastReport(env.capabilities, feature, k);
      assert env.capabilities[k] in env.capabilities;
      assert s[k] in Renderings(env.capabilities[k].provenance) && t[k] in Renderings(env.capabilities[k].provenance);
    }
  }

  /** Everything in the envelope that must be in order for the telemetry to be trusted. */
  ghost predicate Trustworthy(env: Envelope, now: int) {
    && (forall s | s in env.collectorStatuses :: s.success)
    && (forall c | c in env.capabilities :: c.staleAfterSec.Some? ==> now <= c.staleAfterSec.value)
    && now - env.timestampSec <= 300
  }

  /** A record is stale exactly when it names a stale collector, and exactly when something
      in the envelope is out of order. */
  lemma StaleIff(env: Envelope, now: int, node: NodeRecord)
    requires IsProjection(env, now, node)
    ensures node.isStale <==> node.staleCollectors != []
    ensures node.isStale <==> !Trustworthy(env, now)
  {
    FailedCollectorsEmptyIff(env.collectorStatuses);
    StaleProbesEmptyIff(env.capabilities, now);
  }

  /** The freshness check at `later` of a record projected at `now`, in terms of the envelope. */
  lemma FreshnessCheckIff(intent: Intent, env: Envelope, now: int, node: NodeRecord, later: int)
    requires IsProjection(env, now, node)
    ensures Evaluated(intent, node, later).freshnessOK <==>
            Trustworthy(env, now) && later - env.timestampSec <= intent.maxTelemetryAgeSec
  {
    StaleIff(env, now, node);
  }

  /** A node that is accepted rests on no stale capability, although the KVM and TPM checks
      never ask whether the capability is stale. */
  lemma AcceptedRestsOnFreshTelemetry(intent: Intent, env: Envelope, now: int, node: NodeRecord, later: int)
    requires IsProjection(env, now, node) && Evaluated(intent, node, later).isEligible
    ensures Trustworthy(env, now) && later - env.timestampSec <= intent.maxTelemetryAgeSec
    ensures forall f | f in node.capabilities :: !node.capabilities[f].isStale
    ensures intent.requiresKvm ==> Usable(node, KVM_LAUNCH)
    ensures intent.requiresTpm ==> Usable(node, HARDWARE_TPM)
    ensures forall f | f in Evaluated(intent, node, later).matched :: Usable(node, f)
  {
    FreshnessCheckIff(intent, env, now, node, later);
    EligibleIff(intent, node, later);
    TrustworthyHasNoStaleCapability(env, now, node);
    forall f | f in Matched(intent.preferredFeatures, node)
      ensures Usable(node, f)
    {
      MatchedAre(intent.preferredFeatures, node, f);
    }
  }

  lemma TrustworthyHasNoStaleCapability(env: Envelope, now: int, node: NodeRecord)
    requires IsProjection(env, now, node) && Trustworthy(env, now)
    ensures forall f | f in node.capabilities :: !node.capabilities[f].isStale
  {
    var texts :| Rendered(env.capabilities, texts) && node == Projected(env, texts, now);
    forall f | f in node.capabilities
      ensures !node.capabilities[f].isStale
    {
      LastReportWins(env.capabilities, texts, now, f);
      var k: nat :| IsLastReport(env.capabilities, f, k);
      assert env.capabilities[k] in env.capabilities;
    }
  }

  // ---------- Field by field ----------

  lemma RecordTellsEnvelope(env: Envelope, now: int, node: NodeRecord)
    requires IsProjection(env, now, node)
    ensures node.id == env.nodeId && node.hostname == env.hostname && node.architecture == env.architecture
    ensures node.totalCores == env.cores && node.totalMemoryMB == env.memoryMB
    ensures node.health == env.health && node.activeAlarms == env.activeAlarms
    ensures node.compatibilityClass == env.compatibilityClass && node.compatibilityReasons == env.compatibilityReasons
    ensures node.lastCollectionId == env.collectionId && node.lastCollection == env.timestampSec
  {
  }

  /** The last report of a feature is what the record says about it: the state as it is, an absent
      reason or version as the empty text, and stale exactly if its expiry has passed. */
  lemma CapabilityTellsLastReport(env: Envelope, now: int, node: NodeRecord, k: nat)
    requires IsProjection(env, now, node) && k < |env.capabilities|
    requires forall j | k < j < |env.capabilities| :: env.capabilities[j].feature != env.capabilities[k].feature
    ensures var r := env.capabilities[k];
            && r.feature in node.capabilities
            && var c := node.capabilities[r.feature];
               && c.state == r.state
               && c.reasonCode == (match r.reasonCode case Some(text) => text case None => "")
               && c.version == (match r.version case Some(text) => text case None => "")
               && (c.isStale <==> r.staleAfterSec.Some? && r.staleAfterSec.value < now)
               && (match r.provenance
                   case Plain(text) => c.provenance == text
                   case OtherProvenance => c.provenance == "Observed"
                   case Tagged(m) => if m == map[] then c.provenance == "Observed"
                                     else exists key | key in m :: c.provenance == key + ": " + m[key])
  {
    var texts :| Rendered(env.capabilities, texts) && node == Projected(env, texts, now);
    LastReportWins(env.capabilities, texts, now, env.capabilities[k].feature);
    assert IsLastReport(env.capabilities, env.capabilities[k].feature, k);
    assert texts[k] in Renderings(env.capabilities[k].provenance);
  }

  lemma {:induction false} LastConstraintWins(reports: seq<ConstraintReport>, k: nat)
    requires k < |reports| && forall j | k < j < |reports| :: reports[j].code != reports[k].code
    ensures var m, r := ConstraintMap(reports), reports[k];
            && r.code in m
            && var c := m[r.code];
               && c.constraintType == r.constraintType && c.description == r.description
               && c.observedValue == (match r.observedValue case Some(text) => text case None => "")
               && c.expectedValue == (match r.expectedValue case Some(text) => text case None => "")
  {
    var n := |reports| - 1;
    if k < n {
      assert reports[..n][k] == reports[k];
      assert forall j | k < j < n :: reports[..n][j] == reports[j];
      LastConstraintWins(reports[..n], k);
    }
  }

  lemma {:induction false} ConstraintsAreReported(reports: seq<ConstraintReport>, code: string)
    ensures code in ConstraintMap(reports) <==> exists r | r in reports :: r.code == code
  {
    if reports != [] {
      var n := |reports| - 1;
      ConstraintsAreReported(reports[..n], code);
      assert reports == reports[..n] + [reports[n]];
    }
  }

  lemma {:induction false} FailedCollectorsAre(statuses: seq<CollectorStatus>, name: string)
    ensures name in FailedCollectors(statuses) <==> exists s | s in statuses :: !s.success && s.collectorName == name
  {
    if statuses != [] {
      var n := |statuses| - 1;
      FailedCollectorsAre(statuses[..n], name);
      assert statuses == statuses[..n] + [statuses[n]];
    }
  }

  lemma {:induction false} StaleProbesAre(reports: seq<CapabilityReport>, now: int, name: string)
    ensures name in StaleProbes(reports, now) <==>
            exists r | r in reports ::
              r.staleAfterSec.Some? && r.staleAfterSec.value < now && name == r.feature + "_probe"
  {
    if reports != [] {
      var n := |reports| - 1;
      StaleProbesAre(reports[..n], now, name);
      assert reports == reports[..n] + [reports[n]];
    }
  }

  /** The names given for stale telemetry: failed collectors, expired probes, and an old envelope. */
  lemma StaleCollectorsAre(env: Envelope, now: int, node: NodeRecord, name: string)
    requires IsProjection(env, now, node)
    ensures name in node.staleCollectors <==>
            || (exists s | s in env.collectorStatuses :: !s.success && s.collectorName == name)
            || (exists r | r in env.capabilities ::
                  r.staleAfterSec.Some? && r.staleAfterSec.value < now && name == r.feature + "_probe")
            || (name == "GlobalEnvelopeStale" && now - env.timestampSec > 300)
  {
    FailedCollectorsAre(env.collectorStatuses, name);
    StaleProbesAre(env.capabilities, now, name);
  }

  /** They come in this order, one name for each. */
  lemma StaleCollectorsInOrder(env: Envelope, now: int, node: NodeRecord,
                               status: CollectorStatus, report: CapabilityReport)
    requires IsProjection(env, now, node)
    requires env.collectorStatuses == [status] && !status.success
    requires env.capabilities == [report] && report.staleAfterSec.Some? && report.staleAfterSec.value < now
    requires now - env.timestampSec > 300
    ensures node.staleCollectors == [status.collectorName, report.feature + "_probe", "GlobalEnvelopeStale"]
  {
    assert env.collectorStatuses[..0] == [] && env.capabilities[..0] == [];
    assert FailedCollectors(env.collectorStatuses) == [status.collectorName];
    assert StaleProbes(env.capabilities, now) == [report.feature + "_probe"];
  }
}
