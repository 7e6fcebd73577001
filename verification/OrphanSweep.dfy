/** The sweep: processes without an execution are recorded as orphans, and orphans that
    are no longer seen are marked as disappeared. */
module OrphanSweep {
  import opened Wrappers
  import opened LaunchSchema
  import opened ExecutionStores
  import opened OrphanMatching

  datatype Classification = UnmanagedBackendProcess | PossiblyManagedButUnlinked | StaleExecutionArtifact

  datatype OrphanReason =
    | ErrOrphanUnmanagedBackendProcess | ErrOrphanPossibleScheduneProcess | ErrOrphanStaleArtifactState

  datatype OrphanStatus = Active | Disappeared

  datatype Orphan = Orphan(
    orphanId: string, backend: string, pid: int, ppid: Option<int>, command: string, args: seq<string>,
    fingerprint: string, executionHint: string, workloadHint: string,
    classification: Classification, status: OrphanStatus, reason: OrphanReason,
    firstSeen: int, lastSeen: int, nodeId: string, recoveryEpoch: string, details: map<string, string>)

  datatype OrphanEvent = OrphanDetected(orphan: Orphan) | OrphanReclassified(orphan: Orphan)

  /** What the orphan store fails to do for one process. */
  datatype Fault = Fault(get: bool, upsert: bool)

  function OrphanId(p: Process): string {
    "orph-" + p.fingerprint
  }

  function ClassifyOrphan(p: Process, m: MatchResult, nodeId: string): Orphan {
    var c := if m.Ambiguous? then PossiblyManagedButUnlinked
             else if p.executionHint != "" then StaleExecutionArtifact
             else UnmanagedBackendProcess;
    var r := if m.Ambiguous? then ErrOrphanPossibleScheduneProcess
             else if p.executionHint != "" then ErrOrphanStaleArtifactState
             else ErrOrphanUnmanagedBackendProcess;
    Orphan(OrphanId(p), p.backend, p.pid, p.ppid, p.command, p.args, p.fingerprint, p.executionHint,
           p.workloadHint, c, Active, r, p.observedAt, p.observedAt, nodeId, "", p.details)
  }

  // ---------- The table operations ----------

  /** On conflict only these columns are rewritten; `firstSeen` and the identity stay. */
  function Upserted(table: map<string, Orphan>, o: Orphan): map<string, Orphan> {
    if o.orphanId in table then
      table[o.orphanId := table[o.orphanId].(pid := o.pid, ppid := o.ppid, classification := o.classification,
                                             status := o.status, reason := o.reason, lastSeen := o.lastSeen,
                                             recoveryEpoch := o.recoveryEpoch, details := o.details)]
    else table[o.orphanId := o]
  }

  function Vanished(table: map<string, Orphan>, observed: seq<string>, now: int): map<string, Orphan> {
    map id | id in table ::
      if table[id].status.Active? && id !in observed then table[id].(status := Disappeared, lastSeen := now)
      else table[id]
  }

  class OrphanStore {
    var orphans: map<string, Orphan>

    method UpsertOrphan(o: Orphan, fails: bool) returns (failed: bool)
      modifies this
      ensures failed == fails
      ensures orphans == if fails then old(orphans) else Upserted(old(orphans), o)
    {
      if !fails {
        if o.orphanId in orphans {
          var row := orphans[o.orphanId];
          row := row.(pid := o.pid, ppid := o.ppid);
          row := row.(classification := o.classification, status := o.status, reason := o.reason);
          row := row.(lastSeen := o.lastSeen, recoveryEpoch := o.recoveryEpoch, details := o.details);
          orphans := orphans[o.orphanId := row];
        } else {
          orphans := orphans[o.orphanId := o];
        }
      }
      return fails;
    }

    method GetOrphan(id: string, fails: bool) returns (found: Option<Orphan>)
      ensures found == if !fails && id in orphans then Some(orphans[id]) else None
    {
      found := if !fails && id in orphans then Some(orphans[id]) else None;
    }

    method MarkMissingAsDisappeared(observed: seq<string>, now: int, fails: bool)
      modifies this
      ensures orphans == if fails then old(orphans) else Vanished(old(orphans), observed, now)
    {
      if !fails {
        orphans := map id | id in orphans ::
          if orphans[id].status == Active && id !in observed then orphans[id].(status := Disappeared, lastSeen := now)
          else orphans[id];
      }
    }
  }

  // ---------- The sweep ----------

  datatype SweepState = SweepState(table: map<string, Orphan>, events: seq<OrphanEvent>, observed: seq<string>)

  function Noticed(table: map<string, Orphan>, o: Orphan, f: Fault): seq<OrphanEvent> {
    if !f.get && o.orphanId in table then
      var existing := table[o.orphanId];
      if existing.classification != o.classification || existing.status != o.status then
        [OrphanReclassified(o.(firstSeen := existing.firstSeen))]
      else []
    else [OrphanDetected(o)]
  }

  /** One process of the sweep. */
  function SweepOne(s: SweepState, p: Process, execs: seq<Execution>, f: Fault, nodeId: string): SweepState {
    var m := MatchOf(p, execs);
    if m.MatchedTo? then s
    else
      var o := ClassifyOrphan(p, m, nodeId);
      SweepState(if f.upsert then s.table else Upserted(s.table, o),
                 s.events + Noticed(s.table, o, f),
                 if f.upsert then s.observed else s.observed + [o.orphanId])
  }

  function SweepAll(s: SweepState, procs: seq<Process>, execs: seq<Execution>, faults: nat -> Fault, nodeId: string)
    : SweepState
  {
    if procs == [] then s
    else
      var n := |procs| - 1;
      SweepOne(SweepAll(s, procs[..n], execs, faults, nodeId), procs[n], execs, faults(n), nodeId)
  }

  function SweepFrom(table: map<string, Orphan>, events: seq<OrphanEvent>, procs: seq<Process>, execs: seq<Execution>,
                     faults: nat -> Fault, nodeId: string): SweepState
  {
    SweepAll(SweepState(table, events, []), procs, execs, faults, nodeId)
  }

  class OrphanSweepService {
    const executions: ExecutionStore
    const store: OrphanStore
    const nodeId: string
    var events: seq<OrphanEvent>

    constructor (executions: ExecutionStore, store: OrphanStore, nodeId: string)
      ensures this.executions == executions && this.store == store && this.nodeId == nodeId && events == []
    {
      this.executions, this.store, this.nodeId, events := executions, store, nodeId, [];
    }

    /** `procs` is None when the enumeration fails; then nothing happens. */
    method SweepOnce(procs: Option<seq<Process>>, faults: nat -> Fault, markFails: bool, now: int)
      returns (execs: seq<Execution>, failed: bool)
      requires executions.Valid()
      modifies this`events, store
      ensures failed == procs.None?
      ensures failed ==> store.orphans == old(store.orphans) && events == old(events)
      ensures !failed ==>
                var s := SweepFrom(old(store.orphans), old(events), procs.value, execs, faults, nodeId);
                && Lists(execs, executions.Contents())
                && events == s.events
                && store.orphans == if markFails then s.table else Vanished(s.table, s.observed, now)
    {
      if procs.None? {
        return [], true;
      }
      execs := executions.ListRecoverableExecutions();
      var observed: seq<string> := [];
      for k := 0 to |procs.value|
        invariant unchanged(executions)
        invariant SweepState(store.orphans, events, observed)
                  == SweepFrom(old(store.orphans), old(events), procs.value[..k], execs, faults, nodeId)
      {
        assert procs.value[..k + 1][..k] == procs.value[..k];
        var p := procs.value[k];
        var m := MatchEnumeratedProcessToExecution(p, execs);
        if m.MatchedTo? {
          continue;
        }
        var orphan := ClassifyOrphan(p, m, nodeId);
        var existing := store.GetOrphan(orphan.orphanId, faults(k).get);
        if existing.Some? {
          orphan := orphan.(firstSeen := existing.value.firstSeen);
          if existing.value.classification != orphan.classification || existing.value.status != orphan.status {
            events := events + [OrphanReclassified(orphan)];
          }
        } else {
          events := events + [OrphanDetected(orphan)];
        }
        var failedUpsert := store.UpsertOrphan(orphan, faults(k).upsert);
        if !failedUpsert {
          observed := observed + [orphan.orphanId];
        }
      }
      assert procs.value[..|procs.value|] == procs.value;
      store.MarkMissingAsDisappeared(observed, now, markFails);
      failed := false;
    }
  }
}
