/** What the orphan table means after a sweep, and over any number of sweeps. */
module OrphanTheorems {
  import opened Wrappers
  import opened LaunchSchema
  import opened ExecutionStores
  import opened OrphanMatching
  import opened OrphanSweep

  function NoFaults(): nat -> Fault {
    n => Fault(false, false)
  }

  /** The orphan ids of the processes that no execution accounts for. */
  ghost function UnmatchedIds(procs: seq<Process>, execs: seq<Execution>): set<string> {
    set p | p in procs && !MatchOf(p, execs).MatchedTo? :: OrphanId(p)
  }

  function Detections(events: seq<OrphanEvent>, id: string): nat {
    if events == [] then 0
    else
      var last := events[|events| - 1];
      Detections(events[..|events| - 1], id) + if last.OrphanDetected? && last.orphan.orphanId == id then 1 else 0
  }

  // ---------- One sweep ----------

  /** What the loop has done after some processes, all of them seen at `seen`. */
  ghost predicate SweptSo(s0: SweepState, s: SweepState, ids: set<string>, seen: int) {
    RowsSwept(s0, s, ids, seen) && DetectionsSwept(s0, s, ids)
  }

  ghost predicate RowsSwept(s0: SweepState, s: SweepState, ids: set<string>, seen: int) {
    && s.table.Keys == s0.table.Keys + ids
    && (forall id :: id in s.observed <==> id in ids)
    && (forall id | id in s0.table && id !in ids :: s.table[id] == s0.table[id])
    && (forall id | id in ids :: s.table[id].status.Active? && s.table[id].lastSeen == seen)
    && (forall id | id in ids :: s.table[id].firstSeen == if id in s0.table then s0.table[id].firstSeen else seen)
  }

  ghost predicate DetectionsSwept(s0: SweepState, s: SweepState, ids: set<string>) {
    forall id :: Detections(s.events, id)
                 == Detections(s0.events, id) + if id in ids && id !in s0.table then 1 else 0
  }

  lemma {:induction false} SweepAllFacts(s0: SweepState, procs: seq<Process>, execs: seq<Execution>,
                                         nodeId: string, seen: int)
    requires s0.observed == []
    requires forall p | p in procs :: p.observedAt == seen
    ensures SweptSo(s0, SweepAll(s0, procs, execs, NoFaults(), nodeId), UnmatchedIds(procs, execs), seen)
  {
    if procs == [] {
      assert UnmatchedIds(procs, execs) == {};
    } else {
      var n := |procs| - 1;
      SweepAllFacts(s0, procs[..n], execs, nodeId, seen);
      OneMoreId(procs, execs);
      var s := SweepAll(s0, procs[..n], execs, NoFaults(), nodeId);
      if !MatchOf(procs[n], execs).MatchedTo? {
        SweepOneFacts(s0, s, UnmatchedIds(procs[..n], execs), procs[n], execs, nodeId, seen);
      }
    }
  }

  lemma OneMoreId(procs: seq<Process>, execs: seq<Execution>)
    requires procs != []
    ensures var n := |procs| - 1;
            UnmatchedIds(procs, execs) ==
            UnmatchedIds(procs[..n], execs) + if MatchOf(procs[n], execs).MatchedTo? then {} else {OrphanId(procs[n])}
  {
    var n := |procs| - 1;
    assert forall p :: p in procs <==> p in procs[..n] || p == procs[n];
  }

  lemma SweepOneFacts(s0: SweepState, s: SweepState, ids: set<string>, p: Process, execs: seq<Execution>,
                      nodeId: string, seen: int)
    requires SweptSo(s0, s, ids, seen) && !MatchOf(p, execs).MatchedTo? && p.observedAt == seen
    ensures SweptSo(s0, SweepOne(s, p, execs, Fault(false, false), nodeId), ids + {OrphanId(p)}, seen)
  {
    SweepOneRows(s0, s, ids, p, execs, nodeId, seen);
    SweepOneDetections(s0, s, ids, p, execs, nodeId, seen);
  }

  lemma SweepOneRows(s0: SweepState, s: SweepState, ids: set<string>, p: Process, execs: seq<Execution>,
                     nodeId: string, seen: int)
    requires RowsSwept(s0, s, ids, seen) && !MatchOf(p, execs).MatchedTo? && p.observedAt == seen
    ensures RowsSwept(s0, SweepOne(s, p, execs, Fault(false, false), nodeId), ids + {OrphanId(p)}, seen)
  {
    UpsertSweepsRow(s0, s, ids, ClassifyOrphan(p, MatchOf(p, execs), nodeId), seen,
                    SweepOne(s, p, execs, Fault(false, false), nodeId).events);
  }

  lemma UpsertSweepsRow(s0: SweepState, s: SweepState, ids: set<string>, o: Orphan, seen: int, events: seq<OrphanEvent>)
    requires RowsSwept(s0, s, ids, seen)
    requires o.status.Active? && o.firstSeen == seen && o.lastSeen == seen
    ensures RowsSwept(s0, SweepState(Upserted(s.table, o), events, s.observed + [o.orphanId]), ids + {o.orphanId}, seen)
  {
  }

  lemma SweepOneDetections(s0: SweepState, s: SweepState, ids: set<string>, p: Process, execs: seq<Execution>,
                           nodeId: string, seen: int)
    requires SweptSo(s0, s, ids, seen) && !MatchOf(p, execs).MatchedTo?
    ensures DetectionsSwept(s0, SweepOne(s, p, execs, Fault(false, false), nodeId), ids + {OrphanId(p)})
  {
    var o := ClassifyOrphan(p, MatchOf(p, execs), nodeId);
    var more := Noticed(s.table, o, Fault(false, false));
    var s' := SweepOne(s, p, execs, Fault(false, false), nodeId);
    assert s'.events == s.events + more;
    forall id
      ensures Detections(s'.events, id)
           == Detections(s0.events, id) + if id in ids + {o.orphanId} && id !in s0.table then 1 else 0
    {
      DetectionsNoticed(s.table, o, id);
      Counted(s.events, more, id, Detections(s0.events, id), id in ids && id !in s0.table,
              id == o.orphanId && id !in s.table, id in ids + {o.orphanId} && id !in s0.table);
    }
  }

  /** An event stream that has counted an id at most once so far, and what one step adds. */
  lemma Counted(events: seq<OrphanEvent>, more: seq<OrphanEvent>, id: string, before: nat,
                counted: bool, stored: bool, now: bool)
    requires |more| <= 1
    requires Detections(events, id) == before + if counted then 1 else 0
    requires Detections(more, id) == if stored then 1 else 0
    requires now == (counted || stored) && !(counted && stored)
    ensures Detections(events + more, id) == before + if now then 1 else 0
  {
    DetectionsAppend(events, more, id);
  }

  lemma DetectionsNoticed(table: map<string, Orphan>, o: Orphan, id: string)
    ensures var more := Noticed(table, o, Fault(false, false));
            && |more| <= 1
            && Detections(more, id) == if id == o.orphanId && id !in table then 1 else 0
  {
    var more := Noticed(table, o, Fault(false, false));
    if more != [] {
      assert more[..0] == [];
    }
  }

  lemma DetectionsAppend(events: seq<OrphanEvent>, more: seq<OrphanEvent>, id: string)
    requires |more| <= 1
    ensures Detections(events + more, id) == Detections(events, id) + Detections(more, id)
  {
    if more == [] {
      assert events + more == events;
    } else {
      assert (events + more)[..|events|] == events && more[..0] == [];
    }
  }

  /** The orphan ids of the unmatched processes that the store accepted at least once. */
  ghost function StoredIds(procs: seq<Process>, execs: seq<Execution>, faults: nat -> Fault): set<string> {
    set k | 0 <= k < |procs| && !MatchOf(procs[k], execs).MatchedTo? && !faults(k).upsert :: OrphanId(procs[k])
  }

  /** What the loop has stored, whatever failed. */
  ghost predicate RowsStored(s0: SweepState, s: SweepState, ids: set<string>) {
    && s.table.Keys == s0.table.Keys + ids
    && (forall id :: id in s.observed <==> id in ids)
    && (forall id | id in s0.table && id !in ids :: s.table[id] == s0.table[id])
    && (forall id | id in ids :: s.table[id].status.Active?)
  }

  lemma {:induction false} SweepAllStores(s0: SweepState, procs: seq<Process>, execs: seq<Execution>,
                                          faults: nat -> Fault, nodeId: string)
    requires s0.observed == []
    ensures RowsStored(s0, SweepAll(s0, procs, execs, faults, nodeId), StoredIds(procs, execs, faults))
  {
    if procs == [] {
      assert StoredIds(procs, execs, faults) == {};
    } else {
      var n := |procs| - 1;
      SweepAllStores(s0, procs[..n], execs, faults, nodeId);
      OneMoreStoredId(procs, execs, faults);
      var s := SweepAll(s0, procs[..n], execs, faults, nodeId);
      SweepOneStores(s0, s, StoredIds(procs[..n], execs, faults), procs[n], execs, faults(n), nodeId);
    }
  }

  lemma OneMoreStoredId(procs: seq<Process>, execs: seq<Execution>, faults: nat -> Fault)
    requires procs != []
    ensures var n := |procs| - 1;
            StoredIds(procs, execs, faults) ==
            StoredIds(procs[..n], execs, faults)
            + if MatchOf(procs[n], execs).MatchedTo? || faults(n).upsert then {} else {OrphanId(procs[n])}
  {
    var n := |procs| - 1;
    var front, all := StoredIds(procs[..n], execs, faults), StoredIds(procs, execs, faults);
    forall id | id in all
      ensures id in front || (id == OrphanId(procs[n]) && !MatchOf(procs[n], execs).MatchedTo? && !faults(n).upsert)
    {
      var k :| 0 <= k < |procs| && OrphanId(procs[k]) == id
               && !MatchOf(procs[k], execs).MatchedTo? && !faults(k).upsert;
      assert k < n ==> procs[..n][k] == procs[k];
    }
    forall id | id in front
      ensures id in all
    {
      var k :| 0 <= k < n && OrphanId(procs[..n][k]) == id
               && !MatchOf(procs[..n][k], execs).MatchedTo? && !faults(k).upsert;
      assert procs[..n][k] == procs[k];
    }
  }

  lemma SweepOneStores(s0: SweepState, s: SweepState, ids: set<string>, p: Process, execs: seq<Execution>,
                       f: Fault, nodeId: string)
    requires RowsStored(s0, s, ids)
    ensures RowsStored(s0, SweepOne(s, p, execs, f, nodeId),
                       ids + if MatchOf(p, execs).MatchedTo? || f.upsert then {} else {OrphanId(p)})
  {
  }

  ghost function ActiveIds(table: map<string, Orphan>): set<string> {
    set id | id in table && table[id].status.Active?
  }

  /** Whatever the store failed to do for single processes, once the missing rows are marked the
      Active orphans are exactly the unmatched processes that were stored, and a row that was not
      stored is otherwise left alone. If the marking fails, the earlier Active rows stay as well. */
  lemma ActiveDespiteFaults(table: map<string, Orphan>, events: seq<OrphanEvent>, procs: seq<Process>,
                            execs: seq<Execution>, faults: nat -> Fault, nodeId: string, now: int)
    ensures var s := SweepFrom(table, events, procs, execs, faults, nodeId);
            var stored := StoredIds(procs, execs, faults);
            var table' := Vanished(s.table, s.observed, now);
            && ActiveIds(table') == stored
            && ActiveIds(s.table) == ActiveIds(table) + stored
            && table'.Keys == s.table.Keys == table.Keys + stored
            && (forall id | id in table && id !in stored ::
                  table'[id] == if table[id].status.Active? then table[id].(status := Disappeared, lastSeen := now)
                                else table[id])
  {
    SweepAllStores(SweepState(table, events, []), procs, execs, faults, nodeId);
    var s := SweepFrom(table, events, procs, execs, faults, nodeId);
    MarkedRows(SweepState(table, events, []), s, StoredIds(procs, execs, faults), now);
    assert forall id :: id in ActiveIds(s.table) <==> id in ActiveIds(table) || id in StoredIds(procs, execs, faults);
  }

  lemma MarkedRows(s0: SweepState, s: SweepState, stored: set<string>, now: int)
    requires RowsStored(s0, s, stored)
    ensures var table' := Vanished(s.table, s.observed, now);
            && ActiveIds(table') == stored
            && table'.Keys == s.table.Keys
            && (forall id | id in s0.table && id !in stored ::
                  table'[id] == if s0.table[id].status.Active?
                                then s0.table[id].(status := Disappeared, lastSeen := now) else s0.table[id])
  {
    var table' := Vanished(s.table, s.observed, now);
    assert table'.Keys == s.table.Keys;
    forall id
      ensures id in ActiveIds(table') <==> id in stored
    {
      assert id in stored ==> id in s.table && s.table[id].status.Active?;
    }
  }

  lemma NothingFails(procs: seq<Process>, execs: seq<Execution>)
    ensures StoredIds(procs, execs, NoFaults()) == UnmatchedIds(procs, execs)
  {
    forall p | p in procs && !MatchOf(p, execs).MatchedTo?
      ensures OrphanId(p) in StoredIds(procs, execs, NoFaults())
    {
      var k :| 0 <= k < |procs| && procs[k] == p;
      assert !NoFaults()(k).upsert;
    }
  }

  /** After a sweep without store errors the Active orphans are exactly the unmatched
      processes; a row that was not seen is otherwise left alone. */
  lemma ActiveMeansUnmatched(table: map<string, Orphan>, events: seq<OrphanEvent>, procs: seq<Process>,
                             execs: seq<Execution>, nodeId: string, now: int)
    ensures var s := SweepFrom(table, events, procs, execs, NoFaults(), nodeId);
            var table' := Vanished(s.table, s.observed, now);
            && ActiveIds(table') == UnmatchedIds(procs, execs)
            && table'.Keys == table.Keys + UnmatchedIds(procs, execs)
            && (forall id | id in table && id !in UnmatchedIds(procs, execs) ::
                  table'[id] == if table[id].status.Active? then table[id].(status := Disappeared, lastSeen := now)
                                else table[id])
  {
    ActiveDespiteFaults(table, events, procs, execs, NoFaults(), nodeId, now);
    NothingFails(procs, execs);
  }

  /** Every process is accounted for: it belongs to one recoverable execution of the store,
      or its orphan row is Active. */
  lemma EveryProcessIsAccountedFor(table: map<string, Orphan>, events: seq<OrphanEvent>, procs: seq<Process>,
                                   execs: seq<Execution>, rows: map<string, Execution>,
                                   nodeId: string, now: int, p: Process)
    requires Lists(execs, rows) && p in procs
    ensures var s := SweepFrom(table, events, procs, execs, NoFaults(), nodeId);
            var table' := Vanished(s.table, s.observed, now);
            match MatchOf(p, execs)
            case MatchedTo(id) =>
              id in rows && !IsTerminal(rows[id].state) && (ExactHit(p, rows[id]) || WeakHit(p, rows[id]))
            case _ => OrphanId(p) in table' && table'[OrphanId(p)].status.Active?
  {
    ActiveMeansUnmatched(table, events, procs, execs, nodeId, now);
    MatchIsOrderFree(p, execs, rows);
    if !MatchOf(p, execs).MatchedTo? {
      assert OrphanId(p) in UnmatchedIds(procs, execs);
    } else if p.executionHint != "" && p.executionHint in rows && !IsTerminal(rows[p.executionHint].state) {
      ListedIff(execs, rows, p.executionHint);
    }
  }

  /** Why a process is an orphan: a hint that names no recoverable execution, several PID
      matches, or nothing that links it to an execution at all. */
  lemma ClassificationMeans(p: Process, execs: seq<Execution>, rows: map<string, Execution>, nodeId: string)
    requires Lists(execs, rows) && !MatchOf(p, execs).MatchedTo?
    ensures var c := ClassifyOrphan(p, MatchOf(p, execs), nodeId).classification;
            var weak := WeakCandidates(p, rows);
            && (c.PossiblyManagedButUnlinked? <==> |weak| > 1)
            && (c.StaleExecutionArtifact? <==> weak == {} && p.executionHint != "")
            && (c.UnmanagedBackendProcess? <==> weak == {} && p.executionHint == "")
    ensures ClassifyOrphan(p, MatchOf(p, execs), nodeId).reason ==
            if |WeakCandidates(p, rows)| > 1 then ErrOrphanPossibleScheduneProcess
            else if p.executionHint != "" then ErrOrphanStaleArtifactState
            else ErrOrphanUnmanagedBackendProcess
    ensures p.executionHint != "" && p.executionHint in rows ==> IsTerminal(rows[p.executionHint].state)
  {
    MatchIsOrderFree(p, execs, rows);
  }

  /** `row` shows what this sweep saw of `p`. */
  ghost predicate Shows(row: Orphan, p: Process, execs: seq<Execution>, nodeId: string) {
    var o := ClassifyOrphan(p, MatchOf(p, execs), nodeId);
    && !MatchOf(p, execs).MatchedTo? && OrphanId(p) == row.orphanId && row.status.Active?
    && row.pid == p.pid && row.ppid == p.ppid && row.details == p.details && row.lastSeen == p.observedAt
    && row.classification == o.classification && row.reason == o.reason
  }

  /** Each row stands under its own id. */
  ghost predicate Keyed(table: map<string, Orphan>) {
    forall id | id in table :: table[id].orphanId == id
  }

  /** Every row that is Active after a sweep without store errors shows a process of that sweep. */
  lemma ActiveRowsShowProcesses(table: map<string, Orphan>, events: seq<OrphanEvent>, procs: seq<Process>,
                                execs: seq<Execution>, nodeId: string, now: int, id: string)
    requires Keyed(table)
    ensures var s := SweepFrom(table, events, procs, execs, NoFaults(), nodeId);
            var table' := Vanished(s.table, s.observed, now);
            id in table' && table'[id].status.Active? ==> exists p | p in procs :: Shows(table'[id], p, execs, nodeId)
  {
    ActiveMeansUnmatched(table, events, procs, execs, nodeId, now);
    var s := SweepFrom(table, events, procs, execs, NoFaults(), nodeId);
    var table' := Vanished(s.table, s.observed, now);
    if id in table' && table'[id].status.Active? {
      assert id in ActiveIds(table');
      StoredRowsShowProcesses(SweepState(table, events, []), procs, execs, nodeId, id);
      assert table'[id] == s.table[id];
    }
  }

  lemma {:induction false} StoredRowsShowProcesses(s0: SweepState, procs: seq<Process>, execs: seq<Execution>,
                                                   nodeId: string, id: string)
    requires Keyed(s0.table) && id in UnmatchedIds(procs, execs)
    ensures var table := SweepAll(s0, procs, execs, NoFaults(), nodeId).table;
            id in table && exists p | p in procs :: Shows(table[id], p, execs, nodeId)
  {
    var n := |procs| - 1;
    var last := procs[n];
    OneMoreId(procs, execs);
    SweepKeepsKeys(s0, procs[..n], execs, NoFaults(), nodeId);
    var front := SweepAll(s0, procs[..n], execs, NoFaults(), nodeId).table;
    var table := SweepAll(s0, procs, execs, NoFaults(), nodeId).table;
    if !MatchOf(last, execs).MatchedTo? && OrphanId(last) == id {
      assert last in procs && Shows(table[id], last, execs, nodeId);
    } else {
      StoredRowsShowProcesses(s0, procs[..n], execs, nodeId, id);
      var p :| p in procs[..n] && Shows(front[id], p, execs, nodeId);
      assert p in procs && Shows(table[id], p, execs, nodeId);
    }
  }

  lemma {:induction false} SweepKeepsKeys(s: SweepState, procs: seq<Process>, execs: seq<Execution>,
                                          faults: nat -> Fault, nodeId: string)
    requires Keyed(s.table)
    ensures Keyed(SweepAll(s, procs, execs, faults, nodeId).table)
  {
    if procs != [] {
      SweepKeepsKeys(s, procs[..|procs| - 1], execs, faults, nodeId);
    }
  }

  // ---------- Store errors ----------

  /** Whatever the store fails to do, a sweep removes no row and changes no first sighting. */
  lemma {:induction false} FaultsKeepFirstSeen(s: SweepState, procs: seq<Process>, execs: seq<Execution>,
                                               faults: nat -> Fault, nodeId: string, now: int, id: string)
    requires id in s.table
    ensures var s' := SweepAll(s, procs, execs, faults, nodeId);
            && id in s'.table
            && s'.table[id].firstSeen == s.table[id].firstSeen
            && s'.table[id].fingerprint == s.table[id].fingerprint
            && Vanished(s'.table, s'.observed, now)[id].firstSeen == s.table[id].firstSeen
  {
    if procs != [] {
      FaultsKeepFirstSeen(s, procs[..|procs| - 1], execs, faults, nodeId, now, id);
    }
  }

  // ---------- Many sweeps ----------

  /** One sweep: what was enumerated at `seen`, what was recoverable, and when it began. */
  datatype Sweep = Sweep(procs: seq<Process>, execs: seq<Execution>, seen: int, now: int)

  datatype Tables = Tables(orphans: map<string, Orphan>, events: seq<OrphanEvent>)

  function AfterSweep(t: Tables, w: Sweep, nodeId: string): Tables {
    var s := SweepFrom(t.orphans, t.events, w.procs, w.execs, NoFaults(), nodeId);
    Tables(Vanished(s.table, s.observed, w.now), s.events)
  }

  function AfterSweeps(sweeps: seq<Sweep>, nodeId: string): Tables {
    if sweeps == [] then Tables(map[], [])
    else AfterSweep(AfterSweeps(sweeps[..|sweeps| - 1], nodeId), sweeps[|sweeps| - 1], nodeId)
  }

  ghost function Sighted(w: Sweep): set<string> {
    UnmatchedIds(w.procs, w.execs)
  }

  ghost function EverSighted(sweeps: seq<Sweep>): set<string> {
    if sweeps == [] then {}
    else EverSighted(sweeps[..|sweeps| - 1]) + Sighted(sweeps[|sweeps| - 1])
  }

  /** When an orphan was first seen. */
  ghost function FirstSighting(sweeps: seq<Sweep>, id: string): int
    requires id in EverSighted(sweeps)
  {
    var front, w := sweeps[..|sweeps| - 1], sweeps[|sweeps| - 1];
    if id in EverSighted(front) then FirstSighting(front, id) else w.seen
  }

  /** Each sweep reads one enumeration time, and the clock never goes back. */
  ghost predicate Timed(sweeps: seq<Sweep>) {
    sweeps == [] ||
    (var front, w := sweeps[..|sweeps| - 1], sweeps[|sweeps| - 1];
     && Timed(front)
     && LastTick(front) <= w.now <= w.seen
     && forall p | p in w.procs :: p.observedAt == w.seen)
  }

  function LastTick(sweeps: seq<Sweep>): int {
    if sweeps == [] then 0 else sweeps[|sweeps| - 1].seen
  }

  /** The orphan table is the history of sightings: its rows are the ids ever seen, each with
      the time of its first sighting and with exactly one detection event. */
  ghost predicate TellsHistory(t: Tables, sweeps: seq<Sweep>) {
    && t.orphans.Keys == EverSighted(sweeps)
    && (forall id | id in t.orphans ::
          t.orphans[id].firstSeen == FirstSighting(sweeps, id) <= t.orphans[id].lastSeen <= LastTick(sweeps))
    && (forall id :: Detections(t.events, id) == if id in t.orphans then 1 else 0)
  }

  /** What one more sweep does to the rows: none is removed, first sightings stay, last
      sightings never go back, and a disappeared orphan is frozen until it is seen again. */
  ghost predicate RowsGoOn(before: map<string, Orphan>, after: map<string, Orphan>, sighted: set<string>) {
    forall id | id in before ::
      && id in after
      && after[id].firstSeen == before[id].firstSeen
      && before[id].lastSeen <= after[id].lastSeen
      && (before[id].status.Disappeared? && id !in sighted ==> after[id] == before[id])
      && (after[id].status.Active? <==> id in sighted)
  }

  lemma {:induction false} SweepsTellHistory(sweeps: seq<Sweep>, nodeId: string)
    requires Timed(sweeps)
    ensures TellsHistory(AfterSweeps(sweeps, nodeId), sweeps)
  {
    if sweeps != [] {
      var front, w := sweeps[..|sweeps| - 1], sweeps[|sweeps| - 1];
      SweepsTellHistory(front, nodeId);
      OneMoreSweep(AfterSweeps(front, nodeId), sweeps, nodeId);
    }
  }

  /** A row after one more sweep, given what the sweep's loop has done. */
  lemma RowHistory(t: Tables, s: SweepState, sweeps: seq<Sweep>, id: string)
    requires sweeps != [] && Timed(sweeps)
    requires TellsHistory(t, sweeps[..|sweeps| - 1])
    requires SweptSo(SweepState(t.orphans, t.events, []), s, Sighted(sweeps[|sweeps| - 1]), sweeps[|sweeps| - 1].seen)
    requires id in s.table
    ensures var w := sweeps[|sweeps| - 1];
            var row := Vanished(s.table, s.observed, w.now)[id];
            && id in EverSighted(sweeps)
            && row.firstSeen == FirstSighting(sweeps, id) <= row.lastSeen <= w.seen
            && (row.status.Active? <==> id in Sighted(w))
            && (id in t.orphans ==>
                  && row.firstSeen == t.orphans[id].firstSeen
                  && t.orphans[id].lastSeen <= row.lastSeen
                  && (t.orphans[id].status.Disappeared? && id !in Sighted(w) ==> row == t.orphans[id]))
  {
  }

  lemma OneMoreSweep(t: Tables, sweeps: seq<Sweep>, nodeId: string)
    requires sweeps != [] && Timed(sweeps)
    requires TellsHistory(t, sweeps[..|sweeps| - 1])
    ensures var w := sweeps[|sweeps| - 1];
            var t' := AfterSweep(t, w, nodeId);
            TellsHistory(t', sweeps) && RowsGoOn(t.orphans, t'.orphans, Sighted(w))
  {
    var w := sweeps[|sweeps| - 1];
    var s := SweepFrom(t.orphans, t.events, w.procs, w.execs, NoFaults(), nodeId);
    SweepAllFacts(SweepState(t.orphans, t.events, []), w.procs, w.execs, nodeId, w.seen);
    var rows := Vanished(s.table, s.observed, w.now);
    assert AfterSweep(t, w, nodeId) == Tables(rows, s.events);
    RowsTellHistory(t, s, sweeps, rows);
    EachRowGoesOn(t, s, sweeps, rows);
  }

  lemma RowsTellHistory(t: Tables, s: SweepState, sweeps: seq<Sweep>, rows: map<string, Orphan>)
    requires sweeps != [] && Timed(sweeps)
    requires TellsHistory(t, sweeps[..|sweeps| - 1])
    requires SweptSo(SweepState(t.orphans, t.events, []), s, Sighted(sweeps[|sweeps| - 1]), sweeps[|sweeps| - 1].seen)
    requires rows == Vanished(s.table, s.observed, sweeps[|sweeps| - 1].now)
    ensures TellsHistory(Tables(rows, s.events), sweeps)
  {
    assert rows.Keys == s.table.Keys == EverSighted(sweeps);
    DetectionsTellHistory(t, s, sweeps, rows);
    forall id | id in rows
      ensures rows[id].firstSeen == FirstSighting(sweeps, id) <= rows[id].lastSeen <= LastTick(sweeps)
    {
      RowHistory(t, s, sweeps, id);
    }
  }

  lemma DetectionsTellHistory(t: Tables, s: SweepState, sweeps: seq<Sweep>, rows: map<string, Orphan>)
    requires sweeps != [] && forall id :: Detections(t.events, id) == if id in t.orphans then 1 else 0
    requires DetectionsSwept(SweepState(t.orphans, t.events, []), s, Sighted(sweeps[|sweeps| - 1]))
    requires rows.Keys == t.orphans.Keys + Sighted(sweeps[|sweeps| - 1])
    ensures forall id :: Detections(s.events, id) == if id in rows then 1 else 0
  {
    forall id
      ensures Detections(s.events, id) == if id in rows then 1 else 0
    {
      assert id in rows <==> id in t.orphans || id in Sighted(sweeps[|sweeps| - 1]);
    }
  }

  lemma EachRowGoesOn(t: Tables, s: SweepState, sweeps: seq<Sweep>, rows: map<string, Orphan>)
    requires sweeps != [] && Timed(sweeps)
    requires TellsHistory(t, sweeps[..|sweeps| - 1])
    requires SweptSo(SweepState(t.orphans, t.events, []), s, Sighted(sweeps[|sweeps| - 1]), sweeps[|sweeps| - 1].seen)
    requires rows == Vanished(s.table, s.observed, sweeps[|sweeps| - 1].now)
    ensures RowsGoOn(t.orphans, rows, Sighted(sweeps[|sweeps| - 1]))
  {
    forall id | id in t.orphans
      ensures && id in rows
              && rows[id].firstSeen == t.orphans[id].firstSeen
              && t.orphans[id].lastSeen <= rows[id].lastSeen
              && (t.orphans[id].status.Disappeared? && id !in Sighted(sweeps[|sweeps| - 1])
                  ==> rows[id] == t.orphans[id])
              && (rows[id].status.Active? <==> id in Sighted(sweeps[|sweeps| - 1]))
    {
      RowHistory(t, s, sweeps, id);
    }
  }

  lemma SweepsKeepRows(sweeps: seq<Sweep>, nodeId: string)
    requires sweeps != [] && Timed(sweeps)
    ensures var front, w := sweeps[..|sweeps| - 1], sweeps[|sweeps| - 1];
            RowsGoOn(AfterSweeps(front, nodeId).orphans, AfterSweeps(sweeps, nodeId).orphans, Sighted(w))
  {
    SweepsTellHistory(sweeps[..|sweeps| - 1], nodeId);
    OneMoreSweep(AfterSweeps(sweeps[..|sweeps| - 1], nodeId), sweeps, nodeId);
  }
}
