/** What sweeps report, and what a row tells of its process, in terms of the tables before and
    after. */
module OrphanReports {
  import opened Wrappers
  import opened LaunchSchema
  import opened ExecutionStores
  import opened OrphanMatching
  import opened OrphanSweep
  import opened OrphanTheorems

  /** The orphans reported as reclassified under an id, oldest first. */
  function Reclassified(events: seq<OrphanEvent>, id: string): seq<Orphan> {
    if events == [] then []
    else
      var last := events[|events| - 1];
      Reclassified(events[..|events| - 1], id)
      + if last.OrphanReclassified? && last.orphan.orphanId == id then [last.orphan] else []
  }

  lemma {:induction false} ReclassifiedConcat(events: seq<OrphanEvent>, more: seq<OrphanEvent>, id: string)
    ensures Reclassified(events + more, id) == Reclassified(events, id) + Reclassified(more, id)
  {
    if more == [] {
      assert events + more == events;
    } else {
      var n := |more| - 1;
      assert (events + more)[..|events + more| - 1] == events + more[..n];
      ReclassifiedConcat(events, more[..n], id);
    }
  }

  /** Each unmatched process of the sweep has an id of its own. */
  ghost predicate OneProcessPerId(procs: seq<Process>, execs: seq<Execution>) {
    forall i, j | 0 <= i < j < |procs|
                  && !MatchOf(procs[i], execs).MatchedTo? && !MatchOf(procs[j], execs).MatchedTo? ::
      OrphanId(procs[i]) != OrphanId(procs[j])
  }

  /** The row of an id shows after a sweep that saw it another class or status than before. */
  ghost predicate Changed(before: map<string, Orphan>, after: map<string, Orphan>, seen: set<string>, id: string) {
    && id in seen && id in before && id in after
    && (before[id].classification != after[id].classification || before[id].status != after[id].status)
  }

  /** One more report under `id` if `changed`, with the first sighting of the old row and the class
      and status of the new one; none otherwise. */
  ghost predicate Reported(older: seq<Orphan>, newer: seq<Orphan>, changed: bool,
                           before: map<string, Orphan>, after: map<string, Orphan>, id: string)
  {
    if changed then
      && |newer| == |older| + 1 && older <= newer
      && id in before && id in after
      && var x := newer[|older|];
         && x.orphanId == id && x.firstSeen == before[id].firstSeen
         && x.classification == after[id].classification && x.status == after[id].status
         && x.pid == after[id].pid && x.lastSeen == after[id].lastSeen
    else newer == older
  }

  // ---------- One sweep ----------

  ghost predicate ReportsSwept(s0: SweepState, s: SweepState, ids: set<string>) {
    forall id :: Reported(Reclassified(s0.events, id), Reclassified(s.events, id),
                          Changed(s0.table, s.table, ids, id), s0.table, s.table, id)
  }

  lemma {:induction false} SweepAllReports(s0: SweepState, procs: seq<Process>, execs: seq<Execution>, nodeId: string)
    requires s0.observed == [] && OneProcessPerId(procs, execs)
    ensures ReportsSwept(s0, SweepAll(s0, procs, execs, NoFaults(), nodeId), UnmatchedIds(procs, execs))
  {
    if procs == [] {
      assert UnmatchedIds(procs, execs) == {};
    } else {
      var front, last := procs[..|procs| - 1], procs[|procs| - 1];
      LastIsNew(procs, execs);
      SweepAllReports(s0, front, execs, nodeId);
      SweepAllStores(s0, front, execs, NoFaults(), nodeId);
      NothingFails(front, execs);
      OneMoreId(procs, execs);
      OneMoreSwept(s0, SweepAll(s0, front, execs, NoFaults(), nodeId), UnmatchedIds(front, execs), last, execs, nodeId);
    }
  }

  lemma LastIsNew(procs: seq<Process>, execs: seq<Execution>)
    requires procs != [] && OneProcessPerId(procs, execs)
    ensures var front, last := procs[..|procs| - 1], procs[|procs| - 1];
            && OneProcessPerId(front, execs)
            && (!MatchOf(last, execs).MatchedTo? ==> OrphanId(last) !in UnmatchedIds(front, execs))
  {
    var n := |procs| - 1;
    assert forall i | 0 <= i < n :: procs[..n][i] == procs[i];
    if !MatchOf(procs[n], execs).MatchedTo? {
      forall q | q in procs[..n] && !MatchOf(q, execs).MatchedTo?
        ensures OrphanId(q) != OrphanId(procs[n])
      {
        var i :| 0 <= i < n && procs[..n][i] == q;
      }
    }
  }

  lemma OneMoreSwept(s0: SweepState, s: SweepState, ids: set<string>, p: Process, execs: seq<Execution>, nodeId: string)
    requires RowsStored(s0, s, ids) && ReportsSwept(s0, s, ids)
    requires !MatchOf(p, execs).MatchedTo? ==> OrphanId(p) !in ids
    ensures ReportsSwept(s0, SweepOne(s, p, execs, Fault(false, false), nodeId),
                         ids + if MatchOf(p, execs).MatchedTo? then {} else {OrphanId(p)})
  {
    if !MatchOf(p, execs).MatchedTo? {
      var o := ClassifyOrphan(p, MatchOf(p, execs), nodeId);
      OneMoreReports(s0, s, ids, o);
      assert SweepOne(s, p, execs, Fault(false, false), nodeId)
          == SweepState(Upserted(s.table, o), s.events + Noticed(s.table, o, Fault(false, false)),
                        s.observed + [o.orphanId]);
    } else {
      assert ids + {} == ids;
    }
  }

  lemma OneMoreReports(s0: SweepState, s: SweepState, ids: set<string>, o: Orphan)
    requires RowsStored(s0, s, ids) && ReportsSwept(s0, s, ids)
    requires o.orphanId !in ids && o.status.Active?
    ensures var events := s.events + Noticed(s.table, o, Fault(false, false));
            ReportsSwept(s0, SweepState(Upserted(s.table, o), events, s.observed + [o.orphanId]), ids + {o.orphanId})
  {
    var more := Noticed(s.table, o, Fault(false, false));
    forall id
      ensures Reported(Reclassified(s0.events, id), Reclassified(s.events + more, id),
                       Changed(s0.table, Upserted(s.table, o), ids + {o.orphanId}, id),
                       s0.table, Upserted(s.table, o), id)
    {
      ReclassifiedConcat(s.events, more, id);
      if id == o.orphanId {
        NoticedReports(s.table, o);
        assert id in s0.table <==> id in s.table;
        assert Reclassified(s.events, id) == Reclassified(s0.events, id);
      } else {
        NoticedElsewhere(s.table, o, id);
        assert Changed(s0.table, Upserted(s.table, o), ids + {o.orphanId}, id) <==> Changed(s0.table, s.table, ids, id);
      }
    }
  }

  lemma NoticedReports(table: map<string, Orphan>, o: Orphan)
    requires o.status.Active?
    ensures Reclassified(Noticed(table, o, Fault(false, false)), o.orphanId)
         == if o.orphanId in table
               && (table[o.orphanId].classification != o.classification || !table[o.orphanId].status.Active?)
            then [o.(firstSeen := table[o.orphanId].firstSeen)] else []
  {
    var more := Noticed(table, o, Fault(false, false));
    if more != [] {
      assert more[..0] == [];
    }
  }

  lemma NoticedElsewhere(table: map<string, Orphan>, o: Orphan, id: string)
    requires id != o.orphanId
    ensures Reclassified(Noticed(table, o, Fault(false, false)), id) == []
  {
    var more := Noticed(table, o, Fault(false, false));
    if more != [] {
      assert more[..0] == [];
    }
  }

  /** A sweep without store errors, and with one process per id, reports exactly the rows whose
      class or status it changed by seeing them, each once. */
  lemma SweepReportsChanges(t: Tables, w: Sweep, nodeId: string, id: string)
    requires OneProcessPerId(w.procs, w.execs)
    ensures var t' := AfterSweep(t, w, nodeId);
            Reported(Reclassified(t.events, id), Reclassified(t'.events, id),
                     Changed(t.orphans, t'.orphans, UnmatchedIds(w.procs, w.execs), id), t.orphans, t'.orphans, id)
  {
    var s0 := SweepState(t.orphans, t.events, []);
    SweepAllReports(s0, w.procs, w.execs, nodeId);
    SweepAllStores(s0, w.procs, w.execs, NoFaults(), nodeId);
    NothingFails(w.procs, w.execs);
    var s := SweepFrom(t.orphans, t.events, w.procs, w.execs, NoFaults(), nodeId);
    var rows := Vanished(s.table, s.observed, w.now);
    assert rows.Keys == s.table.Keys;
    assert id in UnmatchedIds(w.procs, w.execs) ==> rows[id] == s.table[id];
  }

  /** What one unmatched process adds to the events, whatever fails: a detection if no row was
      found, even because the lookup failed, and even if the row cannot be stored. */
  lemma EventsDespiteFaults(s: SweepState, p: Process, execs: seq<Execution>, f: Fault, nodeId: string)
    requires !MatchOf(p, execs).MatchedTo?
    ensures var o := ClassifyOrphan(p, MatchOf(p, execs), nodeId);
            SweepOne(s, p, execs, f, nodeId).events == s.events +
            if f.get || o.orphanId !in s.table then [OrphanDetected(o)]
            else if s.table[o.orphanId].classification == o.classification && s.table[o.orphanId].status.Active? then []
            else [OrphanReclassified(o.(firstSeen := s.table[o.orphanId].firstSeen))]
  {
  }

  // ---------- Many sweeps ----------

  /** How often a sweep changed the class or the status of a row by seeing it. */
  ghost function Changes(sweeps: seq<Sweep>, nodeId: string, id: string): nat {
    if sweeps == [] then 0
    else
      var front, w := sweeps[..|sweeps| - 1], sweeps[|sweeps| - 1];
      Changes(front, nodeId, id)
      + if Changed(AfterSweeps(front, nodeId).orphans, AfterSweeps(sweeps, nodeId).orphans,
                   UnmatchedIds(w.procs, w.execs), id) then 1 else 0
  }

  /** Over any number of sweeps there is one report for every such change. */
  lemma {:induction false} SweepsReportChanges(sweeps: seq<Sweep>, nodeId: string, id: string)
    requires forall w | w in sweeps :: OneProcessPerId(w.procs, w.execs)
    ensures |Reclassified(AfterSweeps(sweeps, nodeId).events, id)| == Changes(sweeps, nodeId, id)
  {
    if sweeps != [] {
      var front, w := sweeps[..|sweeps| - 1], sweeps[|sweeps| - 1];
      assert w in sweeps && forall v | v in front :: v in sweeps;
      SweepsReportChanges(front, nodeId, id);
      SweepReportsChanges(AfterSweeps(front, nodeId), w, nodeId, id);
    }
  }

  /** A return from Disappeared to Active is reported by the sweep that sees it. */
  lemma ReturnsAreReported(t: Tables, w: Sweep, nodeId: string, id: string)
    requires OneProcessPerId(w.procs, w.execs)
    requires id in t.orphans && t.orphans[id].status.Disappeared?
    requires id in AfterSweep(t, w, nodeId).orphans && AfterSweep(t, w, nodeId).orphans[id].status.Active?
    ensures |Reclassified(AfterSweep(t, w, nodeId).events, id)| == |Reclassified(t.events, id)| + 1
  {
    SweepReportsChanges(t, w, nodeId, id);
    ActiveMeansUnmatched(t.orphans, t.events, w.procs, w.execs, nodeId, w.now);
    assert id in ActiveIds(AfterSweep(t, w, nodeId).orphans);
  }

  // ---------- Rows ----------

  /** What a row keeps of the process it was made for. */
  ghost predicate Identifies(row: Orphan, p: Process, nodeId: string) {
    && row.orphanId == "orph-" + p.fingerprint && row.fingerprint == p.fingerprint
    && row.backend == p.backend && row.command == p.command && row.args == p.args
    && row.executionHint == p.executionHint && row.workloadHint == p.workloadHint
    && row.nodeId == nodeId && row.firstSeen == p.observedAt
  }

  ghost predicate SameIdentity(a: Orphan, b: Orphan) {
    && a.orphanId == b.orphanId && a.fingerprint == b.fingerprint
    && a.backend == b.backend && a.command == b.command && a.args == b.args
    && a.executionHint == b.executionHint && a.workloadHint == b.workloadHint
    && a.nodeId == b.nodeId && a.firstSeen == b.firstSeen
  }

  /** Row `id` of `table` is as old as its row in `old_`, or identifies a process of the sweep. */
  ghost predicate Known(old_: map<string, Orphan>, table: map<string, Orphan>, procs: seq<Process>,
                        execs: seq<Execution>, nodeId: string, id: string)
    requires id in table
  {
    if id in old_ then SameIdentity(table[id], old_[id])
    else id == table[id].orphanId
         && exists p | p in procs :: !MatchOf(p, execs).MatchedTo? && Identifies(table[id], p, nodeId)
  }

  /** Whatever the store fails to do, a row that a sweep adds identifies one of its processes, and
      a row that was there keeps its identity. */
  lemma RowsIdentifyProcesses(t: Tables, procs: seq<Process>, execs: seq<Execution>, faults: nat -> Fault,
                              nodeId: string, now: int, id: string)
    ensures var s := SweepFrom(t.orphans, t.events, procs, execs, faults, nodeId);
            var rows := Vanished(s.table, s.observed, now);
            id in rows ==> Known(t.orphans, rows, procs, execs, nodeId, id)
  {
    var s := SweepFrom(t.orphans, t.events, procs, execs, faults, nodeId);
    var rows := Vanished(s.table, s.observed, now);
    if id in rows {
      LoopIdentifiesProcesses(SweepState(t.orphans, t.events, []), procs, execs, faults, nodeId, id);
      assert SameIdentity(rows[id], s.table[id]);
      KnownLater(t.orphans, s.table, rows, procs, procs, execs, nodeId, id);
    }
  }

  lemma {:induction false} LoopIdentifiesProcesses(s: SweepState, procs: seq<Process>, execs: seq<Execution>,
                                                   faults: nat -> Fault, nodeId: string, id: string)
    requires id in SweepAll(s, procs, execs, faults, nodeId).table
    ensures Known(s.table, SweepAll(s, procs, execs, faults, nodeId).table, procs, execs, nodeId, id)
  {
    if procs != [] {
      var n := |procs| - 1;
      var front := SweepAll(s, procs[..n], execs, faults, nodeId);
      var s' := SweepAll(s, procs, execs, faults, nodeId);
      OneProcessIdentified(front, procs[n], execs, faults(n), nodeId, id);
      if id in front.table {
        LoopIdentifiesProcesses(s, procs[..n], execs, faults, nodeId, id);
        KnownLater(s.table, front.table, s'.table, procs[..n], procs, execs, nodeId, id);
      } else {
        RowsStay(s, procs[..n], execs, faults, nodeId, id);
        assert procs[n] in procs;
      }
    }
  }

  lemma OneProcessIdentified(s: SweepState, p: Process, execs: seq<Execution>, f: Fault, nodeId: string, id: string)
    requires id in SweepOne(s, p, execs, f, nodeId).table
    ensures var row := SweepOne(s, p, execs, f, nodeId).table[id];
            if id in s.table then SameIdentity(row, s.table[id])
            else id == row.orphanId && !MatchOf(p, execs).MatchedTo? && Identifies(row, p, nodeId)
  {
  }

  lemma KnownLater(old_: map<string, Orphan>, table: map<string, Orphan>, later: map<string, Orphan>,
                   procs: seq<Process>, more: seq<Process>, execs: seq<Execution>, nodeId: string, id: string)
    requires id in table && Known(old_, table, procs, execs, nodeId, id)
    requires id in later && SameIdentity(later[id], table[id]) && procs <= more
    ensures Known(old_, later, more, execs, nodeId, id)
  {
    if id !in old_ {
      var p :| p in procs && !MatchOf(p, execs).MatchedTo? && Identifies(table[id], p, nodeId);
      assert p in more && Identifies(later[id], p, nodeId);
    }
  }

  lemma {:induction false} RowsStay(s: SweepState, procs: seq<Process>, execs: seq<Execution>, faults: nat -> Fault,
                                    nodeId: string, id: string)
    ensures id in s.table ==> id in SweepAll(s, procs, execs, faults, nodeId).table
  {
    if procs != [] {
      RowsStay(s, procs[..|procs| - 1], execs, faults, nodeId, id);
    }
  }
}
