/** The executions on record meet the processes on the host. */
module Accounting {
  import opened Wrappers
  import opened LaunchSchema
  import opened ExecutionStores
  import opened Executors
  import opened OrphanMatching
  import opened OrphanSweep
  import opened OrphanTheorems
  import opened ProcCmdline
  import opened RecordInvariants
  import opened Runs

  /** `p` is the process that the record says it started. */
  predicate IsProcessOf(p: Process, e: Execution) {
    e.pid == Some(p.pid) && e.prepared.Some? && e.prepared.value.runtimeBackend == p.backend
  }

  /** The process names a recoverable execution itself. */
  predicate NamesExecution(p: Process, table: map<string, Execution>) {
    p.executionHint != "" && p.executionHint in table && !IsTerminal(table[p.executionHint].state)
  }

  /** No other recoverable record claims the same process. */
  ghost predicate OnlyOwner(p: Process, table: map<string, Execution>, id: string) {
    forall k | k in table && !IsTerminal(table[k].state) && IsProcessOf(p, table[k]) :: k == id
  }

  /** In every reachable store, the process of a stored record that is not over is never
      unmatched: it is matched to the execution its hint names, or else to its own record, or
      else it is ambiguous, and that exactly when several records claim it. */
  lemma OwnProcessesAreMatched(w: World, execs: seq<Execution>, p: Process, id: string)
    requires Reachable(w) && Lists(execs, w.table)
    requires id in w.table && !IsTerminal(w.table[id].state) && IsProcessOf(p, w.table[id])
    ensures var m := MatchOf(p, execs);
            if NamesExecution(p, w.table) then m == MatchedTo(p.executionHint)
            else if OnlyOwner(p, w.table, id) then m == MatchedTo(id)
            else m == Ambiguous
  {
    ReachableInv(w);
    MatchIsOrderFree(p, execs, w.table);
    if !NamesExecution(p, w.table) {
      OwnersAreCounted(w, p, id);
    }
  }

  lemma OwnersAreCounted(w: World, p: Process, id: string)
    requires WorldInv(w) && !NamesExecution(p, w.table)
    requires id in w.table && !IsTerminal(w.table[id].state) && IsProcessOf(p, w.table[id])
    ensures var weak := WeakCandidates(p, w.table);
            if OnlyOwner(p, w.table, id) then weak == {id} else |weak| > 1
  {
    var weak := WeakCandidates(p, w.table);
    OwnersAreWeakCandidates(w, p);
    assert id in weak;
    if OnlyOwner(p, w.table, id) {
      assert weak == {id};
    } else {
      var k :| k in w.table && !IsTerminal(w.table[k].state) && IsProcessOf(p, w.table[k]) && k != id;
      TwoMembers(weak, id, k);
    }
  }

  lemma TwoMembers(s: set<string>, x: string, y: string)
    requires x in s && y in s && x != y
    ensures |s| > 1
  {
    assert |s - {x}| >= 1 by {
      assert y in s - {x};
    }
  }

  lemma OwnersAreWeakCandidates(w: World, p: Process)
    requires WorldInv(w) && !NamesExecution(p, w.table)
    ensures forall k :: k in WeakCandidates(p, w.table) <==>
              k in w.table && !IsTerminal(w.table[k].state) && IsProcessOf(p, w.table[k])
  {
    forall k | k in w.table && !IsTerminal(w.table[k].state)
      ensures !ExactHit(p, w.table[k])
    {
      assert RowOk(w, k);
    }
  }

  // ---------- Launched processes ----------

  /** The process is what the enumeration makes of the launch that the record prepared. */
  ghost predicate IsLaunchOf(p: Process, e: Execution, missing: string -> bool) {
    && IsProcessOf(p, e) && CleanSpec(e.spec)
    && (e.prepared == PrepareKvm(e.spec, missing) || e.prepared == PrepareCloudHypervisor(e.spec, missing))
    && p.executionHint == HintOf(SplitCmdline(Cmdline([e.prepared.value.binaryPath] + e.prepared.value.commandArgs)))
  }

  /** The hint of a launched process is its workload id, which the matcher compares with execution
      ids: the process goes to the execution that happens to bear this id, if there is a
      recoverable one, and otherwise it is matched by its PID. */
  lemma LaunchedProcessesAreMatched(w: World, execs: seq<Execution>, p: Process, id: string, missing: string -> bool)
    requires Reachable(w) && Lists(execs, w.table)
    requires id in w.table && !IsTerminal(w.table[id].state) && IsLaunchOf(p, w.table[id], missing)
    ensures var m, workloadId := MatchOf(p, execs), w.table[id].spec.workloadId;
            && p.executionHint == workloadId
            && (if workloadId in w.table && !IsTerminal(w.table[workloadId].state) then m == MatchedTo(workloadId)
                else if OnlyOwner(p, w.table, id) then m == MatchedTo(id)
                else m == Ambiguous)
  {
    HintIsWorkload(p, w.table[id], missing);
    OwnProcessesAreMatched(w, execs, p, id);
  }

  lemma HintIsWorkload(p: Process, e: Execution, missing: string -> bool)
    requires IsLaunchOf(p, e, missing)
    ensures p.executionHint == e.spec.workloadId && p.executionHint != ""
  {
    if e.prepared == PrepareKvm(e.spec, missing) {
      QemuRoundTrip(e.spec, missing);
      QemuArgvFacts(e.spec, missing);
    } else {
      CloudHypervisorRoundTrip(e.spec, missing);
      CloudHypervisorArgvFacts(e.spec, missing);
    }
  }

  // ---------- Processes that nobody answers for ----------

  /** A recoverable record claims the process by its hint or by its PID. */
  ghost predicate Claimed(p: Process, table: map<string, Execution>) {
    NamesExecution(p, table) || exists k | k in table :: !IsTerminal(table[k].state) && IsProcessOf(p, table[k])
  }

  /** In every reachable store a process is unmatched exactly when no recoverable record claims it,
      even if a record that is over started it. */
  lemma UnmatchedIffUnclaimed(w: World, execs: seq<Execution>, p: Process)
    requires Reachable(w) && Lists(execs, w.table)
    ensures MatchOf(p, execs).Unmatched? <==> !Claimed(p, w.table)
  {
    ReachableInv(w);
    MatchIsOrderFree(p, execs, w.table);
    if !NamesExecution(p, w.table) {
      OwnersAreWeakCandidates(w, p);
      var weak := WeakCandidates(p, w.table);
      if weak != {} {
        var k :| k in weak;
        assert k in w.table && !IsTerminal(w.table[k].state) && IsProcessOf(p, w.table[k]);
      }
    }
  }

  /** An error-free sweep reports such a process: its row is Active, as a stale artifact if the
      process carries a hint and as an unmanaged process if not. */
  lemma UnclaimedProcessesAreReported(w: World, execs: seq<Execution>, p: Process, procs: seq<Process>,
                                      orphans: map<string, Orphan>, events: seq<OrphanEvent>, nodeId: string, now: int)
    requires Reachable(w) && Lists(execs, w.table) && Keyed(orphans)
    requires p in procs && !Claimed(p, w.table)
    requires forall q | q in procs && q.fingerprint == p.fingerprint :: q == p
    ensures var s := SweepFrom(orphans, events, procs, execs, NoFaults(), nodeId);
            var rows := Vanished(s.table, s.observed, now);
            && OrphanId(p) in rows && rows[OrphanId(p)].status.Active?
            && rows[OrphanId(p)].pid == p.pid
            && rows[OrphanId(p)].classification
               == if p.executionHint != "" then StaleExecutionArtifact else UnmanagedBackendProcess
  {
    UnmatchedIffUnclaimed(w, execs, p);
    ActiveMeansUnmatched(orphans, events, procs, execs, nodeId, now);
    ActiveRowsShowProcesses(orphans, events, procs, execs, nodeId, now, OrphanId(p));
    var s := SweepFrom(orphans, events, procs, execs, NoFaults(), nodeId);
    var rows := Vanished(s.table, s.observed, now);
    assert OrphanId(p) in ActiveIds(rows);
    var q :| q in procs && Shows(rows[OrphanId(p)], q, execs, nodeId);
    SweepKeepsKeys(SweepState(orphans, events, []), procs, execs, NoFaults(), nodeId);
    SameFingerprint(p, q);
  }

  lemma SameFingerprint(p: Process, q: Process)
    requires OrphanId(p) == OrphanId(q)
    ensures p.fingerprint == q.fingerprint
  {
    assert OrphanId(p)[5..] == p.fingerprint && OrphanId(q)[5..] == q.fingerprint;
  }
}
