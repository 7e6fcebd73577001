/** Matching an enumerated hypervisor process to the executions on record. */
module OrphanMatching {
  import opened Wrappers
  import opened LaunchSchema
  import opened ExecutionStores

  datatype Process = Process(
    pid: int, ppid: Option<int>, backend: string, command: string, args: seq<string>,
    fingerprint: string, executionHint: string, workloadHint: string, observedAt: int, details: map<string, string>)

  datatype MatchResult = MatchedTo(executionId: string) | Ambiguous | Unmatched

  predicate ExactHit(p: Process, e: Execution) {
    p.executionHint != "" && p.executionHint == e.executionId
  }

  /** Same backend and same PID, and not already an exact hit. */
  predicate WeakHit(p: Process, e: Execution) {
    !ExactHit(p, e) && e.prepared.Some? && e.prepared.value.runtimeBackend == p.backend && e.pid == Some(p.pid)
  }

  function HitIds(p: Process, execs: seq<Execution>, exact: bool): seq<string> {
    if execs == [] then []
    else
      var e := execs[|execs| - 1];
      HitIds(p, execs[..|execs| - 1], exact)
      + if (if exact then ExactHit(p, e) else WeakHit(p, e)) then [e.executionId] else []
  }

  function Decide(exact: seq<string>, weak: seq<string>): MatchResult {
    if |exact| == 1 then MatchedTo(exact[0])
    else if |exact| > 1 then Ambiguous
    else if |weak| == 1 then MatchedTo(weak[0])
    else if |weak| > 1 then Ambiguous
    else Unmatched
  }

  function MatchOf(p: Process, execs: seq<Execution>): MatchResult {
    Decide(HitIds(p, execs, true), HitIds(p, execs, false))
  }

  method MatchEnumeratedProcessToExecution(p: Process, execs: seq<Execution>) returns (m: MatchResult)
    ensures m == MatchOf(p, execs)
  {
    var exact: seq<string>, weak: seq<string> := [], [];
    for k := 0 to |execs|
      invariant exact == HitIds(p, execs[..k], true)
      invariant weak == HitIds(p, execs[..k], false)
    {
      assert execs[..k + 1][..k] == execs[..k];
      var e := execs[k];
      if p.executionHint != "" && p.executionHint == e.executionId {
        exact := exact + [e.executionId];
        continue;
      }
      if e.prepared.Some? && e.prepared.value.runtimeBackend == p.backend {
        if e.pid.Some? && e.pid.value == p.pid {
          weak := weak + [e.executionId];
        }
      }
    }
    assert execs[..|execs|] == execs;
    if |exact| == 1 {
      return MatchedTo(exact[0]);
    } else if |exact| > 1 {
      return Ambiguous;
    }
    if |weak| == 1 {
      return MatchedTo(weak[0]);
    } else if |weak| > 1 {
      return Ambiguous;
    }
    return Unmatched;
  }

  // ---------- Independent of the order of the executions ----------

  ghost function WeakCandidates(p: Process, table: map<string, Execution>): set<string> {
    set id | id in table && !IsTerminal(table[id].state) && WeakHit(p, table[id])
  }

  /** The match read off the executions table: a hint that names a recoverable execution wins
      over every PID match, and only PID matches can be ambiguous. */
  ghost predicate MatchedIn(p: Process, table: map<string, Execution>, m: MatchResult) {
    var weak := WeakCandidates(p, table);
    if p.executionHint != "" && p.executionHint in table && !IsTerminal(table[p.executionHint].state) then
      m == MatchedTo(p.executionHint)
    else if |weak| == 1 then
      m.MatchedTo? && m.executionId in weak
    else
      m == if weak == {} then Unmatched else Ambiguous
  }

  lemma {:induction false} HitIdsAre(p: Process, execs: seq<Execution>, exact: bool, id: string)
    ensures id in HitIds(p, execs, exact) <==>
            exists k :: 0 <= k < |execs| && execs[k].executionId == id
                        && if exact then ExactHit(p, execs[k]) else WeakHit(p, execs[k])
  {
    if execs != [] {
      var front, e := execs[..|execs| - 1], execs[|execs| - 1];
      HitIdsAre(p, front, exact, id);
      if k :| 0 <= k < |execs| && execs[k].executionId == id
              && if exact then ExactHit(p, execs[k]) else WeakHit(p, execs[k])
      {
        assert k < |front| ==> front[k] == execs[k];
      }
    }
  }

  ghost predicate Distinct(ids: seq<string>) {
    forall i, j | 0 <= i < j < |ids| :: ids[i] != ids[j]
  }

  lemma {:induction false} HitIdsDistinct(p: Process, execs: seq<Execution>, exact: bool)
    requires forall i, j | 0 <= i < j < |execs| :: execs[i].executionId != execs[j].executionId
    ensures Distinct(HitIds(p, execs, exact))
  {
    if execs != [] {
      var front, e := execs[..|execs| - 1], execs[|execs| - 1];
      HitIdsDistinct(p, front, exact);
      HitIdsAre(p, front, exact, e.executionId);
    }
  }

  lemma {:induction false} DistinctCount(ids: seq<string>, s: set<string>)
    requires Distinct(ids)
    requires forall x :: x in s <==> x in ids
    ensures |s| == |ids|
  {
    if ids == [] {
      assert s == {};
    } else {
      var front, x := ids[..|ids| - 1], ids[|ids| - 1];
      assert x in s && forall y :: y in s - {x} <==> y in front;
      DistinctCount(front, s - {x});
    }
  }

  /** Whatever order the store lists the executions in, the result is the same. */
  lemma MatchIsOrderFree(p: Process, execs: seq<Execution>, table: map<string, Execution>)
    requires Lists(execs, table)
    ensures MatchedIn(p, table, MatchOf(p, execs))
    ensures |HitIds(p, execs, true)| <= 1
  {
    var exact, weak := HitIds(p, execs, true), HitIds(p, execs, false);
    ExactHitsInTable(p, execs, table);
    WeakHitsInTable(p, execs, table);
  }

  lemma ExactHitsInTable(p: Process, execs: seq<Execution>, table: map<string, Execution>)
    requires Lists(execs, table)
    ensures HitIds(p, execs, true) ==
            if p.executionHint != "" && p.executionHint in table && !IsTerminal(table[p.executionHint].state)
            then [p.executionHint] else []
  {
    var exact, h := HitIds(p, execs, true), p.executionHint;
    HitIdsDistinct(p, execs, true);
    forall id
      ensures id in exact <==> h != "" && id == h && h in table && !IsTerminal(table[h].state)
    {
      HitIdsAre(p, execs, true, id);
      ListedIff(execs, table, id);
    }
    var hit := h != "" && h in table && !IsTerminal(table[h].state);
    DistinctCount(exact, if hit then {h} else {});
    if hit {
      assert exact[0] in exact;
    }
  }

  lemma WeakHitsInTable(p: Process, execs: seq<Execution>, table: map<string, Execution>)
    requires Lists(execs, table)
    ensures var weak := HitIds(p, execs, false);
            |weak| == |WeakCandidates(p, table)| && forall id :: id in weak <==> id in WeakCandidates(p, table)
  {
    var weak := HitIds(p, execs, false);
    HitIdsDistinct(p, execs, false);
    forall id
      ensures id in weak <==> id in WeakCandidates(p, table)
    {
      HitIdsAre(p, execs, false, id);
      ListedIff(execs, table, id);
    }
    DistinctCount(weak, WeakCandidates(p, table));
  }

  lemma ListedIff(execs: seq<Execution>, table: map<string, Execution>, id: string)
    requires Lists(execs, table)
    ensures id in table && !IsTerminal(table[id].state) <==>
            exists k :: 0 <= k < |execs| && execs[k].executionId == id && id in table && execs[k] == table[id]
  {
    if id in table && !IsTerminal(table[id].state) {
      assert table[id] in execs;
    }
  }
}
