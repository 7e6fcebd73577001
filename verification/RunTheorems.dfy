/** The guarantees of the lifecycle, over every run with crashes and restarts. */
module RunTheorems {
  import opened Wrappers
  import opened LaunchSchema
  import opened Lifecycle
  import opened Reconciliation
  import opened LaunchSteps
  import opened ExecutionStores
  import opened Recovery
  import opened RecordInvariants
  import opened Runs

  // ---------- What is stored ----------

  /** No record is ever stored as Starting, Running or Degraded unless its own pipeline went
      through Preparing, Validated, Launching and Starting and left a process behind. */
  lemma StoredProcessesAreReal(w: World, id: string)
    requires Reachable(w) && id in w.table
    requires var s := w.table[id].state; s.Starting? || s.Running? || s.Degraded?
    ensures var e := w.table[id];
            && e.pid.Some? && e.prepared.Some? && e.startedAt.Some?
            && [Pending, Preparing, Validated, Launching, Starting] <= e.history
  {
    ReachableInv(w);
    assert RowOk(w, id);
  }

  lemma StoredRecordsAreCoherent(w: World, id: string)
    requires Reachable(w) && id in w.table
    ensures var e := w.table[id];
            && e.executionId == id
            && (e.state.Running? || e.state.Degraded? ==> e.liveness.Alive?)
            && (e.state.Exited? ==> e.liveness.Dead?)
            && (e.terminatedAt.Some? ==> e.state.Terminated?)
            && (e.startedAt.Some? <==> e.pid.Some?)
            && NoLater(Some(e.createdAt), e.startedAt)
            && NoLater(Some(e.createdAt), e.terminatedAt)
            && (e.readyAt.Some? ==> e.startedAt.Some?)
            && NoLater(e.startedAt, e.readyAt)
            && NoLater(e.readyAt, e.terminatedAt)
            && NoLater(e.startedAt, e.terminatedAt)
            && (forall i, j | 0 <= i < j < |e.trace| :: e.trace[i].timestamp <= e.trace[j].timestamp)
  {
    ReachableInv(w);
    assert RowOk(w, id);
  }

  /** The trace holds one StateTransition entry per state after the first, and a life with
      `u` losses of telemetry has at most 8 + 4u of them. */
  lemma StoredTransitionsAreBounded(w: World, id: string)
    requires Reachable(w) && id in w.table
    ensures var e := w.table[id];
            && LegalPath(e.history)
            && CountTransitions(e.trace) == |e.history| - 1
            && CountTransitions(e.trace) <= 8 + 4 * Count(e.history, Unknown)
  {
    ReachableInv(w);
    assert RowOk(w, id);
    BoundedLifecycle(w.table[id].history);
  }

  /** Records are never removed, traces only grow, and a record once stored as Exited, Failed
      or Terminated is never changed again by anything, crashes and restarts included. */
  lemma StoredRecordsOnlyGoOn(w: World, steps: seq<Step>, id: string)
    requires Reachable(w) && id in w.table && ValidRun(w, steps)
    ensures id in After(w, steps).table
    ensures Continues(w.table[id], After(w, steps).table[id])
    ensures IsTerminal(w.table[id].state) ==> After(w, steps).table[id] == w.table[id]
  {
    ReachableInv(w);
    RunKeeps(w, steps);
    assert RowGoesOn(w, After(w, steps), id);
  }

  /** A stored Running record reads Ready exactly when it became ready and was never Degraded: a
      return from Unknown does not set the readiness, and nothing takes Degraded back. */
  lemma RunningIsReadyIff(w: World, id: string)
    requires Reachable(w) && id in w.table && w.table[id].state.Running?
    ensures var e := w.table[id];
            e.readiness.Ready? <==> e.readyAt.Some? && Degraded !in e.history
  {
    ReachableInv(w);
    assert RowOk(w, id);
  }

  /** A stored Terminated record reads Dead exactly when it has a termination time: a dry run and
      a restart set neither. */
  lemma TerminatedIsDeadIff(w: World, id: string)
    requires Reachable(w) && id in w.table && w.table[id].state.Terminated?
    ensures w.table[id].liveness.Dead? <==> w.table[id].terminatedAt.Some?
  {
    ReachableInv(w);
    assert RowOk(w, id);
  }

  /** A stored record that was Terminating and then Running lost its inspector in between. */
  lemma TerminatingReturnsThroughUnknown(w: World, id: string, i: nat, j: nat)
    requires Reachable(w) && id in w.table
    requires var h := w.table[id].history; i < j < |h| && h[i].Terminating? && h[j].Running?
    ensures w.table[id].history[i + 1].Unknown?
  {
    ReachableInv(w);
    assert RowOk(w, id);
    TerminatingIsLeftThroughUnknown(w.table[id].history, i, j);
  }

  /** A Terminating record is sent to Unknown by a poll exactly when its process cannot be
      inspected, and by a restart also when it has none. */
  lemma TerminatingIsLostIff(e: Execution, i: Inspection, epoch: string, t: Readings)
    requires e.state.Terminating?
    ensures Polled(e, i, t).state.Unknown? <==> e.pid.Some? && i.InspectError?
    ensures Recovered(e, i, epoch, t).state.Unknown? <==> e.pid.None? || i.InspectError?
  {
  }

  // ---------- Termination ----------

  /** From any stored record that is not terminal, a termination ends in Terminated, or in
      Terminating when it needed a kill and the kill failed. */
  lemma TerminationEnds(e: Execution, k: KillOutcome, t0: Readings, t1: Readings, clock: int)
    requires RecordInv(e, clock) && !IsTerminal(e.state) && t0.NotBefore(clock) && t1.NotBefore(t0.t3)
    ensures var e' := AfterTermination(e, k, t0, t1);
            && e'.state == (if NeedsKill(e) && k.KillFailed? then Terminating else Terminated)
            && RecordInv(e', t1.t3)
  {
    RequestInv(e, t0, clock);
    KillInv(LaunchSteps.TerminationRequested(e, t0), k, t1, t0.t3);
  }

  /** Asking again after success changes nothing and reports nothing. */
  lemma TerminationIsIdempotent(e: Execution, k: KillOutcome, k': KillOutcome, t0: Readings, t1: Readings,
                                u0: Readings, u1: Readings, clock: int)
    requires RecordInv(e, clock) && t0.NotBefore(clock) && t1.NotBefore(t0.t3)
    requires !(NeedsKill(e) && k.KillFailed?)
    ensures var e' := AfterTermination(e, k, t0, t1);
            && AfterTermination(e', k', u0, u1) == e'
            && TerminationSaves(e', k', u0, u1) == []
            && TerminationEvents(e', k', u0, u1) == []
  {
    if !IsTerminal(e.state) {
      TerminationEnds(e, k, t0, t1, clock);
    }
  }

  // ---------- Restart ----------

  /** A restart never asks for a transition that the table refuses. */
  lemma RecoveryIsNeverRefused(e: Execution, i: Inspection)
    requires !IsTerminal(e.state)
    ensures RecoveryTarget(e, i).Some? ==> IsTransitionAllowed(e.state, RecoveryTarget(e, i).value)
  {
  }

  /** When a restart is done, nothing is left halfway through the pipeline, and whatever is
      neither over nor Unknown has a process that was just seen alive. */
  lemma RestartLeavesNothingHalfway(w: World, id: string)
    requires Reachable(w) && w.mode.Booting? && w.mode.todo == {} && id in w.table
    ensures var e := w.table[id];
            && !IsMidFlight(e.state)
            && (IsTerminal(e.state) || e.state.Unknown? || (e.pid.Some? && e.liveness.Alive?))
  {
    ReachableInv(w);
    assert RowOk(w, id);
  }

  /** Cut off after any set of records and run again with the same answers, a restart gives
      every record the state and liveness of one uninterrupted pass. */
  lemma RestartIsRestartable(table: map<string, Execution>, done: set<string>, a: Restart, b: Restart, id: string)
    requires id in table && table[id].executionId == id
    requires a.inspect == b.inspect
    ensures var once := RecoverRows(table, table.Keys, a)[id];
            var twice := RecoverRows(RecoverRows(table, done, a), table.Keys, b)[id];
            twice.state == once.state && twice.liveness == once.liveness
  {
    var e, i := table[id], a.inspect(id);
    if id in done && !IsTerminal(e.state) {
      assert RecoverRows(table, done, a)[id] == Recovered(e, i, a.epoch, a.clock(id));
      RecoveringTwice(e, i, a.epoch, b.epoch, a.clock(id), b.clock(id));
    } else {
      assert RecoverRows(table, done, a)[id] == e;
      RecoveringOnce(e, i, a.epoch, b.epoch, a.clock(id), b.clock(id));
    }
  }

  lemma RecoveringOnce(e: Execution, i: Inspection, epoch: string, epoch': string, t: Readings, t': Readings)
    ensures var once, other := Recovered(e, i, epoch, t), Recovered(e, i, epoch', t');
            once.state == other.state && once.liveness == other.liveness
  {
  }

  lemma RecoveringTwice(e: Execution, i: Inspection, epoch: string, epoch': string, t: Readings, t': Readings)
    requires !IsTerminal(e.state)
    ensures var once := Recovered(e, i, epoch, t);
            !IsTerminal(once.state) ==>
              var twice := Recovered(once, i, epoch', t');
              twice.state == once.state && twice.liveness == once.liveness
  {
  }

  // ---------- The operations are runs ----------

  /** The readings of the five saves follow each other. */
  predicate InOrder(w: LaunchWorld, clock: int) {
    && w.t0.NotBefore(clock) && w.t1.NotBefore(w.t0.t3) && w.t2.NotBefore(w.t1.t3)
    && w.t3.NotBefore(w.t2.t3) && w.t4.NotBefore(w.t3.t3)
  }

  function StepsFromPreparation(id: string, lw: LaunchWorld): seq<Step> {
    [Prepare(id, lw.prepare, lw.t2)] +
    if lw.prepare.PrepareOk? then [MarkLaunching(id, lw.t3), Spawn(id, lw.spawn, lw.t4)] else []
  }

  function StepsFromValidation(id: string, lw: LaunchWorld): seq<Step> {
    [Step.Validate(id, lw.validation, lw.t1)] + if lw.validation.Valid? then StepsFromPreparation(id, lw) else []
  }

  function LaunchScript(id: string, spec: LaunchSpec, lw: LaunchWorld): seq<Step> {
    [Launch(id, spec, lw.t0)] + StepsFromValidation(id, lw)
  }

  /** Step `k` of `steps` stores `saves[k]` under `id` and nothing else. */
  ghost predicate Writes(w: World, steps: seq<Step>, id: string, saves: seq<Execution>) {
    && ValidRun(w, steps)
    && |steps| == |saves|
    && forall k | 0 < k <= |steps| ::
         ValidRun(w, steps[..k]) && After(w, steps[..k]).table == w.table[id := saves[k - 1]]
  }

  lemma WritesNothing(w: World, id: string)
    ensures Writes(w, [], id, [])
  {
  }

  lemma WritesOneMore(w: World, s: Step, rest: seq<Step>, id: string, e: Execution, saves: seq<Execution>)
    requires Enabled(w, s) && Next(w, s).table == w.table[id := e]
    requires Writes(Next(w, s), rest, id, saves)
    ensures Writes(w, [s] + rest, id, [e] + saves)
  {
    var w1, steps, all := Next(w, s), [s] + rest, [e] + saves;
    assert steps[1..] == rest;
    forall k | 0 < k <= |steps|
      ensures ValidRun(w, steps[..k]) && After(w, steps[..k]).table == w.table[id := all[k - 1]]
    {
      assert steps[..k][1..] == rest[..k - 1];
      if k == 1 {
        assert rest[..0] == [];
      } else {
        assert After(w1, rest[..k - 1]).table == w1.table[id := saves[k - 2]];
      }
    }
  }

  /** `StartLaunch` is a run, save by save: stopping it after k saves is what a crash does. */
  lemma LaunchIsARun(w: World, id: string, spec: LaunchSpec, lw: LaunchWorld)
    requires w.mode.Serving? && id !in w.table && InOrder(lw, w.clock)
    ensures Writes(w, LaunchScript(id, spec, lw), id, LaunchSaves(id, spec, lw))
  {
    var s := Launch(id, spec, lw.t0);
    FromValidationIsARun(Next(w, s), id, lw);
    WritesOneMore(w, s, StepsFromValidation(id, lw), id, Created(id, spec, lw.t0),
                  SavesFromValidation(Created(id, spec, lw.t0), lw));
  }

  lemma FromValidationIsARun(w: World, id: string, lw: LaunchWorld)
    requires InFlight(w, id, ToValidate)
    requires lw.t1.NotBefore(w.clock) && lw.t2.NotBefore(lw.t1.t3)
    requires lw.t3.NotBefore(lw.t2.t3) && lw.t4.NotBefore(lw.t3.t3)
    ensures Writes(w, StepsFromValidation(id, lw), id, SavesFromValidation(w.flights[id].copy, lw))
  {
    var s := Step.Validate(id, lw.validation, lw.t1);
    var e := AfterValidation(w.flights[id].copy, lw.validation, lw.t1);
    if lw.validation.Valid? {
      FromPreparationIsARun(Next(w, s), id, lw);
      WritesOneMore(w, s, StepsFromPreparation(id, lw), id, e, SavesFromPreparation(e, lw));
    } else {
      WritesNothing(Next(w, s), id);
      WritesOneMore(w, s, [], id, e, []);
    }
  }

  lemma FromPreparationIsARun(w: World, id: string, lw: LaunchWorld)
    requires InFlight(w, id, ToPrepare)
    requires lw.t2.NotBefore(w.clock) && lw.t3.NotBefore(lw.t2.t3) && lw.t4.NotBefore(lw.t3.t3)
    ensures Writes(w, StepsFromPreparation(id, lw), id, SavesFromPreparation(w.flights[id].copy, lw))
  {
    var s := Prepare(id, lw.prepare, lw.t2);
    var e := AfterPreparation(w.flights[id].copy, lw.prepare, lw.t2);
    var w1 := Next(w, s);
    if lw.prepare.PrepareOk? {
      var l := MarkedLaunching(e, lw.t3);
      var mark, spawn := MarkLaunching(id, lw.t3), Spawn(id, lw.spawn, lw.t4);
      var w2 := Next(w1, mark);
      WritesNothing(Next(w2, spawn), id);
      var last := AfterSpawn(l, lw.spawn, lw.t4);
      WritesOneMore(w2, spawn, [], id, last, []);
      assert [spawn] + [] == [spawn] && [last] + [] == [last];
      WritesOneMore(w1, mark, [spawn], id, l, [last]);
      assert [mark] + [spawn] == [mark, spawn] && [l] + [last] == [l, last];
      WritesOneMore(w, s, [mark, spawn], id, e, [l, last]);
    } else {
      WritesNothing(w1, id);
      WritesOneMore(w, s, [], id, e, []);
    }
  }

  /** `TerminateLaunch` is a run. */
  lemma TerminationIsARun(w: World, id: string, k: KillOutcome, t0: Readings, t1: Readings)
    requires Idle(w, id) && !IsTerminal(w.table[id].state)
    requires t0.NotBefore(w.clock) && t1.NotBefore(t0.t3)
    ensures Writes(w, [Step.Terminate(id, t0), Kill(id, k, t1)], id, TerminationSaves(w.table[id], k, t0, t1))
  {
    var e := w.table[id];
    var r := LaunchSteps.TerminationRequested(e, t0);
    var w1 := Next(w, Step.Terminate(id, t0));
    var kill, last := Kill(id, k, t1), AfterKill(r, k, t1);
    WritesNothing(Next(w1, kill), id);
    WritesOneMore(w1, kill, [], id, last, []);
    assert [kill] + [] == [kill] && [last] + [] == [last];
    WritesOneMore(w, Step.Terminate(id, t0), [kill], id, r, [last]);
    assert [Step.Terminate(id, t0)] + [kill] == [Step.Terminate(id, t0), kill] && [r] + [last] == [r, last];
  }

  /** `Bootstrap` over any listing is a run, record by record. */
  lemma {:induction false} RestartIsARun(w: World, recs: seq<Execution>, r: Restart)
    requires WorldInv(w) && Lists(recs, w.table)
    requires forall i | 0 <= i < |recs| :: r.clock(recs[i].executionId).NotBefore(w.clock)
    requires forall i, j | 0 <= i < j < |recs| ::
      r.clock(recs[j].executionId).NotBefore(r.clock(recs[i].executionId).t3)
    ensures ValidRun(w, RestartScript(recs, r))
    ensures After(w, RestartScript(recs, r)).table == RecoverRows(w.table, Ids(recs), r)
    ensures After(w, RestartScript(recs, r)).mode == Booting(r.epoch, Recoverable(w.table) - Ids(recs))
    ensures After(w, RestartScript(recs, r)).clock
         == if recs == [] then w.clock else r.clock(recs[|recs| - 1].executionId).t3
  {
    RestartPrefixIsARun(w, recs, r, |recs|);
    assert recs[..|recs|] == recs;
  }

  function RestartScript(recs: seq<Execution>, r: Restart): seq<Step> {
    if recs == [] then [Crash(r.epoch)]
    else
      var id := recs[|recs| - 1].executionId;
      RestartScript(recs[..|recs| - 1], r) + [Recover(id, r.inspect(id), r.clock(id))]
  }

  lemma {:induction false} RunAppend(w: World, steps: seq<Step>, s: Step)
    requires ValidRun(w, steps) && Enabled(After(w, steps), s)
    ensures ValidRun(w, steps + [s]) && After(w, steps + [s]) == Next(After(w, steps), s)
    decreases |steps|
  {
    if steps == [] {
      assert [s][1..] == [];
    } else {
      RunAppend(Next(w, steps[0]), steps[1..], s);
      assert (steps + [s])[1..] == steps[1..] + [s];
    }
  }

  lemma {:induction false} RestartPrefixIsARun(w: World, recs: seq<Execution>, r: Restart, n: nat)
    requires WorldInv(w) && Lists(recs, w.table) && n <= |recs|
    requires forall i | 0 <= i < |recs| :: r.clock(recs[i].executionId).NotBefore(w.clock)
    requires forall i, j | 0 <= i < j < |recs| ::
      r.clock(recs[j].executionId).NotBefore(r.clock(recs[i].executionId).t3)
    ensures ValidRun(w, RestartScript(recs[..n], r))
    ensures var w' := After(w, RestartScript(recs[..n], r));
            && w'.table == RecoverRows(w.table, Ids(recs[..n]), r)
            && w'.mode == Booting(r.epoch, Recoverable(w.table) - Ids(recs[..n]))
            && w'.clock == if n == 0 then w.clock else r.clock(recs[n - 1].executionId).t3
  {
    if n == 0 {
      assert [Crash(r.epoch)][1..] == [];
      NoneRecovered(w.table, r);
    } else {
      var e := recs[n - 1];
      var id := e.executionId;
      assert recs[..n][..n - 1] == recs[..n - 1];
      RestartPrefixIsARun(w, recs, r, n - 1);
      var w1 := After(w, RestartScript(recs[..n - 1], r));
      NotYetListed(recs, n - 1, n - 1);
      assert w1.clock <= r.clock(id).t0;
      OneRecovery(w, w1, Ids(recs[..n - 1]), e, r);
      RunAppend(w, RestartScript(recs[..n - 1], r), Recover(id, r.inspect(id), r.clock(id)));
    }
  }

  lemma OneRecovery(w: World, w1: World, done: set<string>, e: Execution, r: Restart)
    requires e.executionId in w.table && w.table[e.executionId] == e && !IsTerminal(e.state)
    requires e.executionId !in done
    requires w1.table == RecoverRows(w.table, done, r)
    requires w1.mode == Booting(r.epoch, Recoverable(w.table) - done)
    requires r.clock(e.executionId).NotBefore(w1.clock)
    ensures var id := e.executionId;
            var s := Recover(id, r.inspect(id), r.clock(id));
            && Enabled(w1, s)
            && Next(w1, s).table == RecoverRows(w.table, done + {id}, r)
            && Next(w1, s).mode == Booting(r.epoch, Recoverable(w.table) - (done + {id}))
            && Next(w1, s).clock == r.clock(id).t3
  {
    RecoverOne(w.table, done, e, r);
  }

  /** A listing names each execution once. */
  lemma {:induction false} NotYetListed(recs: seq<Execution>, n: nat, k: nat)
    requires n <= k < |recs|
    requires forall i, j | 0 <= i < j < |recs| :: recs[i].executionId != recs[j].executionId
    ensures recs[k].executionId !in Ids(recs[..n])
  {
    if n > 0 {
      assert recs[..n][..n - 1] == recs[..n - 1];
      NotYetListed(recs, n - 1, k);
    }
  }
}
