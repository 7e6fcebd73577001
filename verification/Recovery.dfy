/** The restart: every non-terminal record is inspected once and saved again. */
module Recovery {
  import opened Wrappers
  import opened LaunchSchema
  import opened Lifecycle
  import opened ExecutionRecords
  import opened ExecutionStores

  /** The transition a restart asks for; None when the process is confirmed alive. */
  function RecoveryTarget(e: Execution, i: Inspection): Option<LaunchState> {
    if e.pid.None? || i.InspectError? then Some(Unknown)
    else if i.obs.processExists then None
    else if e.state.Terminating? then Some(Terminated)
    else Some(Unknown)
  }

  function RecoveryReason(e: Execution, i: Inspection): Reason {
    if e.pid.None? then ErrRecoveryStaleHandle
    else if i.InspectError? then ErrRecoveryRehydrateFailed
    else ErrRecoveryExecutionMissing
  }

  function Recovered(e: Execution, i: Inspection, epoch: string, t: Readings): Execution {
    var a := e.(recoveryEpoch := epoch, lastObservedAt := Some(t.t0));
    match RecoveryTarget(e, i)
    case Some(next) => Transitioned(a, next, RecoveryReason(e, i), t.t1)
    case None => Traced(a.(liveness := Alive), RecoveryBootstrap, Success, RecoveryConfirmed, t.t1)
  }

  function RecoveryEvent(e: Execution, i: Inspection, t: Readings): RuntimeEvent {
    var target := RecoveryTarget(e, i);
    var rehydrated := target.None? || target.value.Terminated?;
    RuntimeEvent(e.executionId,
                 if rehydrated then ExecutionRehydrated else ExecutionRecoveryUnknown,
                 t.t0,
                 if target.None? then RecoveryConfirmed
                 else if target.value.Terminated? then RecoveryTerminatedMissing
                 else RecoveryReason(e, i),
                 RecoveryPayload)
  }

  /** What the outside world answers during one restart, per execution. */
  datatype Restart = Restart(epoch: string, inspect: string -> Inspection, clock: string -> Readings)

  function RecoveredBy(e: Execution, w: Restart): Execution {
    Recovered(e, w.inspect(e.executionId), w.epoch, w.clock(e.executionId))
  }

  /** The table after a restart that got through the ids in `done`. */
  ghost function RecoverRows(table: map<string, Execution>, done: set<string>, w: Restart): map<string, Execution> {
    map id | id in table ::
      if id in done && !IsTerminal(table[id].state) then RecoveredBy(table[id], w) else table[id]
  }

  ghost function Ids(recs: seq<Execution>): set<string> {
    if recs == [] then {} else Ids(recs[..|recs| - 1]) + {recs[|recs| - 1].executionId}
  }

  lemma NoneRecovered(table: map<string, Execution>, w: Restart)
    ensures RecoverRows(table, {}, w) == table
  {
  }

  lemma RecoverOne(table: map<string, Execution>, done: set<string>, e: Execution, w: Restart)
    requires e.executionId in table && table[e.executionId] == e && !IsTerminal(e.state)
    ensures RecoverRows(table, done, w)[e.executionId := RecoveredBy(e, w)]
         == RecoverRows(table, done + {e.executionId}, w)
  {
  }

  lemma {:induction false} IdsOf(recs: seq<Execution>, k: nat)
    requires k < |recs|
    ensures recs[k].executionId in Ids(recs)
  {
    if k < |recs| - 1 {
      IdsOf(recs[..|recs| - 1], k);
    }
  }

  /** Working through a listing recovers the whole table. */
  lemma ListingCovers(recs: seq<Execution>, table: map<string, Execution>, w: Restart)
    requires Lists(recs, table)
    ensures RecoverRows(table, Ids(recs), w) == RecoverRows(table, table.Keys, w)
  {
    forall id | id in table && !IsTerminal(table[id].state)
      ensures id in Ids(recs)
    {
      var k :| 0 <= k < |recs| && recs[k] == table[id];
      IdsOf(recs, k);
      assert recs[k].executionId in table && recs[k] == table[recs[k].executionId];
    }
  }

  function RecoveryEventBy(e: Execution, w: Restart): RuntimeEvent {
    RecoveryEvent(e, w.inspect(e.executionId), w.clock(e.executionId))
  }

  function RecoveryEvents(recs: seq<Execution>, w: Restart): seq<RuntimeEvent> {
    if recs == [] then [] else RecoveryEvents(recs[..|recs| - 1], w) + [RecoveryEventBy(recs[|recs| - 1], w)]
  }

  /** The records that a restart saves, in the order of the listing. */
  function RecoverySaves(recs: seq<Execution>, w: Restart): seq<Execution> {
    if recs == [] then [] else RecoverySaves(recs[..|recs| - 1], w) + [RecoveredBy(recs[|recs| - 1], w)]
  }

  lemma OneMore(recs: seq<Execution>, k: nat, w: Restart)
    requires k < |recs|
    ensures Ids(recs[..k + 1]) == Ids(recs[..k]) + {recs[k].executionId}
    ensures RecoverySaves(recs[..k + 1], w) == RecoverySaves(recs[..k], w) + [RecoveredBy(recs[k], w)]
    ensures RecoveryEvents(recs[..k + 1], w) == RecoveryEvents(recs[..k], w) + [RecoveryEventBy(recs[k], w)]
  {
    assert recs[..k + 1][..k] == recs[..k];
  }

  class RecoveryBootstrapper {
    const store: ExecutionStore

    constructor (store: ExecutionStore)
      ensures this.store == store
    {
      this.store := store;
    }

    /** `recs` is the listing it worked through. */
    method Bootstrap(w: Restart) returns (recs: seq<Execution>)
      requires store.Valid()
      modifies store
      ensures store.Valid() && Lists(recs, old(store.Contents()))
      ensures store.Contents() == RecoverRows(old(store.Contents()), old(store.Contents()).Keys, w)
      ensures store.saves == old(store.saves) + RecoverySaves(recs, w)
      ensures store.events == old(store.events) + RecoveryEvents(recs, w)
    {
      ghost var before, saves, events := store.Contents(), store.saves, store.events;
      recs := store.ListRecoverableExecutions();
      NoneRecovered(before, w);
      for k := 0 to |recs|
        invariant store.Valid()
        invariant store.Contents() == RecoverRows(before, Ids(recs[..k]), w)
        invariant store.saves == saves + RecoverySaves(recs[..k], w)
        invariant store.events == events + RecoveryEvents(recs[..k], w)
      {
        var e := recs[k];
        OneMore(recs, k, w);
        RecoverOne(before, Ids(recs[..k]), e, w);
        Append(saves, RecoverySaves(recs[..k], w), [RecoveredBy(e, w)]);
        Append(events, RecoveryEvents(recs[..k], w), [RecoveryEventBy(e, w)]);
        RecoverExecution(e, w);
      }
      assert recs[..|recs|] == recs;
      ListingCovers(recs, before, w);
    }

    method RecoverExecution(e: Execution, w: Restart)
      requires store.Valid()
      modifies store
      ensures store.Valid()
      ensures store.Contents() == old(store.Contents())[e.executionId := RecoveredBy(e, w)]
      ensures store.saves == old(store.saves) + [RecoveredBy(e, w)]
      ensures store.events == old(store.events) + [RecoveryEventBy(e, w)]
    {
      var i, t := w.inspect(e.executionId), w.clock(e.executionId);
      var r := new ExecutionRecord(e);
      r.rec := r.rec.(recoveryEpoch := w.epoch);
      r.rec := r.rec.(lastObservedAt := Some(t.t0));
      var eventType, reason;
      if r.rec.pid.Some? {
        if i.InspectError? {
          var _ := r.TransitionTo(Unknown, ErrRecoveryRehydrateFailed, t.t1);
          eventType, reason := ExecutionRecoveryUnknown, ErrRecoveryRehydrateFailed;
        } else if i.obs.processExists {
          eventType, reason := ExecutionRehydrated, RecoveryConfirmed;
          r.rec := r.rec.(liveness := Alive);
          r.AppendTrace(RecoveryBootstrap, Success, reason, t.t1);
        } else if r.rec.state.Terminating? {
          var _ := r.TransitionTo(Terminated, ErrRecoveryExecutionMissing, t.t1);
          eventType, reason := ExecutionRehydrated, RecoveryTerminatedMissing;
        } else {
          var _ := r.TransitionTo(Unknown, ErrRecoveryExecutionMissing, t.t1);
          eventType, reason := ExecutionRecoveryUnknown, ErrRecoveryExecutionMissing;
        }
      } else {
        var _ := r.TransitionTo(Unknown, ErrRecoveryStaleHandle, t.t1);
        eventType, reason := ExecutionRecoveryUnknown, ErrRecoveryStaleHandle;
      }
      store.SaveExecution(r.rec);
      store.AppendEvent(RuntimeEvent(e.executionId, eventType, t.t0, reason, RecoveryPayload));
    }
  }
}
