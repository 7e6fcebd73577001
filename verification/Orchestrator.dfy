/** The launch pipeline, the termination and the poll, as they run against the store.
    The node store, the executors and the inspectors appear as their answers. */
module Orchestration {
  import opened Wrappers
  import opened LaunchSchema
  import opened Lifecycle
  import opened Reconciliation
  import opened LaunchSteps
  import opened ExecutionRecords
  import opened ExecutionStores

  class LaunchOrchestrator {
    const store: ExecutionStore

    constructor (store: ExecutionStore)
      ensures this.store == store
    {
      this.store := store;
    }

    method Save(r: ExecutionRecord)
      requires store.Valid()
      modifies store`rows, store`saves
      ensures store.Valid()
      ensures store.Contents() == old(store.Contents())[r.rec.executionId := r.rec]
      ensures store.saves == old(store.saves) + [r.rec]
    {
      store.SaveExecution(r.rec);
    }

    method EmitEvent(eventType: EventType, r: ExecutionRecord, reason: Reason, now: int)
      modifies store`events
      ensures store.events == old(store.events) + [LifecycleEvent(r.rec, eventType, reason, now)]
    {
      var backend := if r.rec.prepared.Some? then r.rec.prepared.value.runtimeBackend else "";
      store.AppendEvent(RuntimeEvent(r.rec.executionId, eventType, now, reason,
                                     LifecyclePayload(r.rec.spec.workloadId, r.rec.spec.nodeId, backend, r.rec.state)));
    }

    method InitializeRecord(id: string, spec: LaunchSpec, t: Readings) returns (r: ExecutionRecord)
      modifies store`events
      ensures fresh(r) && r.rec == Created(id, spec, t)
      ensures store.events == old(store.events) + [LifecycleEvent(r.rec, ExecutionCreated, NoReason, t.t2)]
    {
      r := new ExecutionRecord(
        Execution(id, spec, None, Pending, LivenessUnknown, NotStarted, t.t0, t.t0, None, None, None,
                  None, None, [], "", None, None, [Pending]));
      r.AppendTrace(Init, Success, NoReason, t.t1);
      EmitEvent(ExecutionCreated, r, NoReason, t.t2);
    }

    method ValidateAndRecord(r: ExecutionRecord, v: ValidationOutcome, t: Readings) returns (ok: bool)
      requires store.Valid()
      modifies r, store
      ensures store.Valid() && ok == v.Valid?
      ensures r.rec == AfterValidation(old(r.rec), v, t)
      ensures r.rec.executionId == old(r.rec).executionId && r.rec.spec == old(r.rec).spec
      ensures store.Contents() == old(store.Contents())[r.rec.executionId := r.rec]
      ensures store.saves == old(store.saves) + [r.rec]
      ensures store.events == old(store.events) + [ValidationEvent(r.rec, v, t)]
    {
      var _ := r.TransitionTo(Preparing, NoReason, t.t0);
      match v {
        case NodeMissing =>
          var _ := r.TransitionTo(Failed, ErrNodeNotFound, t.t1);
          Save(r);
          EmitEvent(ValidationFailed, r, ErrNodeNotFound, t.t2);
        case Invalid =>
          var _ := r.TransitionTo(Failed, ErrValidationFailed, t.t1);
          Save(r);
          EmitEvent(ValidationFailed, r, ErrValidationFailed, t.t2);
        case Valid =>
          Save(r);
          EmitEvent(ValidationPassed, r, NoReason, t.t2);
      }
      ok := v.Valid?;
    }

    method PrepareAndRecord(r: ExecutionRecord, p: PrepareOutcome, t: Readings) returns (ok: bool)
      requires store.Valid()
      modifies r, store
      ensures store.Valid() && ok == p.PrepareOk?
      ensures r.rec == AfterPreparation(old(r.rec), p, t)
      ensures r.rec.executionId == old(r.rec).executionId && r.rec.spec == old(r.rec).spec
      ensures store.Contents() == old(store.Contents())[r.rec.executionId := r.rec]
      ensures store.saves == old(store.saves) + [r.rec]
      ensures store.events == old(store.events) + [PreparationEvent(r.rec, p, t)]
    {
      r.AppendTrace(ArtifactResolution, InProgress, NoReason, t.t0);
      if !p.PrepareOk? {
        var _ := r.TransitionTo(Failed, ErrPreparationFailed, t.t1);
        Save(r);
        EmitEvent(PreparationFailed, r, ErrPreparationFailed, t.t3);
        return false;
      }
      r.rec := r.rec.(prepared := Some(p.prep));
      r.AppendTrace(ArtifactResolution, Success, NoReason, t.t1);
      var _ := r.TransitionTo(Validated, NoReason, t.t2);
      Save(r);
      EmitEvent(PreparationPassed, r, NoReason, t.t3);
      return true;
    }

    /** Two saves: Launching before the spawn, the outcome after it. */
    method SpawnAndRecord(r: ExecutionRecord, s: SpawnOutcome, t0: Readings, t1: Readings)
      requires store.Valid()
      modifies r, store
      ensures store.Valid()
      ensures r.rec == AfterSpawn(MarkedLaunching(old(r.rec), t0), s, t1)
      ensures r.rec.executionId == old(r.rec).executionId && r.rec.spec == old(r.rec).spec
      ensures store.Contents() == old(store.Contents())[r.rec.executionId := r.rec]
      ensures store.saves == old(store.saves) + [MarkedLaunching(old(r.rec), t0), r.rec]
      ensures store.events == old(store.events) + [SpawnEvent(r.rec, r.rec.spec, s, t1)]
    {
      ghost var table, saves := store.Contents(), store.saves;
      var _ := r.TransitionTo(Launching, NoReason, t0.t0);
      ghost var e := r.rec;
      Save(r);
      RecordSpawn(r, s, t1);
      Append(saves, [e], [r.rec]);
      Overwrite(table, e.executionId, e, r.rec);
    }

    /** A dry run aborts here; otherwise the process is spawned and its PID recorded. */
    method RecordSpawn(r: ExecutionRecord, s: SpawnOutcome, t: Readings)
      requires store.Valid()
      modifies r, store
      ensures store.Valid()
      ensures r.rec == AfterSpawn(old(r.rec), s, t)
      ensures r.rec.executionId == old(r.rec).executionId && r.rec.spec == old(r.rec).spec
      ensures store.Contents() == old(store.Contents())[r.rec.executionId := r.rec]
      ensures store.saves == old(store.saves) + [r.rec]
      ensures store.events == old(store.events) + [SpawnEvent(r.rec, r.rec.spec, s, t)]
    {
      var eventType, reason := RuntimeSpawned, NoReason;
      if r.rec.spec.launchMode.DryRun? || r.rec.spec.launchMode.Validate? {
        var _ := r.TransitionTo(Terminating, NoReason, t.t0);
        var _ := r.TransitionTo(Terminated, NoReason, t.t1);
        eventType := DryRunCompleted;
      } else if s.SpawnError? {
        var _ := r.TransitionTo(Failed, ErrExecRuntimeSpawnFailed, t.t0);
        eventType, reason := RuntimeSpawnFailed, ErrExecRuntimeSpawnFailed;
      } else {
        r.rec := r.rec.(pid := Some(s.pid));
        r.rec := r.rec.(startedAt := Some(t.t0));
        var _ := r.TransitionTo(Starting, NoReason, t.t1);
      }
      Save(r);
      EmitEvent(eventType, r, reason, t.t2);
    }

    /** The whole pipeline for a fresh id: it saves exactly `LaunchSaves` and stores the last of them. */
    method StartLaunch(id: string, spec: LaunchSpec, w: LaunchWorld) returns (result: Execution)
      requires store.Valid()
      modifies store
      ensures store.Valid()
      ensures store.saves == old(store.saves) + LaunchSaves(id, spec, w)
      ensures result == store.saves[|store.saves| - 1]
      ensures store.Contents() == old(store.Contents())[id := result]
      ensures store.events == old(store.events) + LaunchEvents(id, spec, w)
    {
      ghost var table, saves, events := store.Contents(), store.saves, store.events;
      var r := CreateAndSave(id, spec, w.t0);
      ghost var e := r.rec;
      RunStages(r, w);
      result := r.rec;
      Overwrite(table, id, e, r.rec);
      Append(saves, [e], SavesFromValidation(e, w));
      assert store.saves == saves + LaunchSaves(id, spec, w);
      Append(events, [LifecycleEvent(e, ExecutionCreated, NoReason, w.t0.t2)], EventsFromValidation(e, w));
      assert store.events == events + LaunchEvents(id, spec, w);
    }

    method CreateAndSave(id: string, spec: LaunchSpec, t: Readings) returns (r: ExecutionRecord)
      requires store.Valid()
      modifies store
      ensures store.Valid() && fresh(r) && r.rec == Created(id, spec, t) && r.rec.executionId == id
      ensures store.Contents() == old(store.Contents())[id := r.rec]
      ensures store.saves == old(store.saves) + [r.rec]
      ensures store.events == old(store.events) + [LifecycleEvent(r.rec, ExecutionCreated, NoReason, t.t2)]
    {
      r := InitializeRecord(id, spec, t);
      Save(r);
    }

    method RunStages(r: ExecutionRecord, w: LaunchWorld)
      requires store.Valid()
      modifies r, store
      ensures store.Valid() && r.rec.executionId == old(r.rec).executionId
      ensures store.saves == old(store.saves) + SavesFromValidation(old(r.rec), w)
      ensures r.rec == store.saves[|store.saves| - 1]
      ensures store.Contents() == old(store.Contents())[r.rec.executionId := r.rec]
      ensures store.events == old(store.events) + EventsFromValidation(old(r.rec), w)
    {
      ghost var table, saves, events := store.Contents(), store.saves, store.events;
      var ok := ValidateAndRecord(r, w.validation, w.t1);
      if ok {
        ghost var e := r.rec;
        PrepareAndSpawn(r, w);
        Overwrite(table, e.executionId, e, r.rec);
        Append(saves, [e], SavesFromPreparation(e, w));
        Append(events, [ValidationEvent(e, w.validation, w.t1)], EventsFromPreparation(e, w));
      }
    }

    method PrepareAndSpawn(r: ExecutionRecord, w: LaunchWorld)
      requires store.Valid()
      modifies r, store
      ensures store.Valid() && r.rec.executionId == old(r.rec).executionId
      ensures store.saves == old(store.saves) + SavesFromPreparation(old(r.rec), w)
      ensures r.rec == store.saves[|store.saves| - 1]
      ensures store.Contents() == old(store.Contents())[r.rec.executionId := r.rec]
      ensures store.events == old(store.events) + EventsFromPreparation(old(r.rec), w)
    {
      ghost var table, saves, events := store.Contents(), store.saves, store.events;
      var ok := PrepareAndRecord(r, w.prepare, w.t2);
      if ok {
        ghost var e := r.rec;
        SpawnAndRecord(r, w.spawn, w.t3, w.t4);
        Overwrite(table, e.executionId, e, r.rec);
        Append(saves, [e], [MarkedLaunching(e, w.t3), r.rec]);
        Append(events, [PreparationEvent(e, w.prepare, w.t2)], [SpawnEvent(r.rec, r.rec.spec, w.spawn, w.t4)]);
      }
    }

    /** Fails on an unknown id, does nothing to a terminal record, and otherwise saves
        exactly `TerminationSaves`; the error is a kill that was needed and failed. */
    method TerminateLaunch(id: string, k: KillOutcome, t0: Readings, t1: Readings)
      returns (result: Option<Execution>, failed: bool)
      requires store.Valid()
      modifies store
      ensures store.Valid()
      ensures id !in old(store.Contents()) ==>
                result.None? && failed && store.Contents() == old(store.Contents())
                && store.events == old(store.events) && store.saves == old(store.saves)
      ensures id in old(store.Contents()) ==>
                var e := old(store.Contents())[id];
                && result == Some(AfterTermination(e, k, t0, t1))
                && failed == (!IsTerminal(e.state) && NeedsKill(e) && k.KillFailed?)
                && store.saves == old(store.saves) + TerminationSaves(e, k, t0, t1)
                && store.Contents() == old(store.Contents())[id := AfterTermination(e, k, t0, t1)]
                && store.events == old(store.events) + TerminationEvents(e, k, t0, t1)
    {
      var found := store.GetExecution(id);
      if found.None? {
        return None, true;
      }
      assert found.value.executionId == id;
      var r := new ExecutionRecord(found.value);
      if r.rec.state.Terminated? || r.rec.state.Failed? || r.rec.state.Exited? {
        return Some(r.rec), false;
      }
      ghost var table := store.Contents();
      RequestTermination(r, t0);
      ghost var requested := r.rec;
      failed := KillAndRecord(r, k, t1);
      Overwrite(table, id, requested, r.rec);
      result := Some(r.rec);
    }

    /** The refusal of Pending -> Terminating and Terminating -> Terminating is ignored. */
    method RequestTermination(r: ExecutionRecord, t: Readings)
      requires store.Valid()
      modifies r, store
      ensures store.Valid() && r.rec.executionId == old(r.rec).executionId
      ensures r.rec == LaunchSteps.TerminationRequested(old(r.rec), t)
      ensures store.Contents() == old(store.Contents())[r.rec.executionId := r.rec]
      ensures store.saves == old(store.saves) + [r.rec]
      ensures store.events == old(store.events)
                              + [LifecycleEvent(r.rec, EventType.TerminationRequested, NoReason, t.t2)]
    {
      var _ := r.TransitionTo(Terminating, NoReason, t.t0);
      Save(r);
      EmitEvent(EventType.TerminationRequested, r, NoReason, t.t2);
    }

    /** Kills the process if there is one; a kill that fails leaves the record as it is. */
    method KillAndRecord(r: ExecutionRecord, k: KillOutcome, t: Readings) returns (failed: bool)
      requires store.Valid()
      modifies r, store
      ensures store.Valid() && failed == (NeedsKill(old(r.rec)) && k.KillFailed?)
      ensures r.rec == AfterKill(old(r.rec), k, t) && r.rec.executionId == old(r.rec).executionId
      ensures store.Contents() == old(store.Contents())[r.rec.executionId := r.rec]
      ensures store.saves == old(store.saves) + [r.rec]
      ensures store.events == old(store.events) + [KillEvent(old(r.rec), r.rec, k, t)]
    {
      if r.rec.pid.Some? && r.rec.prepared.Some? {
        if k.KillFailed? {
          r.AppendTrace(Termination, Failure, ErrTermSignalFailed, t.t0);
          Save(r);
          EmitEvent(TerminationFailed, r, ErrTermSignalFailed, t.t2);
          return true;
        }
      }
      r.rec := r.rec.(terminatedAt := Some(t.t0));
      r.rec := r.rec.(liveness := Dead);
      r.rec := r.rec.(readiness := NotReady);
      var _ := r.TransitionTo(Terminated, NoReason, t.t1);
      Save(r);
      EmitEvent(TerminatedEvent, r, NoReason, t.t2);
      return false;
    }
  }

  // ---------- The poll ----------

  class LaunchHandler {
    const store: ExecutionStore

    constructor (store: ExecutionStore)
      ensures this.store == store
    {
      this.store := store;
    }

    /** A refused poll leaves table and events alone, whatever it wrote in memory. */
    method ReconcileExecution(r: ExecutionRecord, i: Inspection, t: Readings) returns (failed: bool)
      requires store.Valid()
      modifies r, store
      ensures store.Valid()
      ensures failed == (!IsTerminal(old(r.rec).state) && Refused(old(r.rec), i, t.t0))
      ensures r.rec == Reconciled(old(r.rec), i, t)
      ensures store.Contents() == if PollSaves(old(r.rec), i, t.t0)
                                  then old(store.Contents())[r.rec.executionId := r.rec]
                                  else old(store.Contents())
      ensures store.saves == old(store.saves) + if PollSaves(old(r.rec), i, t.t0) then [r.rec] else []
      ensures store.events == old(store.events) + PollEvents(old(r.rec), i, t)
    {
      if r.rec.state.Exited? || r.rec.state.Failed? || r.rec.state.Terminated? {
        return false;
      }
      var before := r.rec;
      failed := r.Reconcile(i, t);
      if failed {
        return;
      }
      var changed := HasChanged(before, r.rec);
      if changed {
        store.AppendEvent(RuntimeEvent(r.rec.executionId, ReconcileStateChanged, t.t2, NoReason,
          ReconcilePayload(r.rec.spec.nodeId, before.state, r.rec.state, before.liveness, r.rec.liveness,
                           before.readiness, r.rec.readiness, r.rec.exitCode, r.rec.signal)));
      }
      store.SaveExecution(r.rec);
    }

    method HasChanged(before: Execution, after: Execution) returns (changed: bool)
      ensures changed == MaterialChange(before, after)
    {
      changed :=
        || before.state != after.state
        || before.liveness != after.liveness
        || before.readiness != after.readiness
        || (before.exitCode.None? && after.exitCode.Some?)
        || (before.exitCode.Some? && after.exitCode.Some? && before.exitCode.value != after.exitCode.value)
        || MaterialSignalChanged(before.signal, after.signal);
    }

    method InspectLaunch(id: string, i: Inspection, t: Readings) returns (view: Option<Execution>)
      requires store.Valid()
      modifies store
      ensures store.Valid()
      ensures id !in old(store.Contents()) ==>
                view.None? && store.Contents() == old(store.Contents())
                && store.events == old(store.events) && store.saves == old(store.saves)
      ensures id in old(store.Contents()) ==>
                var e := old(store.Contents())[id];
                && view == Some(Reconciled(e, i, t))
                && store.Contents() == old(store.Contents())[id := Polled(e, i, t)]
                && store.saves == old(store.saves) + (if PollSaves(e, i, t.t0) then [Polled(e, i, t)] else [])
                && store.events == old(store.events) + PollEvents(e, i, t)
    {
      var found := store.GetExecution(id);
      if found.None? {
        return None;
      }
      assert found.value.executionId == id;
      ReconcileKeepsId(found.value, i, t);
      var r := new ExecutionRecord(found.value);
      var _ := ReconcileExecution(r, i, t);
      view := Some(r.rec);
    }
  }

  lemma ReconcileKeepsId(e: Execution, i: Inspection, t: Readings)
    ensures Reconciled(e, i, t).executionId == e.executionId
  {
  }
}
