/** The control plane as a state machine over its durable steps: launches, terminations and
    polls of many executions interleave, a crash may come between any two saves, and a
    restart recovers the store before it serves again. Operations on the same execution are
    serialised and saves succeed. */
module Runs {
  import opened Wrappers
  import opened LaunchSchema
  import opened Lifecycle
  import opened Reconciliation
  import opened LaunchSteps
  import opened Recovery
  import opened RecordInvariants

  /** Where an operation in progress will go on after its last save. */
  datatype Phase = ToValidate | ToPrepare | ToMarkLaunching | ToSpawn | ToKill

  /** `copy` is the record that the operation holds in memory. */
  datatype Flight = Flight(phase: Phase, copy: Execution)

  datatype Mode = Serving | Booting(epoch: string, todo: set<string>)

  datatype World = World(
    table: map<string, Execution>, flights: map<string, Flight>, mode: Mode, clock: int)

  datatype Step =
    | Launch(id: string, spec: LaunchSpec, t: Readings)
    | Validate(id: string, v: ValidationOutcome, t: Readings)
    | Prepare(id: string, p: PrepareOutcome, t: Readings)
    | MarkLaunching(id: string, t: Readings)
    | Spawn(id: string, s: SpawnOutcome, t: Readings)
    | Terminate(id: string, t: Readings)
    | Kill(id: string, k: KillOutcome, t: Readings)
    | Poll(id: string, i: Inspection, t: Readings)
    | Recover(id: string, i: Inspection, t: Readings)
    | Crash(epoch: string)
    | Serve

  // ---------- Steps ----------

  predicate InFlight(w: World, id: string, p: Phase) {
    id in w.flights && w.flights[id].phase == p
  }

  predicate Idle(w: World, id: string) {
    w.mode.Serving? && id in w.table && id !in w.flights
  }

  predicate Enabled(w: World, s: Step) {
    match s
    case Launch(id, _, t) => w.mode.Serving? && id !in w.table && t.NotBefore(w.clock)
    case Validate(id, _, t) => InFlight(w, id, ToValidate) && t.NotBefore(w.clock)
    case Prepare(id, _, t) => InFlight(w, id, ToPrepare) && t.NotBefore(w.clock)
    case MarkLaunching(id, t) => InFlight(w, id, ToMarkLaunching) && t.NotBefore(w.clock)
    case Spawn(id, _, t) => InFlight(w, id, ToSpawn) && t.NotBefore(w.clock)
    case Terminate(id, t) => Idle(w, id) && t.NotBefore(w.clock)
    case Kill(id, _, t) => InFlight(w, id, ToKill) && t.NotBefore(w.clock)
    case Poll(id, _, t) => Idle(w, id) && t.NotBefore(w.clock)
    case Recover(id, _, t) => w.mode.Booting? && id in w.mode.todo && id in w.table && t.NotBefore(w.clock)
    case Crash(_) => true
    case Serve => w.mode.Booting? && w.mode.todo == {}
  }

  /** A save that the operation goes on from. */
  function SaveAndGoOn(w: World, id: string, e: Execution, p: Phase, t: Readings): World {
    w.(table := w.table[id := e], flights := w.flights[id := Flight(p, e)], clock := t.t3)
  }

  /** A save that ends the operation. */
  function SaveAndEnd(w: World, id: string, e: Execution, t: Readings): World {
    w.(table := w.table[id := e], flights := w.flights - {id}, clock := t.t3)
  }

  function Recoverable(table: map<string, Execution>): set<string> {
    set id | id in table && !IsTerminal(table[id].state)
  }

  function Next(w: World, s: Step): World
    requires Enabled(w, s)
  {
    match s
    case Launch(id, spec, t) => SaveAndGoOn(w, id, Created(id, spec, t), ToValidate, t)
    case Validate(id, v, t) =>
      var e := AfterValidation(w.flights[id].copy, v, t);
      if v.Valid? then SaveAndGoOn(w, id, e, ToPrepare, t) else SaveAndEnd(w, id, e, t)
    case Prepare(id, p, t) =>
      var e := AfterPreparation(w.flights[id].copy, p, t);
      if p.PrepareOk? then SaveAndGoOn(w, id, e, ToMarkLaunching, t) else SaveAndEnd(w, id, e, t)
    case MarkLaunching(id, t) => SaveAndGoOn(w, id, MarkedLaunching(w.flights[id].copy, t), ToSpawn, t)
    case Spawn(id, s, t) => SaveAndEnd(w, id, AfterSpawn(w.flights[id].copy, s, t), t)
    case Terminate(id, t) =>
      if IsTerminal(w.table[id].state) then w.(clock := t.t3)
      else SaveAndGoOn(w, id, LaunchSteps.TerminationRequested(w.table[id], t), ToKill, t)
    case Kill(id, k, t) => SaveAndEnd(w, id, AfterKill(w.flights[id].copy, k, t), t)
    case Poll(id, i, t) => SaveAndEnd(w, id, Polled(w.table[id], i, t), t)
    case Recover(id, i, t) =>
      var r := SaveAndEnd(w, id, Recovered(w.table[id], i, w.mode.epoch, t), t);
      r.(mode := Booting(w.mode.epoch, w.mode.todo - {id}))
    case Crash(epoch) => w.(flights := map[], mode := Booting(epoch, Recoverable(w.table)))
    case Serve => w.(mode := Serving)
  }

  // ---------- The invariant ----------

  /** The state that an operation leaves in the store while it is in progress. */
  predicate StateIn(p: Phase, s: LaunchState) {
    match p
    case ToValidate => s.Pending?
    case ToPrepare => s.Preparing?
    case ToMarkLaunching => s.Validated?
    case ToSpawn => s.Launching?
    case ToKill => s.Terminating?
  }

  ghost predicate FlightOk(w: World, id: string)
    requires id in w.flights
  {
    && id in w.table
    && w.flights[id].copy == w.table[id]
    && StateIn(w.flights[id].phase, w.table[id].state)
  }

  /** Not stuck halfway through the pipeline. */
  predicate AtRest(e: Execution) {
    IsTerminal(e.state) || e.state.Unknown? || e.pid.Some?
  }

  predicate JustRecovered(e: Execution) {
    IsTerminal(e.state) || e.state.Unknown? || (e.pid.Some? && e.liveness.Alive?)
  }

  ghost predicate RowOk(w: World, id: string)
    requires id in w.table
  {
    && w.table[id].executionId == id
    && RecordInv(w.table[id], w.clock)
    && (w.mode.Serving? && id !in w.flights ==> AtRest(w.table[id]))
    && (w.mode.Booting? && id !in w.mode.todo ==> JustRecovered(w.table[id]))
    && (w.mode.Booting? && id in w.mode.todo ==> !IsTerminal(w.table[id].state))
  }

  ghost predicate WorldInv(w: World) {
    && 0 <= w.clock
    && (w.mode.Booting? ==> w.flights == map[] && w.mode.todo <= w.table.Keys)
    && (forall id | id in w.table :: RowOk(w, id))
    && (forall id | id in w.flights :: FlightOk(w, id))
  }

  function Initial(epoch: string, clock: int): World {
    World(map[], map[], Booting(epoch, {}), clock)
  }

  /** A step touches at most the row and the flight of its own id. */
  ghost predicate OnlyTouches(w: World, w': World, id: string) {
    && w.clock <= w'.clock
    && w.table.Keys <= w'.table.Keys <= w.table.Keys + {id}
    && (forall k | k in w.table && k != id :: w'.table[k] == w.table[k])
    && (forall k | k != id :: k in w'.flights <==> k in w.flights)
    && (forall k | k in w.flights && k != id :: w'.flights[k] == w.flights[k])
    && (w'.mode == w.mode || (w.mode.Booting? && w'.mode == Booting(w.mode.epoch, w.mode.todo - {id})))
  }

  /** The record that a step changes, if any, goes on from where it was. */
  ghost predicate RowGoesOn(w: World, w': World, id: string) {
    id in w.table ==>
      && id in w'.table
      && Continues(w.table[id], w'.table[id])
      && (IsTerminal(w.table[id].state) ==> w'.table[id] == w.table[id])
  }

  /** The invariant holds again; rows are only added; every log is extended; terminal rows
      stay exactly as they are. */
  ghost predicate Kept(w: World, w': World) {
    WorldInv(w') && forall id | id in w.table :: RowGoesOn(w, w', id)
  }

  lemma LocalStep(w: World, w': World, id: string)
    requires WorldInv(w) && OnlyTouches(w, w', id)
    requires RowGoesOn(w, w', id)
    requires id in w'.table ==> RowOk(w', id)
    requires id in w'.flights ==> w'.mode.Serving? && FlightOk(w', id)
    ensures Kept(w, w')
  {
    forall k | k in w'.table
      ensures RowOk(w', k) && RowGoesOn(w, w', k)
    {
      if k != id {
        OtherRow(w, w', id, k);
      }
    }
    forall k | k in w'.flights
      ensures FlightOk(w', k)
    {
      assert k != id ==> FlightOk(w, k);
    }
    if w'.mode.Booting? {
      assert w'.flights.Keys == {};
    }
  }

  lemma OtherRow(w: World, w': World, id: string, k: string)
    requires WorldInv(w) && OnlyTouches(w, w', id) && k != id && k in w'.table
    ensures RowOk(w', k) && RowGoesOn(w, w', k)
  {
    assert RowOk(w, k);
    Later(w.table[k], w.clock, w'.clock);
  }

  lemma SaveAndGoOnKeeps(w: World, id: string, e: Execution, p: Phase, t: Readings)
    requires WorldInv(w) && w.mode.Serving? && w.clock <= t.t3
    requires e.executionId == id && RecordInv(e, t.t3) && StateIn(p, e.state)
    requires id in w.table ==> !IsTerminal(w.table[id].state) && Continues(w.table[id], e)
    ensures Kept(w, SaveAndGoOn(w, id, e, p, t))
  {
    var w' := SaveAndGoOn(w, id, e, p, t);
    assert OnlyTouches(w, w', id);
    assert RowOk(w', id) && FlightOk(w', id);
    LocalStep(w, w', id);
  }

  lemma SaveAndEndKeeps(w: World, id: string, e: Execution, t: Readings)
    requires WorldInv(w) && w.mode.Serving? && w.clock <= t.t3
    requires e.executionId == id && RecordInv(e, t.t3) && AtRest(e)
    requires id in w.table && Continues(w.table[id], e) && (IsTerminal(w.table[id].state) ==> e == w.table[id])
    ensures Kept(w, SaveAndEnd(w, id, e, t))
  {
    var w' := SaveAndEnd(w, id, e, t);
    assert OnlyTouches(w, w', id);
    assert RowOk(w', id) && id !in w'.flights;
    LocalStep(w, w', id);
  }

  /** What an operation in progress can rely on. */
  lemma FlightFacts(w: World, id: string)
    requires WorldInv(w) && id in w.flights
    ensures w.mode.Serving? && id in w.table && w.flights[id].copy == w.table[id]
    ensures w.table[id].executionId == id && RecordInv(w.table[id], w.clock)
    ensures StateIn(w.flights[id].phase, w.table[id].state)
  {
    assert FlightOk(w, id) && RowOk(w, id);
  }

  lemma LaunchStep(w: World, s: Step)
    requires WorldInv(w) && Enabled(w, s) && s.Launch?
    ensures Kept(w, Next(w, s))
  {
    CreatedInv(s.id, s.spec, s.t, w.clock);
    SaveAndGoOnKeeps(w, s.id, Created(s.id, s.spec, s.t), ToValidate, s.t);
  }

  lemma ValidateStep(w: World, s: Step)
    requires WorldInv(w) && Enabled(w, s) && s.Validate?
    ensures Kept(w, Next(w, s))
  {
    FlightFacts(w, s.id);
    ValidationInv(w.table[s.id], s.v, s.t, w.clock);
    var e := AfterValidation(w.table[s.id], s.v, s.t);
    if s.v.Valid? {
      SaveAndGoOnKeeps(w, s.id, e, ToPrepare, s.t);
    } else {
      SaveAndEndKeeps(w, s.id, e, s.t);
    }
  }

  lemma PrepareStep(w: World, s: Step)
    requires WorldInv(w) && Enabled(w, s) && s.Prepare?
    ensures Kept(w, Next(w, s))
  {
    FlightFacts(w, s.id);
    PreparationInv(w.table[s.id], s.p, s.t, w.clock);
    var e := AfterPreparation(w.table[s.id], s.p, s.t);
    if s.p.PrepareOk? {
      SaveAndGoOnKeeps(w, s.id, e, ToMarkLaunching, s.t);
    } else {
      SaveAndEndKeeps(w, s.id, e, s.t);
    }
  }

  lemma MarkLaunchingStep(w: World, s: Step)
    requires WorldInv(w) && Enabled(w, s) && s.MarkLaunching?
    ensures Kept(w, Next(w, s))
  {
    FlightFacts(w, s.id);
    LaunchingInv(w.table[s.id], s.t, w.clock);
    SaveAndGoOnKeeps(w, s.id, MarkedLaunching(w.table[s.id], s.t), ToSpawn, s.t);
  }

  lemma SpawnStep(w: World, s: Step)
    requires WorldInv(w) && Enabled(w, s) && s.Spawn?
    ensures Kept(w, Next(w, s))
  {
    FlightFacts(w, s.id);
    SpawnInv(w.table[s.id], s.s, s.t, w.clock);
    SaveAndEndKeeps(w, s.id, AfterSpawn(w.table[s.id], s.s, s.t), s.t);
  }

  lemma TerminateStep(w: World, s: Step)
    requires WorldInv(w) && Enabled(w, s) && s.Terminate?
    ensures Kept(w, Next(w, s))
  {
    assert RowOk(w, s.id);
    var e := w.table[s.id];
    if IsTerminal(e.state) {
      Later(e, w.clock, s.t.t3);
      LocalStep(w, Next(w, s), s.id);
    } else {
      RequestInv(e, s.t, w.clock);
      SaveAndGoOnKeeps(w, s.id, LaunchSteps.TerminationRequested(e, s.t), ToKill, s.t);
    }
  }

  lemma KillStep(w: World, s: Step)
    requires WorldInv(w) && Enabled(w, s) && s.Kill?
    ensures Kept(w, Next(w, s))
  {
    FlightFacts(w, s.id);
    KillInv(w.table[s.id], s.k, s.t, w.clock);
    SaveAndEndKeeps(w, s.id, AfterKill(w.table[s.id], s.k, s.t), s.t);
  }

  lemma PollStep(w: World, s: Step)
    requires WorldInv(w) && Enabled(w, s) && s.Poll?
    ensures Kept(w, Next(w, s))
  {
    assert RowOk(w, s.id);
    PollInv(w.table[s.id], s.i, s.t, w.clock);
    PollRests(w.table[s.id], s.i, s.t);
    SaveAndEndKeeps(w, s.id, Polled(w.table[s.id], s.i, s.t), s.t);
  }

  lemma PollRests(e: Execution, i: Inspection, t: Readings)
    requires AtRest(e)
    ensures AtRest(Polled(e, i, t))
  {
  }

  lemma RecoverStep(w: World, s: Step)
    requires WorldInv(w) && Enabled(w, s) && s.Recover?
    ensures Kept(w, Next(w, s))
  {
    assert RowOk(w, s.id);
    RecoveryInv(w.table[s.id], s.i, w.mode.epoch, s.t, w.clock);
    RecoveryRests(w.table[s.id], s.i, w.mode.epoch, s.t);
    LocalStep(w, Next(w, s), s.id);
  }

  lemma RecoveryRests(e: Execution, i: Inspection, epoch: string, t: Readings)
    requires !IsTerminal(e.state)
    ensures JustRecovered(Recovered(e, i, epoch, t))
  {
  }

  lemma CrashStep(w: World, s: Step)
    requires WorldInv(w) && s.Crash?
    ensures Kept(w, Next(w, s))
  {
    var w' := Next(w, s);
    forall id | id in w'.table
      ensures RowOk(w', id)
    {
      assert RowOk(w, id);
    }
  }

  lemma ServeStep(w: World, s: Step)
    requires WorldInv(w) && Enabled(w, s) && s.Serve?
    ensures Kept(w, Next(w, s))
  {
    var w' := Next(w, s);
    forall id | id in w'.table
      ensures RowOk(w', id)
    {
      assert RowOk(w, id);
    }
  }

  /** Every step keeps the invariant, only ever adds rows, extends the log of every row and
      leaves terminal rows exactly as they are. */
  lemma StepKeeps(w: World, s: Step)
    requires WorldInv(w) && Enabled(w, s)
    ensures Kept(w, Next(w, s))
  {
    match s
    case Launch(_, _, _) => LaunchStep(w, s);
    case Validate(_, _, _) => ValidateStep(w, s);
    case Prepare(_, _, _) => PrepareStep(w, s);
    case MarkLaunching(_, _) => MarkLaunchingStep(w, s);
    case Spawn(_, _, _) => SpawnStep(w, s);
    case Terminate(_, _) => TerminateStep(w, s);
    case Kill(_, _, _) => KillStep(w, s);
    case Poll(_, _, _) => PollStep(w, s);
    case Recover(_, _, _) => RecoverStep(w, s);
    case Crash(_) => CrashStep(w, s);
    case Serve => ServeStep(w, s);
  }

  // ---------- Runs ----------

  predicate ValidRun(w: World, steps: seq<Step>)
    decreases |steps|
  {
    steps == [] || (Enabled(w, steps[0]) && ValidRun(Next(w, steps[0]), steps[1..]))
  }

  function After(w: World, steps: seq<Step>): World
    requires ValidRun(w, steps)
    decreases |steps|
  {
    if steps == [] then w else After(Next(w, steps[0]), steps[1..])
  }

  lemma {:induction false} RunKeeps(w: World, steps: seq<Step>)
    requires WorldInv(w) && ValidRun(w, steps)
    ensures Kept(w, After(w, steps))
    decreases |steps|
  {
    if steps != [] {
      var w1 := Next(w, steps[0]);
      StepKeeps(w, steps[0]);
      RunKeeps(w1, steps[1..]);
      forall id | id in w.table
        ensures RowGoesOn(w, After(w, steps), id)
      {
        assert RowGoesOn(w, w1, id) && RowGoesOn(w1, After(w, steps), id);
      }
    }
  }

  ghost predicate Reachable(w: World) {
    exists epoch, clock, steps ::
      0 <= clock && ValidRun(Initial(epoch, clock), steps) && w == After(Initial(epoch, clock), steps)
  }

  lemma ReachableInv(w: World)
    requires Reachable(w)
    ensures WorldInv(w)
  {
    var epoch, clock, steps :|
      0 <= clock && ValidRun(Initial(epoch, clock), steps) && w == After(Initial(epoch, clock), steps);
    RunKeeps(Initial(epoch, clock), steps);
  }
}
