/** What polling guarantees: which polls the table refuses, how often a poll can report
    a change, and where polling under a constant answer ends. */
module PollProperties {
  import opened Wrappers
  import opened LaunchSchema
  import opened Lifecycle
  import opened Reconciliation
  import opened RecordInvariants

  /** The four situations in which a poll asks for a transition the table does not have. */
  predicate RefusedCase(e: Execution, i: Inspection) {
    || (e.state.Terminating? && e.pid.None?)
    || (e.pid.Some? && i.Observed? &&
        (|| (e.state.Degraded? && !i.obs.processExists)
         || (e.state.Degraded? && i.obs.processExists && i.obs.backendError.None? && i.obs.readySignal)
         || (e.state.Unknown? && i.obs.processExists && !i.obs.readySignal)))
  }

  /** For persisted records there are no others. */
  lemma RefusedExactly(e: Execution, i: Inspection, now: int, clock: int)
    requires RecordInv(e, clock)
    ensures Refused(e, i, now) <==> RefusedCase(e, i)
  {
  }

  /** A refused poll persists nothing and reports nothing, whatever it wrote in memory. */
  lemma RefusedLeavesNoMark(e: Execution, i: Inspection, t: Readings)
    requires Refused(e, i, t.t0)
    ensures Polled(e, i, t) == e && PollEvents(e, i, t) == []
    ensures Reconciled(e, i, t).state == e.state && Reconciled(e, i, t).trace == e.trace
  {
  }

  /** Such a write does happen: a Degraded process that died is Dead in memory only. */
  lemma RefusedPollMayWriteMemory(e: Execution, obs: Observation, t: Readings)
    requires e.state.Degraded? && e.pid.Some? && e.liveness.Alive? && !obs.processExists
    ensures Reconciled(e, Observed(obs), t).liveness == Dead
    ensures Polled(e, Observed(obs), t).liveness == Alive
  {
  }

  /** A poll more than fifteen seconds after the start never leaves the record in Starting. */
  lemma NoStartingAfterDeadline(e: Execution, i: Inspection, t: Readings, clock: int)
    requires RecordInv(e, clock) && e.startedAt.Some?
    requires t.t0 - e.startedAt.value > 15
    ensures !Polled(e, i, t).state.Starting?
  {
  }

  /** Up to then, a live process that is not ready keeps waiting. */
  lemma WaitsUntilDeadline(e: Execution, obs: Observation, t: Readings, clock: int)
    requires RecordInv(e, clock) && e.state.Starting?
    requires obs.processExists && !obs.readySignal
    ensures Polled(e, Observed(obs), t).state.Starting? <==> t.t0 - e.startedAt.value <= 15
    ensures Polled(e, Observed(obs), t).state.Failed? <==> t.t0 - e.startedAt.value > 15
  {
  }

  // ---------- Convergence ----------

  /** The same answer up to the time it was given. */
  predicate SameAnswer(i: Inspection, j: Inspection) {
    match (i, j)
    case (InspectError, InspectError) => true
    case (Observed(a), Observed(b)) => a == b.(observedAt := a.observedAt)
    case _ => false
  }

  predicate Settled(e: Execution, obs: Observation) {
    e.liveness.Alive? && !MaterialSignalChanged(e.signal, Some(SignalOf(obs)))
  }

  /** How many changes polling under the answer `i` can still report. */
  function Budget(e: Execution, i: Inspection): nat {
    if !IsPolled(e.state) || RefusedCase(e, i) then 0
    else if e.pid.None? then 1
    else if i.InspectError? then if e.state.Unknown? then 0 else 1
    else if !i.obs.processExists then 1
    else match e.state
      case Starting =>
        if i.obs.readySignal then if i.obs.backendError.Some? then 2 else 1
        else if Settled(e, i.obs) then 1 else 2
      case Running => if i.obs.backendError.Some? then 1 else if Settled(e, i.obs) then 0 else 1
      case Unknown => if i.obs.backendError.Some? then 2 else 1
      case _ => if Settled(e, i.obs) then 0 else 1
  }

  /** Unless the process that the record should have is missing from it. */
  ghost predicate Pollable(e: Execution) {
    e.state.Starting? || e.state.Running? || e.state.Degraded? ==> e.pid.Some?
  }

  /** A poll answered `j` spends its events, and every change of state, from the budget under `i`. */
  ghost predicate Spends(e: Execution, i: Inspection, j: Inspection, t: Readings) {
    var e' := Polled(e, j, t);
    && Pollable(e')
    && |PollEvents(e, j, t)| + Budget(e', i) <= Budget(e, i)
    && (e'.state != e.state ==> |PollEvents(e, j, t)| == 1)
  }

  lemma PollSpends(e: Execution, i: Inspection, j: Inspection, t: Readings)
    requires Pollable(e) && SameAnswer(i, j)
    ensures Spends(e, i, j, t)
  {
    if IsPolled(e.state) && e.pid.Some? && i.Observed? {
      if !j.obs.processExists {
        GonePollSpends(e, i.obs, j.obs, t);
      } else {
        match e.state
        case Starting => StartingPollSpends(e, i.obs, j.obs, t);
        case Running =>
          if i.obs.backendError.Some? {
            FailingPollSpends(e, i.obs, j.obs, t);
          } else {
            QuietPollSpends(e, i.obs, j.obs, t);
          }
        case Degraded => DegradedPollSpends(e, i.obs, j.obs, t);
        case Unknown => UnknownPollSpends(e, i.obs, j.obs, t);
        case Terminating => TerminatingPollSpends(e, i.obs, j.obs, t);
      }
    }
  }

  lemma GonePollSpends(e: Execution, a: Observation, b: Observation, t: Readings)
    requires IsPolled(e.state) && e.pid.Some? && SameAnswer(Observed(a), Observed(b)) && !a.processExists
    ensures Spends(e, Observed(a), Observed(b), t)
  {
  }

  lemma StartingPollSpends(e: Execution, a: Observation, b: Observation, t: Readings)
    requires e.state.Starting? && e.pid.Some? && SameAnswer(Observed(a), Observed(b)) && a.processExists
    ensures Spends(e, Observed(a), Observed(b), t)
  {
  }

  lemma FailingPollSpends(e: Execution, a: Observation, b: Observation, t: Readings)
    requires e.state.Running? && e.pid.Some? && SameAnswer(Observed(a), Observed(b)) && a.processExists
    requires a.backendError.Some?
    ensures Spends(e, Observed(a), Observed(b), t)
  {
  }

  lemma QuietPollSpends(e: Execution, a: Observation, b: Observation, t: Readings)
    requires e.state.Running? && e.pid.Some? && SameAnswer(Observed(a), Observed(b)) && a.processExists
    requires a.backendError.None?
    ensures Spends(e, Observed(a), Observed(b), t)
  {
  }

  lemma DegradedPollSpends(e: Execution, a: Observation, b: Observation, t: Readings)
    requires e.state.Degraded? && e.pid.Some? && SameAnswer(Observed(a), Observed(b)) && a.processExists
    ensures Spends(e, Observed(a), Observed(b), t)
  {
  }

  lemma UnknownPollSpends(e: Execution, a: Observation, b: Observation, t: Readings)
    requires e.state.Unknown? && e.pid.Some? && SameAnswer(Observed(a), Observed(b)) && a.processExists
    ensures Spends(e, Observed(a), Observed(b), t)
  {
  }

  lemma TerminatingPollSpends(e: Execution, a: Observation, b: Observation, t: Readings)
    requires e.state.Terminating? && e.pid.Some? && SameAnswer(Observed(a), Observed(b)) && a.processExists
    ensures Spends(e, Observed(a), Observed(b), t)
  {
  }

  datatype Poll = Poll(answer: Inspection, t: Readings)

  /** The stored record after a series of polls. */
  function AfterPolls(e: Execution, polls: seq<Poll>): Execution
    decreases |polls|
  {
    if polls == [] then e
    else AfterPolls(Polled(e, polls[0].answer, polls[0].t), polls[1..])
  }

  function EventsOfPolls(e: Execution, polls: seq<Poll>): seq<RuntimeEvent>
    decreases |polls|
  {
    if polls == [] then []
    else PollEvents(e, polls[0].answer, polls[0].t)
         + EventsOfPolls(Polled(e, polls[0].answer, polls[0].t), polls[1..])
  }

  function StateChanges(e: Execution, polls: seq<Poll>): nat
    decreases |polls|
  {
    if polls == [] then 0
    else
      var e' := Polled(e, polls[0].answer, polls[0].t);
      (if e'.state != e.state then 1 else 0) + StateChanges(e', polls[1..])
  }

  lemma {:induction false} PollsSpend(e: Execution, i: Inspection, polls: seq<Poll>)
    requires Pollable(e)
    requires forall k | 0 <= k < |polls| :: SameAnswer(i, polls[k].answer)
    ensures StateChanges(e, polls) <= |EventsOfPolls(e, polls)| <= Budget(e, i)
    decreases |polls|
  {
    if polls != [] {
      PollSpends(e, i, polls[0].answer, polls[0].t);
      PollsSpend(Polled(e, polls[0].answer, polls[0].t), i, polls[1..]);
    }
  }

  /** However many polls give the same answer, and whatever the clock does, they change the
      state at most twice and report at most two changes. */
  lemma PollingConverges(e: Execution, i: Inspection, polls: seq<Poll>, clock: int)
    requires RecordInv(e, clock)
    requires forall k | 0 <= k < |polls| :: SameAnswer(i, polls[k].answer)
    ensures StateChanges(e, polls) <= 2
    ensures |EventsOfPolls(e, polls)| <= 2
  {
    PollsSpend(e, i, polls);
  }

  /** The state that polling under a constant answer ends in, once deadlines have passed. */
  function Limit(e: Execution, i: Inspection): LaunchState {
    if !IsPolled(e.state) || RefusedCase(e, i) then e.state
    else if e.pid.None? then Failed
    else if i.InspectError? then Unknown
    else if !i.obs.processExists then
      if e.state.Terminating? then Terminated else if e.state.Starting? then Failed else Exited
    else if e.state.Starting? && !i.obs.readySignal then Failed
    else if e.state.Terminating? || e.state.Degraded? then e.state
    else if i.obs.backendError.Some? then Degraded
    else Running
  }

  /** Two polls after the deadline already reach it, and no later poll leaves it. */
  lemma PollingReachesLimit(e: Execution, i: Inspection, p: Poll, q: Poll, clock: int)
    requires RecordInv(e, clock) && p.t.NotBefore(clock) && q.t.NotBefore(p.t.t3)
    requires SameAnswer(i, p.answer) && SameAnswer(i, q.answer)
    requires e.startedAt.Some? ==> e.startedAt.value + READINESS_TIMEOUT_SEC < p.t.t0
    ensures var e2 := AfterPolls(e, [p, q]);
            e2.state == Limit(e, i) && Limit(e2, i) == e2.state
  {
    var e1 := Polled(e, p.answer, p.t);
    OnePollTowardsLimit(e, i, p, clock);
    PollInv(e, p.answer, p.t, clock);
    OnePollTowardsLimit(e1, i, q, p.t.t3);
    assert [p, q][1..] == [q];
    assert AfterPolls(e, [p, q]) == AfterPolls(e1, [q]);
    assert [q][1..] == [];
    assert AfterPolls(e1, [q]) == Polled(e1, q.answer, q.t);
  }

  lemma OnePollTowardsLimit(e: Execution, i: Inspection, p: Poll, clock: int)
    requires RecordInv(e, clock) && p.t.NotBefore(clock) && SameAnswer(i, p.answer)
    requires e.startedAt.Some? ==> e.startedAt.value + READINESS_TIMEOUT_SEC < p.t.t0
    ensures TowardsLimit(e, Polled(e, p.answer, p.t), i)
  {
    if i.Observed? && i.obs.processExists {
      AlivePollTowardsLimit(e, i.obs, p.answer.obs, p.t, clock);
    }
  }

  lemma AlivePollTowardsLimit(e: Execution, a: Observation, b: Observation, t: Readings, clock: int)
    requires RecordInv(e, clock) && t.NotBefore(clock)
    requires SameAnswer(Observed(a), Observed(b)) && a.processExists
    requires e.startedAt.Some? ==> e.startedAt.value + READINESS_TIMEOUT_SEC < t.t0
    ensures TowardsLimit(e, Polled(e, Observed(b), t), Observed(a))
  {
    if e.pid.Some? {
      if e.state.Starting? {
        StartingPollTowardsLimit(e, a, b, t);
      } else {
        LaterPollTowardsLimit(e, a, b, t);
      }
    }
  }

  lemma StartingPollTowardsLimit(e: Execution, a: Observation, b: Observation, t: Readings)
    requires e.state.Starting? && e.pid.Some? && SameAnswer(Observed(a), Observed(b)) && a.processExists
    requires e.startedAt.Some? && 0 < e.startedAt.value + READINESS_TIMEOUT_SEC < t.t0
    ensures TowardsLimit(e, Polled(e, Observed(b), t), Observed(a))
  {
  }

  lemma LaterPollTowardsLimit(e: Execution, a: Observation, b: Observation, t: Readings)
    requires !e.state.Starting? && e.pid.Some? && SameAnswer(Observed(a), Observed(b)) && a.processExists
    ensures TowardsLimit(e, Polled(e, Observed(b), t), Observed(a))
  {
  }

  /** A poll arrives, or is in Running on the way to Degraded; and what has arrived stays. */
  ghost predicate TowardsLimit(e: Execution, e': Execution, i: Inspection) {
    && Limit(e', i) == Limit(e, i)
    && e'.startedAt == e.startedAt
    && (e'.state == Limit(e, i) || (e'.state.Running? && Limit(e, i).Degraded?))
    && (e.state.Running? && Limit(e, i).Degraded? ==> e'.state.Degraded?)
    && (e.state == Limit(e, i) ==> e'.state == e.state)
  }
}
