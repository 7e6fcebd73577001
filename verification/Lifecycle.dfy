/** The transition table, the guarded transition, and what every chain of
    accepted transitions obeys. */
module Lifecycle {
  import opened Wrappers
  import opened LaunchSchema

  /** The strict table, which says nothing about Unknown. */
  predicate TableAllows(current: LaunchState, next: LaunchState) {
    match current
    case Pending => next.Preparing? || next.Terminated?
    case Preparing => next.Validated? || next.Failed? || next.Terminating?
    case Validated => next.Launching? || next.Failed? || next.Terminating?
    case Launching => next.Starting? || next.Failed? || next.Terminating?
    case Starting => next.Running? || next.Exited? || next.Failed? || next.Terminating?
    case Running => next.Degraded? || next.Exited? || next.Terminating?
    case Degraded => next.Failed? || next.Terminating?
    case Terminating => next.Terminated?
    case _ => false
  }

  predicate IsTransitionAllowed(current: LaunchState, next: LaunchState) {
    if next.Unknown? then
      !current.Terminated? && !current.Failed? && !current.Exited?
    else if current.Unknown? then
      next.Running? || next.Exited? || next.Failed? || next.Terminating?
    else
      TableAllows(current, next)
  }

  /** The accepted transitions, pair by pair. */
  lemma AcceptedTransitions(a: LaunchState, b: LaunchState)
    ensures IsTransitionAllowed(a, b) <==>
            if b == Unknown then a !in {Exited, Failed, Terminated}
            else (a, b) in {(Pending, Preparing), (Pending, Terminated),
                            (Preparing, Validated), (Preparing, Failed), (Preparing, Terminating),
                            (Validated, Launching), (Validated, Failed), (Validated, Terminating),
                            (Launching, Starting), (Launching, Failed), (Launching, Terminating),
                            (Starting, Running), (Starting, Exited), (Starting, Failed), (Starting, Terminating),
                            (Running, Degraded), (Running, Exited), (Running, Terminating),
                            (Degraded, Failed), (Degraded, Terminating), (Terminating, Terminated),
                            (Unknown, Running), (Unknown, Exited), (Unknown, Failed), (Unknown, Terminating)}
  {
  }

  // ---------- Writing the record ----------

  function Traced(e: Execution, stage: Stage, status: Status, reason: Reason, now: int): Execution {
    e.(trace := e.trace + [TraceStep(stage, status, reason, now)])
  }

  /** A refused transition leaves the record as it was; most callers ignore the refusal. */
  function Transitioned(e: Execution, next: LaunchState, reason: Reason, now: int): Execution {
    if IsTransitionAllowed(e.state, next) then
      Traced(e, StateTransition, Success, reason, now).(state := next, history := e.history + [next])
    else e
  }

  // ---------- Paths ----------

  ghost predicate LegalPath(path: seq<LaunchState>) {
    var n := |path|;
    if n <= 1 then path == [Pending]
    else LegalPath(path[..n - 1]) && IsTransitionAllowed(path[n - 2], path[n - 1])
  }

  function Count(path: seq<LaunchState>, s: LaunchState): nat {
    if path == [] then 0
    else Count(path[..|path| - 1], s) + if path[|path| - 1] == s then 1 else 0
  }

  /** The longest chain of transitions that avoids Unknown and starts in `s`. */
  function Height(s: LaunchState): nat {
    match s
    case Pending => 8
    case Preparing => 7
    case Validated => 6
    case Launching => 5
    case Starting => 4
    case Running => 3
    case Degraded => 2
    case Terminating => 1
    case Unknown => 4
    case _ => 0
  }

  /** Potential argument: a transition either loses height or enters Unknown. */
  lemma {:induction false} HeightBudget(path: seq<LaunchState>)
    requires LegalPath(path)
    ensures |path| - 1 + Height(path[|path| - 1]) <= 8 + 4 * Count(path, Unknown)
  {
    var n := |path|;
    var front := path[..n - 1];
    if n > 1 {
      HeightBudget(front);
      HeightStep(path[n - 2], path[n - 1]);
      assert front[|front| - 1] == path[n - 2];
    } else {
      assert front == [];
    }
  }

  lemma HeightStep(a: LaunchState, b: LaunchState)
    requires IsTransitionAllowed(a, b)
    ensures Height(b) + 1 <= Height(a) + if b == Unknown then 4 else 0
  {
  }

  /** A whole life has at most 8 + 4u accepted transitions, u of them into Unknown. */
  lemma BoundedLifecycle(path: seq<LaunchState>)
    requires LegalPath(path)
    ensures |path| - 1 <= 8 + 4 * Count(path, Unknown)
    ensures Unknown !in path ==> |path| - 1 <= 8
  {
    HeightBudget(path);
    if Unknown !in path {
      CountAbsent(path, Unknown);
    }
  }

  lemma {:induction false} CountAbsent(path: seq<LaunchState>, s: LaunchState)
    requires s !in path
    ensures Count(path, s) == 0
  {
    if path != [] {
      CountAbsent(path[..|path| - 1], s);
    }
  }

  /** An accepted transition lengthens a legal path by one state. */
  lemma Extend(path: seq<LaunchState>, next: LaunchState)
    requires LegalPath(path) && IsTransitionAllowed(path[|path| - 1], next)
    ensures LegalPath(path + [next])
    ensures Count(path + [next], Unknown) == Count(path, Unknown) + if next.Unknown? then 1 else 0
  {
    assert (path + [next])[..|path|] == path;
  }

  /** The longest life with `u` losses of telemetry, up to its last step. */
  function LongestLife(u: nat): seq<LaunchState> {
    if u == 0 then
      [Pending] + [Preparing] + [Validated] + [Launching] + [Starting] + [Running] + [Degraded] + [Terminating]
    else LongestLife(u - 1) + [Unknown] + [Running] + [Degraded] + [Terminating]
  }

  /** The bound is attained for every number of losses. */
  lemma {:induction false} BoundIsTight(u: nat)
    ensures var life := LongestLife(u) + [Terminated];
            LegalPath(life) && Count(life, Unknown) == u && |life| - 1 == 8 + 4 * u
  {
    LongestLifeLegal(u);
    Extend(LongestLife(u), Terminated);
  }

  lemma {:induction false} LongestLifeLegal(u: nat)
    ensures var p := LongestLife(u);
            LegalPath(p) && |p| == 8 + 4 * u && p[|p| - 1] == Terminating && Count(p, Unknown) == u
  {
    if u == 0 {
      UpToLaunching();
      FromLaunching([Pending] + [Preparing] + [Validated] + [Launching]);
    } else {
      LongestLifeLegal(u - 1);
      Extend(LongestLife(u - 1), Unknown);
      FromUnknown(LongestLife(u - 1) + [Unknown]);
    }
  }

  lemma UpToLaunching()
    ensures var p := [Pending] + [Preparing] + [Validated] + [Launching];
            LegalPath(p) && Count(p, Unknown) == 0
  {
    assert [Pending][..0] == [];
    Extend([Pending], Preparing);
    Extend([Pending] + [Preparing], Validated);
    Extend([Pending] + [Preparing] + [Validated], Launching);
  }

  lemma FromLaunching(p: seq<LaunchState>)
    requires LegalPath(p) && p[|p| - 1] == Launching
    ensures var q := p + [Starting] + [Running] + [Degraded] + [Terminating];
            LegalPath(q) && Count(q, Unknown) == Count(p, Unknown)
  {
    Extend(p, Starting);
    Extend(p + [Starting], Running);
    FromRunning(p + [Starting] + [Running]);
  }

  lemma FromUnknown(p: seq<LaunchState>)
    requires LegalPath(p) && p[|p| - 1] == Unknown
    ensures var q := p + [Running] + [Degraded] + [Terminating];
            LegalPath(q) && Count(q, Unknown) == Count(p, Unknown)
  {
    Extend(p, Running);
    FromRunning(p + [Running]);
  }

  lemma FromRunning(p: seq<LaunchState>)
    requires LegalPath(p) && p[|p| - 1] == Running
    ensures var q := p + [Degraded] + [Terminating];
            LegalPath(q) && Count(q, Unknown) == Count(p, Unknown)
  {
    Extend(p, Degraded);
    Extend(p + [Degraded], Terminating);
  }

  /** The table alone does not give the documented guarantee: it lets a record
      that never had a process reach Running. */
  lemma TableAloneAllowsRunningWithoutStart()
    ensures LegalPath([Pending, Unknown, Running])
    ensures Starting !in [Pending, Unknown, Running]
  {
  }

  /** Terminal states are exactly the states without a way out. */
  lemma TerminalIffNoWayOut(s: LaunchState)
    ensures IsTerminal(s) <==> forall next :: !IsTransitionAllowed(s, next)
  {
    if !IsTerminal(s) {
      assert IsTransitionAllowed(s, Unknown);
    }
  }

  lemma {:induction false} StepsAreAllowed(path: seq<LaunchState>, k: nat)
    requires LegalPath(path) && k + 1 < |path|
    ensures IsTransitionAllowed(path[k], path[k + 1])
  {
    var n := |path|;
    if k + 2 < n {
      StepsAreAllowed(path[..n - 1], k);
    }
  }

  /** A termination that was requested can only be lost through Unknown: whatever comes later,
      Running included, comes after an Unknown that directly follows Terminating. */
  lemma TerminatingIsLeftThroughUnknown(path: seq<LaunchState>, i: nat, j: nat)
    requires LegalPath(path) && i < j < |path| && path[i].Terminating? && !path[j].Terminated?
    ensures path[i + 1].Unknown?
  {
    StepsAreAllowed(path, i);
    if path[i + 1].Terminated? && i + 1 < j {
      StepsAreAllowed(path, i + 1);
    }
  }

  /** And from that Unknown the way back is open. */
  lemma TerminatingMayReturn(path: seq<LaunchState>)
    requires LegalPath(path) && path[|path| - 1].Terminating?
    ensures LegalPath(path + [Unknown] + [Running])
  {
    Extend(path, Unknown);
    Extend(path + [Unknown], Running);
  }
}
