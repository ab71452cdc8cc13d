/** What the run protocol allows, written as a referee over a log of events. The Orchestrator
    appends to the log; the referee knows nothing of the Orchestrator's fields. */
module RunLog {
  import G = Gates

  datatype Status = Done | Aborted | Failed

  /** What change_sweep_step() came back with. */
  datatype Answer = More | NoMore | Raised

  /** What a gate was satisfied by: its check was polled so, its action run so often. */
  datatype Pass = Pass(
    at: real, hasCheck: bool, windowS: real, polls: seq<G.Poll>, actionDue: bool, actionRuns: nat)

  /** Satisfied now: the check held at its newest poll, which is of this moment, and at every poll
      before it over at least the window; the action was run exactly once. */
  predicate Earned(p: Pass) {
    && (p.hasCheck ==> p.polls != [] && p.polls[|p.polls| - 1].at == p.at && G.HeldFor(p.polls, p.windowS, p.at))
    && (p.actionDue ==> p.actionRuns == 1)
  }

  datatype Event =
    | Initiate(operation: bool)                  // procedure.initiate() called
    | Started                                    // run_started emitted
    | WaitStarted(at: real)                      // the settle clock starts
    | Settled(at: real, waitS: real)             // the settle is over, the point may be read
    | GatesOpened(count: nat)                    // gates replace the settle
    | GatePassed(pass: Pass)                     // a gate is satisfied
    | GatesAbandoned                             // an operation is finished during its gates
    | Measure(saved: bool)                       // measure() called: it returned, or it raised
    | Step(answer: Answer)                       // change_sweep_step() called
    | Standby                                    // standby() called
    | Paused(at: real) | Resumed(at: real)
    | Abort                                      // procedure.abort() called
    | Finished(status: Status)                   // run_finished emitted

  /** The settle clock: time banked in earlier stretches, and the stretch now running. */
  datatype Clock = Off | Running(since: real, banked: real) | Frozen(banked: real)

  datatype Phase =
    | NoRun | Setup | Ramping | Gating(left: nat) | Cleared | Measured | Exhausted | Parked | Doomed | Aborting

  datatype Ledger =
    | Broken
    | Ledger(phase: Phase, operation: bool, paused: bool, clock: Clock)

  const FRESH := Ledger(NoRun, false, false, Off)

  function UnpausedFor(clock: Clock, at: real): real {
    match clock
    case Off => 0.0
    case Running(since, banked) => banked + (at - since)
    case Frozen(banked) => banked
  }

  predicate InRun(phase: Phase) {
    phase != NoRun && phase != Setup && phase != Aborting
  }

  function Accept(l: Ledger, e: Event): Ledger {
    if l.Broken? then Broken
    else match e
      case Initiate(op) => if l.phase == NoRun then Ledger(Setup, op, false, Off) else Broken
      case Started => if l.phase == Setup then l.(phase := Ramping) else Broken
      case Abort =>
        if l.phase == Setup then l.(phase := NoRun)
        else if InRun(l.phase) then l.(phase := Aborting, paused := false, clock := Off)
        else Broken
      case Finished(status) =>
        if l.phase == Aborting && status != Done then l.(phase := NoRun)
        else if l.phase == Parked && !l.paused && status == Done then l.(phase := NoRun, clock := Off)
        else Broken
      case Resumed(at) =>
        if l.paused then l.(paused := false, clock := Resume(l.clock, at)) else Broken
      case _ =>
        if l.paused then Broken else AcceptRunning(l, e)
  }

  /** Events that need the run to be moving: none of them is allowed while it is paused. */
  function AcceptRunning(l: Ledger, e: Event): Ledger
    requires l.Ledger?
  {
    match (l.phase, e)
    case (Ramping, WaitStarted(at)) => if l.clock == Off then l.(clock := Running(at, 0.0)) else Broken
    case (Ramping, Settled(at, waitS)) =>
      if l.clock != Off && UnpausedFor(l.clock, at) >= waitS then l.(phase := Cleared, clock := Off) else Broken
    case (Ramping, GatesOpened(count)) => if count > 0 then l.(phase := Gating(count)) else Broken
    case (Gating(left), GatePassed(pass)) =>
      if Earned(pass) && left > 0
      then l.(phase := if left == 1 then Cleared else Gating(left - 1)) else Broken
    case (Gating(_), GatesAbandoned) => if l.operation then l.(phase := Exhausted) else Broken
    case (Cleared, Measure(saved)) => l.(phase := if saved then Measured else Doomed)
    case (Measured, Step(answer)) =>
      l.(phase := match answer case More => Ramping case NoMore => Exhausted case Raised => Doomed)
    case (Exhausted, Standby) => l.(phase := Parked)
    case (_, Paused(at)) => Pause(l, at)
    case (_, _) => Broken
  }

  /** A settled point is never left unread across a pause, nor a failed call unanswered. */
  function Pause(l: Ledger, at: real): Ledger
    requires l.Ledger?
  {
    if InRun(l.phase) && l.phase != Cleared && l.phase != Doomed
    then l.(paused := true, clock := Freeze(l.clock, at)) else Broken
  }

  function Freeze(c: Clock, at: real): Clock {
    if c.Off? then Off else Frozen(UnpausedFor(c, at))
  }

  function Resume(c: Clock, at: real): Clock {
    if c.Off? then Off else Running(at, UnpausedFor(c, at))
  }

  function Replay(log: seq<Event>): Ledger {
    if log == [] then FRESH else Accept(Replay(log[..|log| - 1]), log[|log| - 1])
  }

  lemma ReplayAppend(log: seq<Event>, e: Event)
    ensures Replay(log + [e]) == Accept(Replay(log), e)
  {
    assert (log + [e])[..|log|] == log;
  }

  lemma {:induction false} PrefixesAccepted(log: seq<Event>, n: nat)
    requires n <= |log| && Replay(log).Ledger?
    ensures Replay(log[..n]).Ledger?
  {
    if n == |log| {
      assert log[..n] == log;
    } else {
      assert log[..|log| - 1][..n] == log[..n];
      PrefixesAccepted(log[..|log| - 1], n);
    }
  }

  // ---- the calls one run makes on its procedure ---------------------------------------------

  datatype Call = CallInitiate | CallMeasure | CallStep(more: bool) | CallStandby | CallAbort

  function CallOf(e: Event): seq<Call> {
    match e
    case Initiate(_) => [CallInitiate]
    case Measure(_) => [CallMeasure]
    case Step(answer) => [CallStep(answer == More)]
    case Standby => [CallStandby]
    case Abort => [CallAbort]
    case _ => []
  }

  /** The calls since the last initiate(), that one included. */
  function CallsOf(log: seq<Event>): seq<Call> {
    if log == [] then []
    else
      var e := log[|log| - 1];
      (if e.Initiate? then [] else CallsOf(log[..|log| - 1])) + CallOf(e)
  }

  lemma CallsAppend(log: seq<Event>, e: Event)
    ensures CallsOf(log + [e]) == (if e.Initiate? then [] else CallsOf(log)) + CallOf(e)
  {
    assert (log + [e])[..|log|] == log;
  }

  /** The reading of `n` points, each followed by the step to the next one. */
  function Points(n: nat): seq<Call> {
    if n == 0 then [] else Points(n - 1) + [CallMeasure, CallStep(true)]
  }

  /** A run that has read `n` points and stands before its next reading. */
  function Opening(n: nat): seq<Call> {
    [CallInitiate] + Points(n)
  }

  /** The points left behind since the last initiate(). */
  function PointsIn(log: seq<Event>): nat {
    if log == [] || log[|log| - 1].Initiate? then 0
    else PointsIn(log[..|log| - 1]) + if log[|log| - 1] == Step(More) then 1 else 0
  }

  /** The sweep is over: it ran out of points, or an operation was finished early. */
  ghost predicate Over(calls: seq<Call>, n: nat, operation: bool) {
    calls == Opening(n) + [CallMeasure, CallStep(false)] || (operation && calls == Opening(n))
  }

  ghost predicate ParkedCalls(calls: seq<Call>, n: nat, operation: bool) {
    || calls == Opening(n) + [CallMeasure, CallStep(false), CallStandby]
    || (operation && calls == Opening(n) + [CallStandby])
  }

  /** Cut short: any stage of a run, then one abort. */
  ghost predicate AbortedCalls(calls: seq<Call>, n: nat, operation: bool) {
    && |calls| > 0 && calls[|calls| - 1] == CallAbort
    && var r := calls[..|calls| - 1];
       r == Opening(n) || r == Opening(n) + [CallMeasure] || Over(r, n, operation) || ParkedCalls(r, n, operation)
  }

  ghost predicate CallsAt(phase: Phase, calls: seq<Call>, n: nat, operation: bool) {
    match phase
    case NoRun => calls == [] || ParkedCalls(calls, n, operation) || AbortedCalls(calls, n, operation)
    case Setup => calls == Opening(0) && n == 0
    case Ramping => calls == Opening(n)
    case Gating(_) => calls == Opening(n)
    case Cleared => calls == Opening(n)
    case Measured => calls == Opening(n) + [CallMeasure]
    case Exhausted => Over(calls, n, operation)
    case Doomed => calls == Opening(n) + [CallMeasure] || calls == Opening(n) + [CallMeasure, CallStep(false)]
    case Parked => ParkedCalls(calls, n, operation)
    case Aborting => AbortedCalls(calls, n, operation)
  }

  /** Every accepted log: the current run's calls are a prefix of
      initiate (measure step)* standby, with at most one abort, last. Pauses, resumes, gates
      and settles come anywhere in between and change nothing of it. */
  lemma {:induction false} CallsFollowTheProtocol(log: seq<Event>)
    requires Replay(log).Ledger?
    ensures CallsAt(Replay(log).phase, CallsOf(log), PointsIn(log), Replay(log).operation)
  {
    if log != [] {
      CallsFollowTheProtocol(log[..|log| - 1]);
      NextCalls(Replay(log[..|log| - 1]), CallsOf(log[..|log| - 1]), PointsIn(log[..|log| - 1]), log[|log| - 1]);
    }
  }

  lemma StepCalls(n: nat)
    ensures Opening(n) + [CallMeasure] + [CallStep(true)] == Opening(n + 1)
    ensures Opening(n) + [CallMeasure] + [CallStep(false)] == Opening(n) + [CallMeasure, CallStep(false)]
    ensures Opening(n) + [CallMeasure, CallStep(false)] + [CallStandby]
         == Opening(n) + [CallMeasure, CallStep(false), CallStandby]
  {
  }

  lemma NextCalls(l: Ledger, calls: seq<Call>, n: nat, e: Event)
    requires l.Ledger? && Accept(l, e).Ledger? && CallsAt(l.phase, calls, n, l.operation)
    ensures CallsAt(Accept(l, e).phase, (if e.Initiate? then [] else calls) + CallOf(e),
                    if e.Initiate? then 0 else n + if e == Step(More) then 1 else 0, Accept(l, e).operation)
  {
    if e.Measure? || e.Step? || e.Standby? {
      NextRunningCall(l, calls, n, e);
    } else if e.Initiate? {
      assert [] + [CallInitiate] == Opening(0);
    } else {
      hide Opening;
      NextOtherEvent(l, calls, n, e);
    }
  }

  lemma NextRunningCall(l: Ledger, calls: seq<Call>, n: nat, e: Event)
    requires l.Ledger? && Accept(l, e).Ledger? && CallsAt(l.phase, calls, n, l.operation)
    requires (e.Measure? || e.Step? || e.Standby?)
    ensures CallsAt(Accept(l, e).phase, calls + CallOf(e), n + if e == Step(More) then 1 else 0, Accept(l, e).operation)
  {
    StepCalls(n);
    hide Opening;
  }

  lemma NextOtherEvent(l: Ledger, calls: seq<Call>, n: nat, e: Event)
    requires l.Ledger? && Accept(l, e).Ledger? && CallsAt(l.phase, calls, n, l.operation)
    requires !e.Measure? && !e.Step? && !e.Standby? && !e.Initiate?
    ensures CallsAt(Accept(l, e).phase, calls + CallOf(e), n, Accept(l, e).operation)
  {
    hide Opening;
    if e.Abort? {
      AbortCall(l, calls, n);
    } else {
      assert calls + CallOf(e) == calls;
      if e.GatesAbandoned? {
        assert Accept(l, e) == l.(phase := Exhausted) && l.operation;
      } else {
        QuietEvent(l, e);
        hide Accept, AcceptRunning, Over, ParkedCalls, AbortedCalls;
      }
    }
  }

  lemma AbortCall(l: Ledger, calls: seq<Call>, n: nat)
    requires l.Ledger? && Accept(l, Abort).Ledger? && CallsAt(l.phase, calls, n, l.operation)
    ensures CallsAt(Accept(l, Abort).phase, calls + [CallAbort], n, Accept(l, Abort).operation)
  {
    hide Opening;
    assert (calls + [CallAbort])[..|calls|] == calls;
  }

  /** Where an event without a call may lead. */
  lemma QuietEvent(l: Ledger, e: Event)
    requires l.Ledger? && Accept(l, e).Ledger?
    requires e.Started? || e.WaitStarted? || e.Settled? || e.GatesOpened? || e.GatePassed?
      || e.Paused? || e.Resumed? || e.Finished?
    ensures Accept(l, e).operation == l.operation
    ensures || Accept(l, e).phase == l.phase
            || (l.phase == Setup && Accept(l, e).phase == Ramping)
            || ((l.phase == Ramping || l.phase.Gating?)
                && (Accept(l, e).phase == Cleared || Accept(l, e).phase.Gating?))
            || ((l.phase == Parked || l.phase == Aborting) && Accept(l, e).phase == NoRun)
  {
  }

  /** A run that finished "done" made exactly the calls of a whole sweep: each point read once
      and stepped from once, one standby, no abort. */
  lemma DoneMeansWholeSweep(log: seq<Event>)
    requires Replay(log + [Finished(Done)]).Ledger?
    ensures ParkedCalls(CallsOf(log), PointsIn(log), Replay(log).operation)
    ensures CallsOf(log + [Finished(Done)]) == CallsOf(log)
  {
    hide Replay, CallsOf, PointsIn, Opening;
    CallsAppend(log, Finished(Done));
    ReplayAppend(log, Finished(Done));
    CallsFollowTheProtocol(log);
  }

  /** A run that finished any other way was cut by exactly one abort, its last call. */
  lemma OtherwiseCutByOneAbort(log: seq<Event>, status: Status)
    requires status != Done && Replay(log + [Finished(status)]).Ledger?
    ensures AbortedCalls(CallsOf(log), PointsIn(log), Replay(log).operation)
  {
    hide Replay, CallsOf, PointsIn, Opening;
    ReplayAppend(log, Finished(status));
    CallsFollowTheProtocol(log);
  }

  // ---- run_started and run_finished ---------------------------------------------------------

  function OpenRuns(log: seq<Event>): int {
    if log == [] then 0
    else
      var last := log[|log| - 1];
      OpenRuns(log[..|log| - 1]) + (if last.Started? then 1 else if last.Finished? then -1 else 0)
  }

  /** At every moment at most one run is open, and none is closed that was not opened: each
      run_started is followed by exactly one run_finished before the next one. */
  lemma {:induction false} StartsAndFinishesAlternate(log: seq<Event>, n: nat)
    requires Replay(log).Ledger? && n <= |log|
    ensures 0 <= OpenRuns(log[..n]) <= 1 && Replay(log[..n]).Ledger?
    ensures OpenRuns(log[..n]) == 1 <==> Replay(log[..n]).phase != NoRun && Replay(log[..n]).phase != Setup
  {
    PrefixesAccepted(log, n);
    if n > 0 {
      StartsAndFinishesAlternate(log, n - 1);
      assert log[..n][..n - 1] == log[..n - 1];
    }
  }

  // ---- the settle is conserved across pauses ------------------------------------------------

  /** Seconds the log spent unpaused after its last WaitStarted, up to `at`. */
  function UnpausedSince(log: seq<Event>, at: real): real {
    if log == [] then 0.0
    else
      var before := log[..|log| - 1];
      match log[|log| - 1]
      case WaitStarted(t) => at - t
      case Paused(t) => UnpausedSince(before, t)
      case Resumed(t) => UnpausedSince(before, t) + (at - t)
      case _ => UnpausedSince(before, at)
  }

  /** Time stands still in the sum while the log is paused. */
  lemma {:induction false} PausedTimeDoesNotCount(log: seq<Event>, at: real)
    requires Replay(log).Ledger? && Replay(log).clock != Off
    ensures UnpausedSince(log, at) == UnpausedFor(Replay(log).clock, at)
    ensures Replay(log).clock.Frozen? <==> Replay(log).paused
  {
    var before, e := log[..|log| - 1], log[|log| - 1];
    if e.Paused? || e.Resumed? {
      PausedTimeDoesNotCount(before, e.at);
    } else if !e.WaitStarted? {
      PausedTimeDoesNotCount(before, at);
    }
  }

  /** A point is cleared without gates only when the wait clock has run the settle time that the point
      asked for, counted from the start of the clock and without any pause in between. Whose clock it
      is, ClockBelongsToPoint says. */
  lemma SettleIsServedInFull(log: seq<Event>)
    requires |log| > 0 && log[|log| - 1].Settled? && Replay(log).Ledger?
    ensures UnpausedSince(log[..|log| - 1], log[|log| - 1].at) >= log[|log| - 1].waitS
  {
    PausedTimeDoesNotCount(log[..|log| - 1], log[|log| - 1].at);
  }

  // ---- what comes before a reading ----------------------------------------------------------

  lemma {:induction false} NeverPausedWhenCleared(log: seq<Event>)
    requires Replay(log).Ledger?
    ensures !(Replay(log).paused && Replay(log).phase == Cleared)
  {
    if log != [] {
      NeverPausedWhenCleared(log[..|log| - 1]);
    }
  }

  /** Gates still to pass: those last opened, less those passed since. Each point starts with none. */
  function GatesLeft(log: seq<Event>): int {
    if log == [] then 0
    else
      var before := log[..|log| - 1];
      match log[|log| - 1]
      case GatesOpened(count) => count
      case GatePassed(_) => GatesLeft(before) - 1
      case Measure(_) => 0
      case Initiate(_) => 0
      case _ => GatesLeft(before)
  }

  lemma {:induction false} PhaseCountsGates(log: seq<Event>)
    requires Replay(log).Ledger? && Replay(log).phase.Gating?
    ensures GatesLeft(log) == Replay(log).phase.left > 0
  {
    if !log[|log| - 1].GatesOpened? {
      PhaseCountsGates(log[..|log| - 1]);
    }
  }

  /** A reading comes at once after the settle of its point, or after the last of its gates: then
      every gate that was opened for the point has been passed. */
  lemma ReadingsAreCleared(log: seq<Event>, m: nat)
    requires Replay(log).Ledger? && m < |log| && log[m].Measure?
    ensures m > 0 && (log[m - 1].Settled? || (log[m - 1].GatePassed? && GatesLeft(log[..m]) == 0))
  {
    hide Earned, UnpausedFor, Freeze, Resume;
    PrefixesAccepted(log, m + 1);
    assert log[..m + 1] == log[..m] + [log[m]];
    ReplayAppend(log[..m], log[m]);
    assert m > 0;
    assert log[..m] == log[..m - 1] + [log[m - 1]];
    ReplayAppend(log[..m - 1], log[m - 1]);
    NeverPausedWhenCleared(log[..m - 1]);
    if log[m - 1].GatePassed? {
      PhaseCountsGates(log[..m - 1]);
      assert log[..m][..m - 1] == log[..m - 1];
    }
  }

  /** A gate is passed only by a check that held at every poll over its whole window, up to a poll of
      that very moment, with its action run exactly once. */
  lemma GatesPassWhenHeld(log: seq<Event>, m: nat)
    requires Replay(log).Ledger? && m < |log| && log[m].GatePassed?
    ensures var p := log[m].pass;
      && (p.actionDue ==> p.actionRuns == 1)
      && (p.hasCheck ==>
            p.polls != [] && p.polls[|p.polls| - 1].at == p.at && G.HeldThroughout(p.polls, p.windowS, p.at))
  {
    PrefixesAccepted(log, m + 1);
    assert log[..m + 1] == log[..m] + [log[m]];
    ReplayAppend(log[..m], log[m]);
    hide Replay, G.HeldFor, G.HeldThroughout;
    G.HeldForIsThroughout(log[m].pass.polls, log[m].pass.windowS, log[m].pass.at);
  }

  /** The gates passed for the point that is being settled. */
  function PassesOf(log: seq<Event>): seq<Pass> {
    if log == [] then []
    else
      var before := log[..|log| - 1];
      match log[|log| - 1]
      case GatesOpened(_) => []
      case GatePassed(pass) => PassesOf(before) + [pass]
      case Measure(_) => []
      case Initiate(_) => []
      case _ => PassesOf(before)
  }

  /** The newest poll of the gate's check is of this moment, and found it holding. */
  predicate HoldsAt(p: Pass, at: real) {
    p.hasCheck ==> p.polls != [] && p.polls[|p.polls| - 1] == G.Poll(at, true)
  }

  lemma {:induction false} PassesAreEarned(log: seq<Event>)
    requires Replay(log).Ledger?
    ensures forall p :: p in PassesOf(log) ==> Earned(p)
  {
    if log != [] {
      PassesAreEarned(log[..|log| - 1]);
    }
  }

  lemma EarnedHolds(p: Pass, at: real)
    requires Earned(p)
    ensures HoldsAt(p, at) <==> (p.hasCheck ==> p.at == at)
  {
    if p.hasCheck {
      HeldIsHolding(p.polls, p.windowS, p.at);
      hide G.HeldFor;
    }
  }

  lemma HeldIsHolding(polls: seq<G.Poll>, windowS: real, at: real)
    requires G.HeldFor(polls, windowS, at)
    ensures polls != [] && polls[|polls| - 1].holding
  {
  }

  /** A passed gate is not asked again. When a point is read after its gates, every check held at its
      newest poll; that poll is of the moment at which the point was cleared, for all of the gates, if
      and only if all of them were passed at that moment. */
  lemma HeldTogetherIffPassedTogether(log: seq<Event>, m: nat)
    requires Replay(log).Ledger? && m < |log| && log[m].Measure? && m > 0 && log[m - 1].GatePassed?
    ensures var at, passes := log[m - 1].pass.at, PassesOf(log[..m]);
      && passes != [] && passes[|passes| - 1] == log[m - 1].pass
      && (forall p :: p in passes ==> HoldsAt(p, p.at))
      && ((forall p :: p in passes ==> HoldsAt(p, at)) <==> forall p :: p in passes && p.hasCheck ==> p.at == at)
  {
    PrefixesAccepted(log, m);
    PassesAreEarned(log[..m]);
    assert log[..m][..m - 1] == log[..m - 1];
    var at, passes := log[m - 1].pass.at, PassesOf(log[..m]);
    hide Earned, Replay, PassesOf, HoldsAt;
    forall p | p in passes ensures HoldsAt(p, p.at) && (HoldsAt(p, at) <==> (p.hasCheck ==> p.at == at)) {
      EarnedHolds(p, p.at);
      EarnedHolds(p, at);
    }
    assert passes[|passes| - 1] == log[m - 1].pass by { LastPass(log[..m]); }
  }

  lemma LastPass(log: seq<Event>)
    requires log != [] && log[|log| - 1].GatePassed?
    ensures PassesOf(log) != [] && PassesOf(log)[|PassesOf(log)| - 1] == log[|log| - 1].pass
  {
  }

  // ---- when the wait clock belongs to the point being settled ------------------------------

  /** A ramp leg ends when its point is cleared. */
  function LegOf(log: seq<Event>): nat {
    if log == [] then 0
    else LegOf(log[..|log| - 1]) + if log[|log| - 1].Measure? then 1 else 0
  }

  /** The leg in which the clock that is now on was started. */
  function ClockLeg(log: seq<Event>): nat {
    if log == [] then 0
    else if log[|log| - 1].WaitStarted? then LegOf(log)
    else ClockLeg(log[..|log| - 1])
  }

  /** Gates were opened since the clock that is now on was started. */
  predicate GatesSinceClock(log: seq<Event>) {
    if log == [] then false
    else if log[|log| - 1].WaitStarted? then false
    else log[|log| - 1].GatesOpened? || GatesSinceClock(log[..|log| - 1])
  }

  lemma {:induction false} ClockLegIsPast(log: seq<Event>)
    ensures ClockLeg(log) <= LegOf(log)
  {
    if log != [] && !log[|log| - 1].WaitStarted? {
      ClockLegIsPast(log[..|log| - 1]);
    }
  }

  lemma {:induction false} NoClockInSetup(log: seq<Event>)
    requires Replay(log).Ledger? && Replay(log).phase == Setup
    ensures Replay(log).clock == Off && !Replay(log).paused
  {
    hide Earned, UnpausedFor;
    if !log[|log| - 1].Initiate? {
      NoClockInSetup(log[..|log| - 1]);
    }
  }

  lemma WaitStartsRamping(l: Ledger, e: Event)
    requires Accept(l, e).Ledger? && e.WaitStarted?
    ensures Accept(l, e).phase == Ramping
  {
  }

  /** While a clock is on, a leg is left only over gates, and ends only in a reading. */
  lemma ClockStays(l: Ledger, e: Event)
    requires Accept(l, e).Ledger? && Accept(l, e).clock != Off && !e.WaitStarted?
    requires l.Ledger? && l.phase == Setup ==> l.clock == Off
    ensures l.Ledger? && l.clock != Off
    ensures l.phase == Ramping ==> (Accept(l, e).phase == Ramping && !e.Measure?) || e.GatesOpened?
    ensures e.GatesOpened? ==> l.phase == Ramping && Accept(l, e).phase.Gating?
    ensures Accept(l, e).phase == Ramping ==> l.phase == Ramping || l.phase == Measured
    ensures Accept(l, e).phase == Measured ==> l.phase == Measured || e.Measure?
  {
    hide Earned, UnpausedFor;
  }

  /** Only gates let a running clock outlive its leg. */
  lemma {:induction false} ClockOutlivesLeg(log: seq<Event>)
    requires Replay(log).Ledger? && Replay(log).clock != Off
    ensures !GatesSinceClock(log) ==> ClockLeg(log) == LegOf(log) && Replay(log).phase == Ramping
    ensures GatesSinceClock(log) && (Replay(log).phase == Ramping || Replay(log).phase == Measured) ==>
      ClockLeg(log) < LegOf(log)
  {
    hide Accept;
    var before, e := log[..|log| - 1], log[|log| - 1];
    if e.WaitStarted? {
      WaitStartsRamping(Replay(before), e);
    } else {
      if Replay(before).Ledger? && Replay(before).phase == Setup {
        NoClockInSetup(before);
      }
      ClockStays(Replay(before), e);
      ClockOutlivesLeg(before);
      ClockLegIsPast(before);
    }
  }

  /** While a point is settling on a clock that is on, that clock was started for that very point if
      and only if no gate opened since it started. */
  lemma ClockBelongsToPoint(log: seq<Event>)
    requires Replay(log).Ledger? && Replay(log).clock != Off && Replay(log).phase == Ramping
    ensures ClockLeg(log) == LegOf(log) <==> !GatesSinceClock(log)
  {
    ClockOutlivesLeg(log);
  }
}
