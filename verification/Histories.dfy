/** What holds of an Orchestrator after any sequence of calls: every history it can have. And the
    histories that show where the code and its own description part company. */
module Histories {
  import opened Conditions
  import opened Stations
  import opened Machine
  import opened Orchestration
  import G = Gates
  import RunLog
  import AccessLog
  import HoldLog

  // ---- every reachable state ----------------------------------------------------------------

  /** A run exists exactly while its manifest is open; at home (IDLE, ERROR, EMERGENCY) there is no
      run, no claim and nothing in the ramp scope; a run is monitored; a pause is pending only while
      a point is being read and saved. */
  lemma RunOwnership(o: Orchestrator)
    requires o.Valid()
    ensures o.run.procedure.Some? <==> o.run.manifestOpen
    ensures o.state in {Idle, Error, Emergency} ==>
      o.run.procedure.None? && o.run.claims.None? && o.run.systemVis == {}
    ensures o.run.procedure.None? ==> o.state in {Idle, Error, Emergency, Ramping}
    ensures o.run.procedure.Some? ==> o.monitoring
    ensures o.run.pauseRequested ==> o.state in {Measuring, Sweeping} && o.run.procedure.Some?
    ensures o.run.manifestOpen <==> RunLog.OpenRuns(o.runLog) == 1
  {
    RunLog.StartsAndFinishesAlternate(o.runLog, |o.runLog|);
    assert o.runLog[..|o.runLog|] == o.runLog;
  }

  /** At any moment of any history: the calls made on the run so far are a stage of
      initiate (measure step)* standby with at most one abort, last; at most one run is open. */
  lemma CallsOfEveryRun(o: Orchestrator, n: nat)
    requires o.Valid() && n <= |o.runLog|
    ensures RunLog.Replay(o.runLog[..n]).Ledger?
    ensures RunLog.CallsAt(RunLog.Replay(o.runLog[..n]).phase, RunLog.CallsOf(o.runLog[..n]),
                           RunLog.PointsIn(o.runLog[..n]), RunLog.Replay(o.runLog[..n]).operation)
    ensures 0 <= RunLog.OpenRuns(o.runLog[..n]) <= 1
  {
    RunLog.PrefixesAccepted(o.runLog, n);
    RunLog.CallsFollowTheProtocol(o.runLog[..n]);
    RunLog.StartsAndFinishesAlternate(o.runLog, n);
  }

  /** A run that finished "done" made exactly the calls of a whole sweep; any other run was cut by
      exactly one abort, its last call. */
  lemma EveryFinishedRun(o: Orchestrator, n: nat)
    requires o.Valid() && n < |o.runLog| && o.runLog[n].Finished?
    ensures RunLog.Replay(o.runLog[..n]).Ledger?
    ensures var calls, points, operation :=
        RunLog.CallsOf(o.runLog[..n]), RunLog.PointsIn(o.runLog[..n]), RunLog.Replay(o.runLog[..n]).operation;
      if o.runLog[n].status == RunLog.Done then RunLog.ParkedCalls(calls, points, operation)
      else RunLog.AbortedCalls(calls, points, operation)
  {
    hide RunLog.Replay, RunLog.CallsOf, RunLog.PointsIn;
    RunLog.PrefixesAccepted(o.runLog, n);
    RunLog.PrefixesAccepted(o.runLog, n + 1);
    assert o.runLog[..n + 1] == o.runLog[..n] + [o.runLog[n]];
    if o.runLog[n].status == RunLog.Done {
      RunLog.DoneMeansWholeSweep(o.runLog[..n]);
    } else {
      RunLog.OtherwiseCutByOneAbort(o.runLog[..n], o.runLog[n].status);
    }
  }

  /** A point that was cleared without gates was cleared by a wait clock that had run its settle time,
      pauses not counted; and that clock was started for the point itself if and only if no gate
      opened since it started. */
  lemma EverySettleIsServed(o: Orchestrator, n: nat)
    requires o.Valid() && n < |o.runLog| && o.runLog[n].Settled?
    ensures RunLog.UnpausedSince(o.runLog[..n], o.runLog[n].at) >= o.runLog[n].waitS
    ensures RunLog.ClockLeg(o.runLog[..n]) == RunLog.LegOf(o.runLog[..n]) <==> !RunLog.GatesSinceClock(o.runLog[..n])
  {
    hide RunLog.Replay, RunLog.UnpausedSince, RunLog.ClockLeg, RunLog.LegOf, RunLog.GatesSinceClock;
    var before, log := o.runLog[..n], o.runLog[..n + 1];
    RunLog.PrefixesAccepted(o.runLog, n + 1);
    assert log == before + [o.runLog[n]] && log[..n] == before;
    RunLog.ReplayAppend(before, o.runLog[n]);
    RunLog.SettleIsServedInFull(log);
    RunLog.ClockBelongsToPoint(before);
  }

  /** Every reading came at once after its point's settle, or after the last of the gates opened for
      it; and every gate was passed by a check that held at every poll over its window, up to a poll of
      that very moment. */
  lemma EveryReadingIsCleared(o: Orchestrator, n: nat)
    requires o.Valid() && n < |o.runLog|
    ensures o.runLog[n].Measure? ==>
      n > 0 && (o.runLog[n - 1].Settled? || (o.runLog[n - 1].GatePassed? && RunLog.GatesLeft(o.runLog[..n]) == 0))
    ensures o.runLog[n].GatePassed? ==>
      var p := o.runLog[n].pass;
      && (p.actionDue ==> p.actionRuns == 1)
      && (p.hasCheck ==>
            p.polls != [] && p.polls[|p.polls| - 1].at == p.at && G.HeldThroughout(p.polls, p.windowS, p.at))
  {
    hide RunLog.Replay, G.HeldThroughout;
    if o.runLog[n].Measure? {
      RunLog.ReadingsAreCleared(o.runLog, n);
    }
    if o.runLog[n].GatePassed? {
      RunLog.GatesPassWhenHeld(o.runLog, n);
    }
  }

  /** Whatever was polled, refreshed, published, acknowledged, connected or retried: a condition's
      `since` is the time of the step at which its present, unbroken presence began. */
  lemma EverySinceIsOnset(o: Orchestrator, key: Key)
    requires o.Valid() && key in o.station.conditions
    ensures var history := o.station.history; var n := Onset(history, key);
      && history[|history| - 1].registry == o.station.conditions
      && 0 < n < |history| && key !in history[n - 1].registry
      && (forall m :: n <= m < |history| ==> key in history[m].registry)
      && o.station.conditions[key].since == history[n].at
  {
    SinceIsOnset(o.station.history, key);
  }

  /** Every action ever admitted, submitted or drained, was justified by the acknowledgements before
      it; every EMERGENCY entry issued its one standby for all. */
  lemma EveryAdmission(o: Orchestrator, n: nat)
    requires o.Valid() && n < |o.accessLog|
    ensures o.accessLog[n].Admitted? ==>
      var e, past := o.accessLog[n], o.accessLog[..n];
      && !e.facts.commFault
      && (e.facts.hold.Some? ==>
            || AccessLog.EmergencyAcknowledgedBefore(past, e.at, o.timeoutS)
            || AccessLog.HoldAcknowledgedBefore(past, e.facts.hold.value, e.at, o.timeoutS))
      && (e.facts.mode.InEmergency? ==> AccessLog.EmergencyAcknowledgedBefore(past, e.at, o.timeoutS))
      && (e.facts.mode.InError? ==> e.facts.hold.Some? && AccessLog.EmergencyAcknowledgedBefore(past, e.at, o.timeoutS))
      && (e.facts.claimed ==> e.facts.hold.Some?)
    ensures o.accessLog[n].EmergencyEntered? ==> n + 1 < |o.accessLog| && o.accessLog[n + 1].StandbyAll?
    ensures o.accessLog[n].StandbyAll? ==> n > 0 && o.accessLog[n - 1].EmergencyEntered?
  {
    if o.accessLog[n].Admitted? {
      AccessLog.EveryAdmissionIsJustified(o.accessLog, n, o.timeoutS);
    }
    AccessLog.OneShutdownPerEmergency(o.accessLog, n, o.timeoutS);
  }

  /** Every standby ever sent to a held instrument enforced the hold on it that came first in key order
      at that moment; and that hold had not been acknowledged within the timeout, unless an EMERGENCY
      came after the acknowledgement. */
  lemma EveryAttemptIsUnacknowledged(o: Orchestrator, n: nat)
    requires o.Valid() && n < |o.holdLog| && o.holdLog[n].Attempt?
    ensures var e := o.holdLog[n];
      && e.acks <= |o.accessLog| && 0 < e.moment <= |o.station.history|
      && o.station.history[e.moment - 1].at == e.at
      && (var seen := o.station.history[e.moment - 1].registry;
          && e.hold in seen && seen[e.hold].Holds(e.vi)
          && forall k :: k in seen && seen[k].Holds(e.vi) ==> KeyLeq(e.hold, k))
      && forall i ::
           (0 <= i < e.acks && o.accessLog[i].Acknowledged? && e.hold in o.accessLog[i].keys
            && e.at - o.timeoutS < o.accessLog[i].at) ==>
           exists j :: i < j < e.acks && o.accessLog[j].EmergencyEntered?
  {
    var e := o.holdLog[n];
    assert Warranted(e, o.accessLog, o.station.history, o.timeoutS);
    var past := o.accessLog[..e.acks];
    hide Orchestrator.Valid, AccessLog.Replay;
    forall i | 0 <= i < e.acks && o.accessLog[i].Acknowledged? && e.hold in o.accessLog[i].keys
        && e.at - o.timeoutS < o.accessLog[i].at
      ensures exists j :: i < j < e.acks && o.accessLog[j].EmergencyEntered?
    {
      if AccessLog.NoEmergencyAfter(past, i) {
        AccessLog.AckIsRemembered(past, i, e.hold, o.timeoutS);
      } else {
        var j :| i < j < |past| && past[j].EmergencyEntered?;
        assert o.accessLog[j] == past[j];
      }
    }
  }

  /** No target below the lower or above the upper bound of the session envelope in force was ever sent. */
  lemma EveryCommandIsInBounds(o: Orchestrator, n: nat, vi: Name)
    requires o.Valid() && n < |o.hw| && o.hw[n].Commanded? && o.hw[n].envelope.Some?
    requires vi in o.hw[n].targets && vi in o.hw[n].envelope.value
    ensures var b, target := o.hw[n].envelope.value[vi], o.hw[n].targets[vi];
      (b.lo.Some? ==> b.lo.value <= target) && (b.hi.Some? ==> target <= b.hi.value)
  {
    assert Allowed(o.hw[n].envelope, o.hw[n].targets);
  }

  /** Any two standby attempts on one instrument in one episode are at least the interval apart, and an
      escalation follows enough failures and does not repeat within the episode. */
  lemma EveryEnforcement(o: Orchestrator, i: nat, j: nat)
    requires o.Valid() && i < j < |o.holdLog|
    ensures HoldLog.SameEpisode(o.holdLog, i, j) && o.limits.intervalS >= 0.0 ==>
      o.holdLog[j].at - o.holdLog[i].at >= o.limits.intervalS
    ensures o.holdLog[j].Escalation? ==>
      HoldLog.FailuresSinceRelease(o.holdLog[..j], o.holdLog[j].vi) >= o.limits.maxAttempts
    ensures o.holdLog[j].Escalation? && o.holdLog[i] == o.holdLog[j] ==>
      exists k :: i < k < j && o.holdLog[k] == HoldLog.Release(o.holdLog[j].vi)
  {
    if HoldLog.SameEpisode(o.holdLog, i, j) && o.limits.intervalS >= 0.0 {
      HoldLog.AttemptsAreSpaced(o.holdLog, i, j, o.limits);
    }
    if o.holdLog[j].Escalation? {
      HoldLog.EscalatesOncePerEpisode(o.holdLog, j, o.limits);
    }
  }

  // ---- histories tick by tick ---------------------------------------------------------------

  /** A tick on which every instrument answers and nothing raises. */
  function PlainTick(tripped: map<Name, FlagReport>, gates: seq<G.GateSpec>, step: StepAnswer): TickInput {
    TickInput(_ => true, tripped, map[], _ => Away, _ => true, false, {}, false, {}, false, true, gates,
              _ => true, _ => G.Holding,
              false, true, true, step, ParkRaises, _ => true, RAISES)
  }

  const RAISES := Setup(false, false, true, map[], true, true, 0.0)

  // ---- a held instrument is admitted in ERROR -----------------------------------------------

  const QUENCH := FlagReport(Some(Critical), ["magnet"], {})
  const HELIUM := FlagReport(Some(Hold), ["level"], {"magnet"})

  /** The rules in the source's own words refuse every action in ERROR. They do not: an EMERGENCY is
      acknowledged with its cause still active, which opens the override; the cause goes away while
      the helium is low; an operation that tolerates low helium, started out of that EMERGENCY, fails
      in its setup; and the machine is in ERROR with the override still open. The exact rule is
      AccessLog.Justified: in ERROR, a held instrument under a live override. */
  method HeldInstrumentIsAdmittedInError(station: Station) returns (o: Orchestrator, admitted: bool)
    requires station.Valid() && "magnet" in station.vis
    modifies station
    ensures admitted && o.state.Error?
  {
    hide Orchestrator.Valid, HeldByHelium, AnyCritical;
    o := WatchStation(station);
    Quench(o);
    Unlock(o);
    QuenchIsOver(o);
    FailToStart(o);
    admitted := AskForMagnet(o);
  }

  method WatchStation(station: Station) returns (o: Orchestrator)
    requires station.Valid()
    ensures fresh(o) && o.Valid() && o.monitoring && o.state.Idle? && o.run.procedure.None? && o.clock == 0.0
    ensures o.station == station && o.pendingGates == [] && o.timeoutS == 60.0
  {
    hide AccessLog.Replay, RunLog.Replay, HoldLog.Replay, AccessInv, HoldInv, RunInv, Orchestrator.HwValid, GatesOk;
    hide Chain, KeysOwned, CommAgrees, SessionsAgree, NamesAgree;
    o := new Orchestrator(station, 60.0, HoldLog.Limits(30.0, 3));
    o.StartMonitoring();
  }

  ghost predicate HeldByHelium(r: Registry) {
    Key(Safety, "helium_low") in r && r[Key(Safety, "helium_low")].Holds("magnet") && CommKey("magnet") !in r
  }

  method Quench(o: Orchestrator)
    requires o.Valid() && o.monitoring && o.state.Idle? && o.run.procedure.None? && o.clock <= 0.0
    requires "magnet" in o.station.vis
    modifies o.station`errorCounts, o.station`conditions, o.station`history, o, o.pendingGates
    ensures o.Valid() && o.state.Emergency? && o.clock == 0.0 && AnyCritical(o.station.conditions)
    ensures o.monitoring && o.run.procedure.None? && o.pendingGates == []
  {
    hide Orchestrator.Valid, Orchestrator.Transition, MovedOn, Raises, Enforced, OnsetsRight, SlicesStand, HoldMap;
    hide Admissions;
    hide Breached, OutOfBounds, OnsetsKept;
    var tripped := map["quench" := QUENCH, "helium_low" := HELIUM];
    var _, seen, held := o.Tick(PlainTick(tripped, [], NoMorePoints), 0.0);
    assert Key(Safety, "quench") in seen && seen[Key(Safety, "quench")].severity.Critical?;
  }

  method Unlock(o: Orchestrator)
    requires o.Valid() && o.state.Emergency? && o.clock == 0.0
    requires AnyCritical(o.station.conditions) && o.timeoutS == 60.0
    modifies o`clock, o`state, o`emergencyOverrideUntil, o`holdOverrideUntil, o`accessLog
    ensures o.Valid() && o.state.Emergency? && o.clock == 1.0 && o.emergencyOverrideUntil == Some(61.0)
  {
    hide AccessLog.Replay, RunLog.Replay, HoldLog.Replay, HoldInv, RunInv, Orchestrator.HwValid, GatesOk, AccessInv;
    hide Chain, AllWarranted;
    hide KeysOwned, CommAgrees, SessionsAgree, NamesAgree;
    o.Advance(1.0);
    o.Acknowledge(map[], 1.0);
    o.AttemptsStand();
  }

  /** EMERGENCY outlasts its cause. */
  method QuenchIsOver(o: Orchestrator)
    requires o.Valid() && o.monitoring && o.state.Emergency? && o.run.procedure.None? && o.clock == 1.0
    requires "magnet" in o.station.vis && o.emergencyOverrideUntil == Some(61.0)
    modifies o.station`errorCounts, o.station`conditions, o.station`history, o, o.pendingGates
    ensures o.Valid() && o.state.Emergency? && o.clock == 2.0 && HeldByHelium(o.station.conditions)
    ensures o.emergencyOverrideUntil == Some(61.0)
  {
    hide Orchestrator.Valid, Orchestrator.Transition, MovedOn, Raises, Enforced, OnsetsRight, SlicesStand, HoldMap;
    hide Admissions;
    hide Orchestrator.Decided, Breached, OutOfBounds, Cuts;
    var _, seen, held := o.Tick(PlainTick(map["helium_low" := HELIUM], [], NoMorePoints), 2.0);
    assert Key(Safety, "helium_low") in seen;
  }

  method FailToStart(o: Orchestrator)
    requires o.Valid() && o.state.Emergency?
    modifies o`run, o`state, o`pendingGates, o`runLog, o`hw, o`monitoring
    ensures o.Valid() && o.state.Error?
  {
    hide AccessLog.Replay, RunLog.Replay, HoldLog.Replay, HoldInv, AccessInv, RunInv, Orchestrator.HwValid, GatesOk;
    hide Chain;
    hide KeysOwned, CommAgrees, SessionsAgree, NamesAgree;
    var _ := o.RunOperation(Procedure(0, true, {"helium_low"}, None), RAISES, {"helium_low"});
  }

  method AskForMagnet(o: Orchestrator) returns (admitted: bool)
    requires o.Valid() && o.state.Error? && o.clock == 2.0 && HeldByHelium(o.station.conditions)
    requires o.emergencyOverrideUntil == Some(61.0)
    ensures admitted
  {
    hide AccessLog.Replay, RunLog.Replay, HoldLog.Replay, HoldInv, Orchestrator.HwValid, GatesOk, HoldOf, Chain;
    hide KeysOwned, CommAgrees, SessionsAgree, NamesAgree;
    var held := o.HeldVis();
    HoldOfHeld(o.station.conditions, held, "magnet");
    admitted := o.ManualActionAdmissible("magnet", 2.0);
  }

  // ---- a plain run --------------------------------------------------------------------------

  /** A procedure that claims nothing and commands nothing. */
  const PLAIN := Procedure(0, false, {}, Some({}))

  predicate RunsPlain(r: ActiveRun) {
    r.procedure == Some(PLAIN) && r.claims == Some({}) && r.systemVis == {}
    && r.lastTargets == map[] && !r.pauseRequested
  }

  /** Such a procedure is running, and nothing is wrong. */
  ghost predicate Undisturbed(o: Orchestrator)
    reads o, o.station, o.pendingGates
  {
    o.Valid() && o.station.conditions == map[] && o.envelope.None? && RunsPlain(o.run)
  }

  /** With every instrument answering, no flag tripped and nothing held, nobody is held. */
  lemma NothingSeen(seen: Registry, live: set<Name>, counts: map<Name, int>, maxErrors: int, input: TickInput,
          tolerated: set<Name>, held: map<Name, Condition>)
    requires CommAgrees(seen, live, counts, maxErrors)
    requires Observed(seen, live, input, tolerated) && SlicesStand(map[], seen)
    requires HoldMap(seen, held) && input.tripped == map[] && forall v :: input.polls(v)
    ensures seen == map[] && held == map[]
  {
    forall k: Key ensures k !in seen {
      assert k == Key(k.prefix, k.name);
      assert k.prefix == Comm ==> k == CommKey(k.name);
    }
  }

  /** No step of this tick commands hardware. */
  predicate Commandless(input: TickInput) {
    input.step.NextPoint? ==> input.step.targets == map[]
  }

  lemma StillPlain(was: Position, s: State, r: ActiveRun, log: seq<RunLog.Event>, left: nat, input: TickInput,
          now: real)
    requires was.state in {Initiating, Ramping, InitiationGate, ReadingGate, Measuring, Sweeping} && RunsPlain(was.run)
    requires Commandless(input) && MovedOn(was.state, was.run, was.log, s, r, log, left, input, now)
    ensures RunsPlain(r)
  {
  }

  /** Nothing is wrong, and a procedure that claims nothing is running. */
  ghost predicate Quiet(o: Orchestrator)
    reads o, o.station, o.pendingGates
  {
    && o.Valid() && o.station.conditions == map[] && o.envelope.None?
    && o.run.procedure == Some(PLAIN) && o.run.claims == Some({}) && o.run.systemVis == {}
  }

  /** A tick in which nothing can raise makes its one transition. */
  method QuietTick(o: Orchestrator, input: TickInput, now: real)
    requires Quiet(o) && o.clock <= now && input.tripped == map[] && (forall v :: input.polls(v))
    requires !Raises(o.state, o.run, None, input, o.GatesRaise(input)) && o.state != Emergency
    modifies o.station`errorCounts, o.station`conditions, o.station`history, o, o.pendingGates
    ensures o.Valid() && o.station.conditions == map[] && o.envelope.None?
    ensures o.clock == now && o.Transition(old(o.Standing()), input, now) && o.GatesOwn()
  {
    hide RunLog.Replay, AccessLog.Replay, HoldLog.Replay, AccessInv, HoldInv, RunInv, Orchestrator.HwValid, GatesOk;
    hide KeysOwned, SessionsAgree, NamesAgree, Enforced, OnsetsRight, Admissions, PollsOf, CommAgrees, Observed;
    hide SlicesStand, HoldMap, Chain, MovedOn, Raises;
    var course, seen, held := o.Tick(input, now);
    NothingSeen(seen, o.station.vis.Keys, o.station.errorCounts, o.station.maxErrors, input, {}, held);
    assert course.Completed?;
  }

  method CalmTick(o: Orchestrator, input: TickInput, now: real)
    requires Undisturbed(o) && o.clock <= now && input.tripped == map[] && (forall v :: input.polls(v))
    requires !Raises(o.state, o.run, None, input, o.GatesRaise(input)) && Commandless(input)
    requires o.state in {Initiating, Ramping, InitiationGate, ReadingGate, Measuring, Sweeping}
    modifies o.station`errorCounts, o.station`conditions, o.station`history, o, o.pendingGates
    ensures Undisturbed(o) && o.clock == now && o.Transition(old(o.Standing()), input, now) && o.GatesOwn()
  {
    hide MovedOn, Raises, Orchestrator.Valid, Waiting, Passes, Polled, PollsOf, MadeFrom, Orchestrator.GatesMoved;
    QuietTick(o, input, now);
    StillPlain(old(o.Standing()), o.state, o.run, o.runLog, |o.pendingGates|, input, now);
  }

  /** Its first point settles for the given time. */
  method StartPlain(station: Station, waitS: real) returns (o: Orchestrator)
    requires station.Valid() && station.conditions == map[]
    ensures fresh(o) && o.station == station && o.pendingGates == [] && o.clock == 0.0 && Undisturbed(o)
    ensures o.state.Initiating? && o.run == NO_RUN.StartedOn(PLAIN, PlainSetup(waitS))
    ensures o.runLog == [RunLog.Initiate(false), RunLog.Started]
  {
    hide RunLog.Replay, AccessLog.Replay, HoldLog.Replay, AccessInv, HoldInv, RunInv, Orchestrator.HwValid, Chain;
    hide KeysOwned, CommAgrees, SessionsAgree, NamesAgree;
    o := new Orchestrator(station, 60.0, HoldLog.Limits(30.0, 3));
    o.RunProcedure(PLAIN, PlainSetup(waitS));
  }

  function PlainSetup(waitS: real): Setup {
    Setup(false, true, true, map[], true, true, waitS)
  }

  function Ticking(gates: seq<G.GateSpec>, nextWaitS: real): TickInput {
    PlainTick(map[], gates, NextPoint(map[], nextWaitS, true))
  }

  // ---- the ramp scope -----------------------------------------------------------------------

  /** Whenever a run's ramps were held - by a pause, a skipped ramp, an abort, a failure or an
      EMERGENCY - they were the ramps of the VIs in its opening plan and its steps, no other ones. That
      is every VI the run had sent a target, if and only if no plan that was kept back names another
      one, and neither does a plan the run parked with or sent again. */
  lemma EveryHoldIsOfItsOwnRamps(o: Orchestrator, n: nat)
    requires o.Valid() && n < |o.hw| && o.hw[n].HeldRamps? && o.hw[n].scope.Some?
    ensures var past, scope := o.hw[..n], o.hw[n].scope.value;
      && (forall v :: v in scope <==> exists j :: Since(past) <= j < n && past[j].OnTheWay() && v in past[j].targets)
      && ((forall v :: v in scope <==> SentTo(past, v)) <==>
            && (forall j, v ::
                  (Since(past) <= j < n && past[j].Refused? && past[j].OnTheWay() && v in past[j].targets) ==>
                  SentTo(past, v))
            && (forall j, v ::
                  (Since(past) <= j < n && past[j].Commanded? && !past[j].OnTheWay() && v in past[j].targets) ==>
                  v in scope))
  {
    var past := o.hw[..n];
    assert o.hw[n].scope.value == Owned(past);
    hide Owned, Since, Orchestrator.Valid;
    forall v
      ensures v in Owned(past) <==> exists j :: Since(past) <= j < n && past[j].OnTheWay() && v in past[j].targets
    {
      OwnedIff(past, v);
    }
    ScopeIsWhatWasSent(past);
  }

  const WARM_MAGNET: Targets := map["magnet" := 9.0]

  /** A run whose claims cannot be initiated has sent the magnet nothing, and yet its ramp is stopped. */
  method RefusedPlanIsHeld(station: Station) returns (o: Orchestrator)
    requires station.Valid()
    ensures o.Valid() && o.state.Error?
    ensures o.hw == [Began, Refused(Opening, WARM_MAGNET), HeldRamps(Some({"magnet"}))]
    ensures !SentTo(o.hw[..2], "magnet")
  {
    hide RunLog.Replay, AccessLog.Replay, HoldLog.Replay, AccessInv, HoldInv, RunInv, Orchestrator.HwValid, Chain;
    hide KeysOwned, CommAgrees, SessionsAgree, NamesAgree;
    o := new Orchestrator(station, 60.0, HoldLog.Limits(30.0, 3));
    var setup := PlainSetup(0.0).(claimsOk := false, targets := WARM_MAGNET);
    o.RunProcedure(PLAIN, setup);
    assert setup.targets.Keys == {"magnet"} && o.OpeningOf(setup) == [Refused(Opening, WARM_MAGNET)];
  }

  const SWEPT: seq<RunLog.Event> := [RunLog.Initiate(false), RunLog.Started, RunLog.WaitStarted(0.0),
    RunLog.Settled(0.0, 0.0), RunLog.Measure(true), RunLog.Step(RunLog.NoMore)]

  /** The last tick of a sweep of one point, and what it then parks with. */
  const PARKING := PlainTick(map[], [], NoMorePoints).(park := Parks(WARM_MAGNET, true, true))

  method SweepOnePoint(o: Orchestrator)
    requires Undisturbed(o) && o.state.Initiating? && o.clock == 0.0
    requires o.run == NO_RUN.StartedOn(PLAIN, PlainSetup(0.0))
    requires o.runLog == SWEPT[..2] && o.pendingGates == []
    modifies o.station`errorCounts, o.station`conditions, o.station`history, o, o.pendingGates
    ensures Undisturbed(o) && o.state.Standby? && o.clock == 0.0 && o.runLog == SWEPT
    ensures !o.run.standbyDispatched && o.pendingGates == []
  {
    hide Orchestrator.Valid, MadeFrom, Orchestrator.GatesMoved;
    CalmTick(o, PARKING, 0.0);
    CalmTick(o, PARKING, 0.0);
    CalmTick(o, PARKING, 0.0);
    CalmTick(o, PARKING, 0.0);
  }

  method ParkMagnet(o: Orchestrator)
    requires Undisturbed(o) && o.state.Standby? && o.clock == 0.0 && !o.run.standbyDispatched && o.pendingGates == []
    modifies o.station`errorCounts, o.station`conditions, o.station`history, o, o.pendingGates
    ensures Quiet(o) && o.state.Standby? && o.clock == 0.0
    ensures o.run.standbyDispatched && o.run.lastTargets == WARM_MAGNET && fresh(o.pendingGates)
  {
    hide Orchestrator.Valid, MadeFrom, Orchestrator.GatesMoved;
    QuietTick(o, PARKING, 0.0);
    assert forall i :: 0 <= i < |o.pendingGates| ==> o.pendingGates[i] in o.pendingGates;
  }

  method FinishOver(o: Orchestrator)
    requires Quiet(o) && o.state.Standby? && o.clock == 0.0 && o.run.standbyDispatched
    modifies o.station`errorCounts, o.station`conditions, o.station`history, o, o.pendingGates
    ensures o.Valid() && old(o.runLog) + [RunLog.Finished(RunLog.Done)] <= o.runLog
  {
    hide Orchestrator.Valid, MadeFrom, Orchestrator.GatesMoved;
    QuietTick(o, PARKING.(ramping := {"magnet"}), 1.0);
  }

  /** A run whose parking ramps are not waited for: `was` is where it stood, the magnet still on its
      way, when it was reported done. */
  method ParkingIsNotWaitedFor(station: Station) returns (o: Orchestrator, ghost was: Position)
    requires station.Valid() && station.conditions == map[]
    modifies station
    ensures o.Valid() && was.state.Standby? && was.run.standbyDispatched && was.run.lastTargets == WARM_MAGNET
    ensures was.run.Landed({"magnet"}) && was.log + [RunLog.Finished(RunLog.Done)] <= o.runLog
  {
    hide Orchestrator.Valid;
    o := StartPlain(station, 0.0);
    SweepOnePoint(o);
    ParkMagnet(o);
    was := o.Standing();
    FinishOver(o);
  }

  // ---- an old wait clock clears the next point ----------------------------------------------

  /** The run up to its first wait clock. */
  const CLOCK_STARTED: seq<RunLog.Event> := [RunLog.Initiate(false), RunLog.Started, RunLog.WaitStarted(0.0)]

  method StartClock(o: Orchestrator)
    requires Undisturbed(o) && o.state.Initiating? && o.clock == 0.0
    requires o.run == NO_RUN.StartedOn(PLAIN, PlainSetup(10.0))
    requires o.runLog == [RunLog.Initiate(false), RunLog.Started] && o.pendingGates == []
    modifies o.station`errorCounts, o.station`conditions, o.station`history, o, o.pendingGates
    ensures Undisturbed(o) && o.state.Ramping? && o.clock == 0.0 && o.pendingGates == []
    ensures o.run == NO_RUN.StartedOn(PLAIN, PlainSetup(10.0)).(waitStarted := true, waitStartTime := 0.0)
    ensures o.runLog == CLOCK_STARTED
  {
    hide Orchestrator.Valid, MadeFrom, Orchestrator.GatesMoved;
    CalmTick(o, Ticking([], 5.0), 0.0);
    CalmTick(o, Ticking([], 5.0), 0.0);
  }

  /** ... with a gate opened while that clock runs, and passed, ... */
  const GATE_PASSED: seq<RunLog.Event> := CLOCK_STARTED
    + [RunLog.GatesOpened(1), RunLog.GatePassed(RunLog.Pass(2.0, false, 0.0, [], false, 0))]

  lemma OneGate(gate: G.Gate, now: real)
    ensures Waiting([gate], now) == if gate.StillWaiting(now) then [gate] else []
    ensures Passes([gate], now) == if gate.StillWaiting(now) then [] else [PassOf(gate, now)]
  {
    assert [gate][..0] == [];
    NoGates(Ticking([], 0.0), now);
  }

  method PassGate(o: Orchestrator)
    requires Undisturbed(o) && o.state.Ramping? && o.clock == 0.0 && o.pendingGates == []
    requires o.run == NO_RUN.StartedOn(PLAIN, PlainSetup(10.0)).(waitStarted := true, waitStartTime := 0.0)
    requires o.runLog == CLOCK_STARTED
    modifies o.station`errorCounts, o.station`conditions, o.station`history, o, o.pendingGates
    ensures Undisturbed(o) && o.state.Measuring? && o.clock == 2.0 && o.pendingGates == []
    ensures o.run.waitStarted && o.run.waitStartTime == 0.0 && o.runLog == GATE_PASSED
  {
    hide Orchestrator.Valid, G.HeldFor, G.Streak, Waiting, Passes;
    CalmTick(o, Ticking([G.GateSpec(false, 0.0, false)], 5.0), 1.0);
    ghost var gates := o.pendingGates;
    assert gates == [gates[0]] && gates[0] in gates;
    CalmTick(o, Ticking([], 5.0), 2.0);
    OneGate(gates[0], 2.0);
  }

  /** ... up to the reading of the next point, which asked for 5 s and got one. */
  const OLD_CLOCK: seq<RunLog.Event> := GATE_PASSED
    + [RunLog.Measure(true), RunLog.Step(RunLog.More), RunLog.Settled(5.0, 5.0)]

  method ReadAndStep(o: Orchestrator)
    requires Undisturbed(o) && o.state.Measuring? && o.clock == 2.0 && o.pendingGates == []
    requires o.run.waitStarted && o.run.waitStartTime == 0.0 && o.runLog == GATE_PASSED
    modifies o.station`errorCounts, o.station`conditions, o.station`history, o, o.pendingGates
    ensures Undisturbed(o) && o.state.Measuring? && o.clock == 5.0 && o.runLog == OLD_CLOCK
  {
    hide Orchestrator.Valid, MadeFrom, Orchestrator.GatesMoved;
    CalmTick(o, Ticking([], 5.0), 3.0);
    CalmTick(o, Ticking([], 5.0), 4.0);
    CalmTick(o, Ticking([], 5.0), 5.0);
  }

  /** A settle time is not always served for its own point. A run has no gates while the wait clock of
      its first point runs, and then one; the clock is never stopped. At 4.0 the run steps to a point
      that asks for 5 s, and at 5.0 that point is read on the old clock. RunLog.ClockBelongsToPoint is
      the exact condition. */
  method OldClockClearsNextPoint(station: Station) returns (o: Orchestrator)
    requires station.Valid() && station.conditions == map[]
    modifies station
    ensures o.Valid() && o.state.Measuring? && o.clock == 5.0 && o.runLog == OLD_CLOCK
    ensures RunLog.ClockLeg(OLD_CLOCK[..7]) == 0 && RunLog.LegOf(OLD_CLOCK[..7]) == 1
  {
    hide Orchestrator.Valid;
    o := StartPlain(station, 10.0);
    StartClock(o);
    PassGate(o);
    ReadAndStep(o);
    OldClockIsOld();
  }

  lemma OldClockIsOld()
    ensures RunLog.ClockLeg(OLD_CLOCK[..7]) == 0 && RunLog.LegOf(OLD_CLOCK[..7]) == 1
  {
    forall k | 0 < k <= 7
      ensures OLD_CLOCK[..k][..k - 1] == OLD_CLOCK[..k - 1] && OLD_CLOCK[..k][k - 1] == OLD_CLOCK[k - 1] {
    }
    assert OLD_CLOCK[..0] == [];
    assert RunLog.LegOf(OLD_CLOCK[..1]) == 0;
    assert RunLog.LegOf(OLD_CLOCK[..2]) == 0;
    assert RunLog.LegOf(OLD_CLOCK[..3]) == 0;
    assert RunLog.LegOf(OLD_CLOCK[..4]) == 0 && RunLog.ClockLeg(OLD_CLOCK[..4]) == 0;
    assert RunLog.LegOf(OLD_CLOCK[..5]) == 0 && RunLog.ClockLeg(OLD_CLOCK[..5]) == 0;
    assert RunLog.LegOf(OLD_CLOCK[..6]) == 1 && RunLog.ClockLeg(OLD_CLOCK[..6]) == 0;
  }

  // ---- a pause counts towards a gate's window -----------------------------------------------

  const WINDOW := G.GateSpec(true, 10.0, false)

  const AT_GATE: seq<RunLog.Event> := [RunLog.Initiate(false), RunLog.Started, RunLog.GatesOpened(1)]

  ghost predicate AtOneGate(o: Orchestrator, windowS: real, polls: seq<G.Poll>)
    reads o, o.pendingGates
  {
    |o.pendingGates| == 1
    && var gate := o.pendingGates[0]; gate.hasCheck && gate.windowS == windowS && !gate.hasAction && gate.polls == polls
  }

  method OpenGate(o: Orchestrator)
    requires Undisturbed(o) && o.state.Initiating? && o.clock == 0.0
    requires o.run == NO_RUN.StartedOn(PLAIN, PlainSetup(0.0))
    requires o.runLog == AT_GATE[..2] && o.pendingGates == []
    modifies o.station`errorCounts, o.station`conditions, o.station`history, o, o.pendingGates
    ensures Undisturbed(o) && o.clock == 0.0 && o.runLog == AT_GATE && o.state == InitiationGate
    ensures AtOneGate(o, 10.0, []) && fresh(o.pendingGates[0])
  {
    hide Orchestrator.Valid, Waiting, Passes, Orchestrator.GatesMoved;
    CalmTick(o, Ticking([], 0.0), 0.0);
    CalmTick(o, Ticking([WINDOW], 0.0), 0.0);
    assert o.pendingGates[0] in o.pendingGates;
  }

  lemma OnePoll(at: real)
    ensures G.Streak([G.Poll(at, true)]) == [G.Poll(at, true)]
    ensures forall windowS :: G.HeldFor([G.Poll(at, true)], windowS, at) <==> windowS <= 0.0
  {
    G.StreakGrows([], G.Poll(at, true));
    assert [] + [G.Poll(at, true)] == [G.Poll(at, true)];
  }

  /** One tick in which the check holds; the gate is passed or goes on waiting by its polls alone. */
  method PollGate(o: Orchestrator, windowS: real, polls: seq<G.Poll>, now: real)
    requires Undisturbed(o) && o.state == InitiationGate && AtOneGate(o, windowS, polls) && o.clock <= now
    modifies o.station`errorCounts, o.station`conditions, o.station`history, o, o.pendingGates
    ensures Undisturbed(o) && o.clock == now
    ensures var more := polls + [G.Poll(now, true)];
      if G.HeldFor(more, windowS, now) then
        o.state.Measuring?
        && o.runLog == old(o.runLog) + [RunLog.GatePassed(RunLog.Pass(now, true, windowS, more, false, 0))]
      else
        o.state == InitiationGate && o.runLog == old(o.runLog)
        && o.pendingGates == old(o.pendingGates) && AtOneGate(o, windowS, more)
  {
    hide Orchestrator.Valid, Waiting, Passes, MadeFrom, G.HeldFor, G.Streak;
    ghost var gate := o.pendingGates[0];
    assert o.pendingGates == [gate] && gate in o.pendingGates;
    CalmTick(o, Ticking([], 0.0), now);
    OneGate(gate, now);
  }

  /** Paused at 2.0, resumed at 11.0. */
  method Interrupt(o: Orchestrator)
    requires Undisturbed(o) && o.clock == 1.0 && o.state == InitiationGate
    modifies o`clock, o`run, o`state, o`runLog, o`hw
    ensures Undisturbed(o) && o.clock == 11.0 && o.state == InitiationGate
    ensures o.runLog == old(o.runLog) + [RunLog.Paused(2.0)] + [RunLog.Resumed(11.0)]
  {
    hide RunLog.Replay, AccessLog.Replay, HoldLog.Replay, AccessInv, HoldInv, RunInv, Orchestrator.HwValid, Chain;
    hide GatesOk;
    hide KeysOwned, CommAgrees, SessionsAgree, NamesAgree, Extends;
    o.Advance(2.0);
    o.PauseProcedure(2.0);
    o.Advance(11.0);
    var raised := o.ResumeProcedure(true, 11.0);
  }

  /** A gate asks for its check to hold for 10 s. It held for one second of the run; then the run was
      paused for nine. The first poll after the pause passes the gate. Gates.WindowIsWallClock is the
      exact rule. */
  method PauseServesTheWindow(station: Station) returns (o: Orchestrator)
    requires station.Valid() && station.conditions == map[]
    modifies station
    ensures o.Valid() && o.state.Measuring?
    ensures o.runLog == AT_GATE + [RunLog.Paused(2.0), RunLog.Resumed(11.0),
      RunLog.GatePassed(RunLog.Pass(11.0, true, 10.0, [G.Poll(1.0, true), G.Poll(11.0, true)], false, 0))]
  {
    hide Orchestrator.Valid, G.HeldFor, G.Streak;
    var first, second := G.Poll(1.0, true), G.Poll(11.0, true);
    o := StartPlain(station, 0.0);
    OpenGate(o);
    assert [] + [first] == [first] && [first] + [second] == [first, second];
    OnePoll(1.0);
    PollGate(o, 10.0, [], 1.0);
    Interrupt(o);
    G.WindowIsWallClock([first], 10.0, 11.0);
    PollGate(o, 10.0, [first], 11.0);
  }

  // ---- a passed gate is not asked again -----------------------------------------------------

  const AT_ONCE := G.GateSpec(true, 0.0, false)
  const AFTER_A_SECOND := G.GateSpec(true, 1.0, false)

  lemma TwoGates(first: G.Gate, second: G.Gate, now: real)
    requires !first.StillWaiting(now) && second.StillWaiting(now)
    ensures Waiting([first, second], now) == [second] && Passes([first, second], now) == [PassOf(first, now)]
  {
    assert [first, second][..1] == [first];
    OneGate(first, now);
  }

  lemma ShortWindows(first: real, second: real)
    requires second - first >= 1.0
    ensures G.HeldFor([G.Poll(first, true)], 0.0, first) && !G.HeldFor([G.Poll(first, true)], 1.0, first)
    ensures G.HeldFor([G.Poll(first, true), G.Poll(second, true)], 1.0, second)
  {
    OnePoll(first);
    G.WindowIsWallClock([G.Poll(first, true)], 1.0, second);
    assert [G.Poll(first, true)] + [G.Poll(second, true)] == [G.Poll(first, true), G.Poll(second, true)];
  }

  const TWO_GATES: seq<RunLog.Event> := [RunLog.Initiate(false), RunLog.Started, RunLog.GatesOpened(2),
    RunLog.GatePassed(RunLog.Pass(1.0, true, 0.0, [G.Poll(1.0, true)], false, 0))]

  /** Two gates; the first is passed at its first poll. */
  method PassTheFirst(o: Orchestrator)
    requires Undisturbed(o) && o.state.Initiating? && o.clock == 0.0
    requires o.run == NO_RUN.StartedOn(PLAIN, PlainSetup(0.0))
    requires o.runLog == TWO_GATES[..2] && o.pendingGates == []
    modifies o.station`errorCounts, o.station`conditions, o.station`history, o, o.pendingGates
    ensures Undisturbed(o) && o.clock == 1.0 && o.runLog == TWO_GATES && o.state == InitiationGate
    ensures AtOneGate(o, 1.0, [G.Poll(1.0, true)]) && fresh(o.pendingGates[0])
  {
    OpenTwo(o);
    ghost var first, second := o.pendingGates[0], o.pendingGates[1];
    PollTwo(o, first, second);
  }

  method OpenTwo(o: Orchestrator)
    requires Undisturbed(o) && o.state.Initiating? && o.clock == 0.0
    requires o.run == NO_RUN.StartedOn(PLAIN, PlainSetup(0.0))
    requires o.runLog == TWO_GATES[..2] && o.pendingGates == []
    modifies o.station`errorCounts, o.station`conditions, o.station`history, o, o.pendingGates
    ensures Undisturbed(o) && o.clock == 0.0 && o.runLog == TWO_GATES[..3] && o.state == InitiationGate
    ensures MadeFrom(o.pendingGates, [AT_ONCE, AFTER_A_SECOND])
    ensures fresh(o.pendingGates[0]) && fresh(o.pendingGates[1])
  {
    hide Orchestrator.Valid, Waiting, Passes, Orchestrator.GatesMoved;
    CalmTick(o, Ticking([], 0.0), 0.0);
    CalmTick(o, Ticking([AT_ONCE, AFTER_A_SECOND], 0.0), 0.0);
    assert o.pendingGates[0] in o.pendingGates && o.pendingGates[1] in o.pendingGates;
  }

  method PollTwo(o: Orchestrator, ghost first: G.Gate, ghost second: G.Gate)
    requires Undisturbed(o) && o.clock == 0.0 && o.runLog == TWO_GATES[..3] && o.state == InitiationGate
    requires o.pendingGates == [first, second] && MadeOf(first, AT_ONCE) && MadeOf(second, AFTER_A_SECOND)
    modifies o.station`errorCounts, o.station`conditions, o.station`history, o, o.pendingGates
    ensures Undisturbed(o) && o.clock == 1.0 && o.runLog == TWO_GATES && o.state == InitiationGate
    ensures o.pendingGates == [second] && AtOneGate(o, 1.0, [G.Poll(1.0, true)])
  {
    hide Orchestrator.Valid, Waiting, Passes, MadeFrom, G.HeldFor, G.Streak;
    ghost var gates := o.pendingGates;
    assert gates[0] == first && gates[1] == second;
    CalmTick(o, Ticking([], 0.0), 1.0);
    assert [] + [G.Poll(1.0, true)] == [G.Poll(1.0, true)];
    ShortWindows(1.0, 2.0);
    TwoGates(first, second, 1.0);
  }

  /** A point is read a second after the check of its first gate was polled for the last time: that gate
      had been passed, and was not asked again while the other one was waited for.
      RunLog.HeldTogetherIffPassedTogether is the exact condition. */
  method EarlyGateIsNotAskedAgain(station: Station) returns (o: Orchestrator)
    requires station.Valid() && station.conditions == map[]
    modifies station
    ensures o.Valid() && o.state.Measuring? && o.clock == 2.0
    ensures o.runLog == TWO_GATES
      + [RunLog.GatePassed(RunLog.Pass(2.0, true, 1.0, [G.Poll(1.0, true), G.Poll(2.0, true)], false, 0))]
    ensures !RunLog.HoldsAt(TWO_GATES[3].pass, o.clock)
  {
    hide Orchestrator.Valid, G.HeldFor, G.Streak;
    o := StartPlain(station, 0.0);
    PassTheFirst(o);
    ShortWindows(1.0, 2.0);
    assert [G.Poll(1.0, true)] + [G.Poll(2.0, true)] == [G.Poll(1.0, true), G.Poll(2.0, true)];
    PollGate(o, 1.0, [G.Poll(1.0, true)], 2.0);
  }

  // ---- a standby for all is refused by the next run ------------------------------------------

  /** The tick after a run was started: with none of the asked VIs held, no action is admitted if and
      only if the run claims all of them. */
  method DrainUnderRun(o: Orchestrator, input: TickInput, now: real)
    returns (ghost course: Course, ghost held: map<Name, Condition>)
    requires o.Valid() && o.clock <= now && o.run.procedure.Some? && o.monitoring && !o.run.IsOperation()
    requires o.state.Initiating?
    modifies o, o.station`errorCounts, o.station`conditions, o.station`history, o.pendingGates
    ensures o.Valid() && !course.Raised? && old(o.runLog) <= o.runLog
    ensures !course.Cut? ==> o.guiActionQueue == [] && o.run == old(o.run)
    ensures !course.Cut? && (forall v :: v in old(o.guiActionQueue) ==> v !in held) ==>
      (o.accessLog == old(o.accessLog) <==> forall v :: v in old(o.guiActionQueue) ==> old(o.run).Claims(v))
    ensures o.station.conditions == map[] && held == map[] && old(o.envelope.None?) ==> !course.Cut?
    ensures old(o.station.conditions == map[]) && input.tripped == map[] && (forall v :: input.polls(v)) ==>
      o.station.conditions == map[] && held == map[]
  {
    hide RunLog.Replay, AccessLog.Replay, HoldLog.Replay, AccessInv, HoldInv, Orchestrator.HwValid, GatesOk, Chain;
    hide RunInv;
    hide KeysOwned, SessionsAgree, NamesAgree, Enforced, OnsetsRight, Admissions, CommAgrees, Observed, SlicesStand;
    hide HoldMap;
    ghost var seen;
    course, seen, held := o.Tick(input, now);
    if !course.Cut? && forall v :: v in old(o.guiActionQueue) ==> v !in held {
      ghost var s := o.station;
      ClaimsDecide(old(o.guiActionQueue), Initiating, old(o.run), seen, held, s.vis.Keys, s.errorCounts, s.maxErrors,
                   now, old(AccessLog.Replay(o.accessLog, o.timeoutS)), o.timeoutS);
      NoneAdded(old(o.accessLog), o.accessLog, Admissions(old(o.guiActionQueue), Initiating, old(o.run), seen, now,
                                                          old(AccessLog.Replay(o.accessLog, o.timeoutS)), o.timeoutS));
    }
    if old(o.station.conditions == map[]) && input.tripped == map[] && forall v :: input.polls(v) {
      NothingSeen(seen, o.station.vis.Keys, o.station.errorCounts, o.station.maxErrors, input, {}, held);
    }
  }

  lemma NoneAdded<T>(before: seq<T>, after: seq<T>, added: seq<T>)
    requires after == before + added
    ensures after == before <==> added == []
  {
    assert |after| == |before| + |added|;
  }

  /** "Standby all" aborts the run in flight so that its actions run in IDLE. But the abort starts what
      is queued next, and that run is there when the actions are drained: with none of the VIs held,
      none of the actions is admitted if and only if it claims all of them. */
  method GlobalStandbyMeetsTheQueue(o: Orchestrator, setup: Setup, input: TickInput, now: real)
    returns (ghost asked: seq<Name>, ghost course: Course, ghost held: map<Name, Condition>)
    requires o.Valid() && o.clock <= now && o.run.procedure.Some? && StartsWell(setup, o.envelope)
    requires o.operationQueue == [] && o.procedureQueue != [] && !setup.magnetsPersistent
    requires !o.procedureQueue[0].operation
    modifies o, o.station, o.pendingGates
    ensures o.Valid() && old(o.runLog) + [RunLog.Abort, RunLog.Finished(RunLog.Aborted)] <= o.runLog
    ensures forall v :: v in asked <==> v in o.station.vis || v in old(o.guiActionQueue)
    ensures !course.Cut? && (forall v :: v in asked ==> v !in held) ==>
      var claims := old(o.procedureQueue[0].claims);
      && o.guiActionQueue == [] && o.run.procedure == Some(old(o.procedureQueue)[0])
      && (o.accessLog == old(o.accessLog) <==> forall v :: v in asked ==> claims.None? || v in claims.value)
    ensures old(o.station.conditions == map[] && o.envelope.None?) ==>
      (input.tripped == map[] && forall v :: input.polls(v)) ==> !course.Cut? && held == map[]
  {
    hide RunLog.Replay, AccessLog.Replay, HoldLog.Replay, AccessInv, HoldInv, Orchestrator.HwValid, GatesOk, Chain;
    hide KeysOwned, SessionsAgree, NamesAgree, CommAgrees;
    o.SubmitGlobalAction(true, setup);
    asked := o.guiActionQueue;
    assert asked == old(o.guiActionQueue) + asked[|old(o.guiActionQueue)|..];
    assert forall i :: 0 <= i < |o.pendingGates| ==>
      o.pendingGates[i] in old(o.pendingGates) || fresh(o.pendingGates[i]);
    course, held := DrainUnderRun(o, input, now);
  }
}
