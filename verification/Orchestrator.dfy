/** The Orchestrator: one cooperative state machine that drives runs, admits manual actions, keeps
    held instruments at standby and latches EMERGENCY. Every method that acts appends to ghost logs;
    Valid() says that the referees of RunLog, AccessLog and HoldLog accept them. */
module Orchestration {
  import opened Conditions
  import opened Stations
  import opened Machine
  import G = Gates
  import RunLog
  import AccessLog
  import HoldLog

  ghost predicate GatesOk(gates: seq<G.Gate>)
    reads gates
  {
    && (forall i :: 0 <= i < |gates| ==> gates[i].Valid())
    && (forall i, j :: 0 <= i < j < |gates| ==> gates[i] != gates[j])
  }

  /** Each gate declares what its specification says, and has not been polled yet. */
  ghost predicate MadeFrom(gates: seq<G.Gate>, specs: seq<G.GateSpec>)
    reads gates
  {
    |gates| == |specs| && forall i :: 0 <= i < |gates| ==> MadeOf(gates[i], specs[i])
  }

  ghost predicate MadeOf(gate: G.Gate, spec: G.GateSpec)
    reads gate
  {
    && gate.hasCheck == spec.hasCheck && gate.windowS == spec.windowS && gate.hasAction == spec.hasAction
    && gate.polls == [] && !gate.actionDone
  }

  /** What a gate that is satisfied was satisfied by. */
  ghost function PassOf(gate: G.Gate, now: real): RunLog.Event
    reads gate
  {
    RunLog.GatePassed(RunLog.Pass(now, gate.hasCheck, gate.windowS, gate.polls, gate.hasAction, gate.actionRuns))
  }

  /** The gates that are satisfied, in order, each with what satisfied it. */
  ghost function Passes(gates: seq<G.Gate>, now: real): seq<RunLog.Event>
    reads gates
  {
    if gates == [] then []
    else
      var last := gates[|gates| - 1];
      Passes(gates[..|gates| - 1], now) + if last.StillWaiting(now) then [] else [PassOf(last, now)]
  }

  ghost function PollsOf(gates: seq<G.Gate>): (polls: seq<seq<G.Poll>>)
    reads gates
    ensures |polls| == |gates| && forall i :: 0 <= i < |gates| ==> polls[i] == gates[i].polls
  {
    if gates == [] then [] else PollsOf(gates[..|gates| - 1]) + [gates[|gates| - 1].polls]
  }

  /** Each gate that has a check has one poll more: this moment's answer. */
  ghost predicate Polled(gates: seq<G.Gate>, before: seq<seq<G.Poll>>, input: TickInput, now: real)
    reads gates
  {
    && |before| == |gates|
    && forall i :: 0 <= i < |gates| ==>
         gates[i].polls == before[i] + if gates[i].hasCheck then [G.Poll(now, input.gateAnswer(i).Holding?)] else []
  }

  /** The gates that still wait, in order. */
  ghost function Waiting(gates: seq<G.Gate>, now: real): seq<G.Gate>
    reads gates
  {
    if gates == [] then []
    else
      var last := gates[|gates| - 1];
      Waiting(gates[..|gates| - 1], now) + if last.StillWaiting(now) then [last] else []
  }

  /** The gate's action still has to run and raises, or its check is polled and raises. */
  ghost predicate WillRaise(gate: G.Gate, input: TickInput, i: nat)
    reads gate
  {
    || (!gate.actionDone && gate.hasAction && !input.gateActionOk(i))
    || (gate.hasCheck && input.gateAnswer(i).Raises?)
  }

  /** Where the state machine stands between two ticks. */
  datatype Position = Position(
    state: State, run: ActiveRun, log: seq<RunLog.Event>, gates: seq<G.Gate>, polls: seq<seq<G.Poll>>,
    hw: seq<HwEvent>)

  /** What the verdict of a tick and its queued actions depend on. */
  datatype Snapshot = Snapshot(
    state: State, run: ActiveRun, monitoring: bool, overrides: map<Key, real>, queue: seq<Name>,
    accessLog: seq<AccessLog.Event>, conditions: Registry, holds: HoldRecord)

  datatype Logs = Logs(run: seq<RunLog.Event>, access: seq<AccessLog.Event>, hold: seq<HoldLog.Event>, hw: seq<HwEvent>)

  ghost predicate Extends(before: Logs, after: Logs) {
    before.run <= after.run && before.access <= after.access && before.hold <= after.hold && before.hw <= after.hw
  }

  lemma ExtendsOn(a: Logs, b: Logs, c: Logs)
    requires Extends(a, b) && Extends(b, c)
    ensures Extends(a, c)
  {
  }

  lemma LogsLast(before: Logs, after: Logs)
    requires Extends(before, after)
    ensures before.run <= after.run && before.access <= after.access && before.hw <= after.hw
  {
  }

  lemma NothingAdded(logs: Logs)
    ensures Extends(logs, logs)
  {
  }

  lemma NoGates(input: TickInput, now: real)
    ensures Waiting([], now) == [] && Passes([], now) == [] && Polled([], [], input, now)
  {
  }

  lemma PolledNext(done: seq<G.Gate>, gate: G.Gate, before: seq<seq<G.Poll>>, p: seq<G.Poll>, input: TickInput,
          now: real)
    requires Polled(done, before, input, now)
    requires gate.polls == p + if gate.hasCheck then [G.Poll(now, input.gateAnswer(|done|).Holding?)] else []
    ensures Polled(done + [gate], before + [p], input, now)
  {
  }

  lemma {:induction false} WaitingOk(gates: seq<G.Gate>, now: real)
    requires GatesOk(gates)
    ensures GatesOk(Waiting(gates, now)) && forall g :: g in Waiting(gates, now) ==> g in gates
  {
    if gates != [] {
      var before := gates[..|gates| - 1];
      WaitingOk(before, now);
      forall i | 0 <= i < |Waiting(before, now)| ensures Waiting(before, now)[i] != gates[|gates| - 1] {
        assert Waiting(before, now)[i] in before;
      }
    }
  }

  class Orchestrator {
    const station: Station
    const timeoutS: real
    const limits: HoldLog.Limits

    var state: State
    var run: ActiveRun
    var pendingGates: seq<G.Gate>
    var procedureQueue: seq<Procedure>
    var operationQueue: seq<Procedure>
    var guiActionQueue: seq<Name>
    var emergencyOverrideUntil: Option<real>
    var holdOverrideUntil: map<Key, real>
    var holdLast: map<Name, real>
    var holdAttempts: map<Name, nat>
    var holdEscalated: set<Name>
    var envelope: Option<Envelope>
    var monitoring: bool

    ghost var clock: real
    ghost var runLog: seq<RunLog.Event>
    ghost var accessLog: seq<AccessLog.Event>
    ghost var holdLog: seq<HoldLog.Event>
    ghost var hw: seq<HwEvent>

    // ---- invariants --------------------------------------------------------------------------

    ghost predicate RunValid()
      reads this`state, this`run, this`pendingGates, this`runLog, this`monitoring
    {
      RunInv(state, run, |pendingGates|, RunLog.Replay(runLog)) && (run.procedure.Some? ==> monitoring)
    }

    ghost predicate RunAbortable()
      reads this`run, this`runLog, this`monitoring
    {
      Abortable(run, RunLog.Replay(runLog)) && (run.procedure.Some? ==> monitoring)
    }

    ghost predicate AccessValid()
      reads this`emergencyOverrideUntil, this`holdOverrideUntil, this`accessLog, this`clock
    {
      AccessInv(emergencyOverrideUntil, holdOverrideUntil, AccessLog.Replay(accessLog, timeoutS), clock, timeoutS)
    }

    ghost predicate HoldsValid()
      reads this`holdLast, this`holdAttempts, this`holdEscalated, this`holdLog, this`clock
    {
      HoldInv(holdLast, holdAttempts, holdEscalated, HoldLog.Replay(holdLog, limits), clock)
    }

    ghost predicate GatesValid()
      reads this`pendingGates, pendingGates
    {
      GatesOk(pendingGates)
    }

    /** The run owns the ramps of the VIs in its opening plan and its steps. */
    ghost predicate HwValid()
      reads this`run, this`hw
    {
      HwInv(hw) && (run.procedure.Some? ==> run.systemVis == Owned(hw))
    }

    /** Every standby ever sent to a held instrument enforced a hold that was not acknowledged then. */
    ghost predicate AttemptsValid()
      reads this`holdLog, this`accessLog, station`history
    {
      AllWarranted(holdLog, accessLog, station.history, timeoutS)
    }

    /** The registry is on record as of this moment. */
    ghost predicate SeenNow(now: real)
      reads station`history, station`conditions
    {
      station.HistoryValid() && station.LastSeen(now)
    }

    twostate lemma AttemptsStand()
      requires old(AttemptsValid()) && holdLog == old(holdLog)
      requires old(accessLog) <= accessLog && old(station.history) <= station.history
      ensures AttemptsValid()
    {
      WarrantsStand(holdLog, old(accessLog), accessLog, old(station.history), station.history, timeoutS);
    }

    ghost function Holds(): HoldRecord
      reads this`holdLast, this`holdAttempts, this`holdLog
    {
      HoldRecord(holdLast, holdAttempts, holdLog)
    }

    ghost function AllLogs(): Logs
      reads this`runLog, this`accessLog, this`holdLog, this`hw
    {
      Logs(runLog, accessLog, holdLog, hw)
    }

    /** The logs are only ever added to. */
    twostate predicate LogsGrow()
      reads this`runLog, this`accessLog, this`holdLog, this`hw
    {
      Extends(old(AllLogs()), AllLogs())
    }

    /** Gates are only ever the old ones or new ones. */
    twostate predicate GatesOwn()
      reads this`pendingGates
    {
      forall g :: g in pendingGates ==> g in old(pendingGates) || fresh(g)
    }

    ghost predicate Valid()
      reads this, station, pendingGates
    {
      && station.Valid() && RunValid() && AccessValid() && HoldsValid() && GatesValid() && HwValid()
      && AttemptsValid()
    }

    constructor (station: Station, timeoutS: real, limits: HoldLog.Limits)
      requires station.Valid()
      ensures Valid() && this.station == station && this.timeoutS == timeoutS && this.limits == limits
      ensures run == NO_RUN && pendingGates == [] && envelope.None? && emergencyOverrideUntil.None?
      ensures procedureQueue == [] && operationQueue == [] && guiActionQueue == []
      ensures state == Idle && runLog == [] && accessLog == []
      ensures holdLog == [] && hw == [] && !monitoring && clock == 0.0
    {
      this.station, this.timeoutS, this.limits := station, timeoutS, limits;
      state, run, pendingGates := Idle, NO_RUN, [];
      procedureQueue, operationQueue, guiActionQueue := [], [], [];
      emergencyOverrideUntil, holdOverrideUntil := None, map[];
      holdLast, holdAttempts, holdEscalated := map[], map[], {};
      envelope, monitoring := None, false;
      clock, runLog, accessLog, holdLog, hw := 0.0, [], [], [], [];
    }

    // ---- the logs ----------------------------------------------------------------------------

    ghost method NoteRun(e: RunLog.Event)
      modifies this`runLog
      ensures runLog == old(runLog) + [e]
      ensures RunLog.Replay(runLog) == RunLog.Accept(RunLog.Replay(old(runLog)), e)
    {
      RunLog.ReplayAppend(runLog, e);
      runLog := runLog + [e];
    }

    ghost method NoteAccess(e: AccessLog.Event)
      modifies this`accessLog
      ensures accessLog == old(accessLog) + [e]
      ensures AccessLog.Replay(accessLog, timeoutS) ==
        AccessLog.Accept(AccessLog.Replay(old(accessLog), timeoutS), e, timeoutS)
    {
      AccessLog.ReplayAppend(accessLog, e, timeoutS);
      accessLog := accessLog + [e];
    }

    ghost method NoteHold(e: HoldLog.Event)
      modifies this`holdLog
      ensures holdLog == old(holdLog) + [e]
      ensures HoldLog.Replay(holdLog, limits) == HoldLog.Accept(HoldLog.Replay(old(holdLog), limits), e, limits)
    {
      HoldLog.ReplayAppend(holdLog, e, limits);
      holdLog := holdLog + [e];
    }

    ghost method NoteHw(e: HwEvent)
      requires HwInv(hw) && (e.Commanded? ==> Allowed(e.envelope, e.targets))
      requires e.HeldRamps? && e.scope.Some? ==> e.scope.value == Owned(hw)
      modifies this`hw
      ensures HwInv(hw) && hw == old(hw) + [e]
      ensures Owned(hw) ==
        if e.Began? then {} else Owned(old(hw)) + if e.OnTheWay() then e.targets.Keys else {}
    {
      HwGrows(hw, e);
      hw := hw + [e];
    }

    /** Stop the ramps of the active run (without one: every ramp) and hold the hardware where it is. */
    ghost method NoteHeldRamps()
      requires HwValid()
      modifies this`hw
      ensures HwValid() && hw == old(hw) + [HeldRamps(run.RampScope())]
    {
      hide HwInv, Owned;
      NoteHw(HeldRamps(run.RampScope()));
    }

    /** The clock never runs backwards. */
    ghost method Advance(now: real)
      requires AccessValid() && HoldsValid() && clock <= now
      modifies this`clock
      ensures AccessValid() && HoldsValid() && clock == now
    {
      hide AccessLog.Replay, HoldLog.Replay;
      clock := now;
    }

    // ---- targets -----------------------------------------------------------------------------

    /** The run has taken on the VIs of a plan that it is about to send. */
    ghost predicate TakenOn(plan: Plan, targets: Targets)
      reads this`run, this`hw
    {
      && HwInv(hw) && run.procedure.Some?
      && run.systemVis == Owned(hw) + if plan in {Opening, Stepping} then targets.Keys else {}
    }

    /** What becomes of a plan at the hardware. */
    ghost function PlanOf(plan: Plan, targets: Targets): HwEvent
      reads this`envelope
    {
      if Allowed(envelope, targets) then Commanded(plan, targets, envelope) else Refused(plan, targets)
    }

    /** ... and of the one a run starts with: nothing of it is sent before its claims are initiated. */
    ghost function OpeningOf(s: Setup): seq<HwEvent>
      reads this`envelope
    {
      if !s.initiateOk then [] else [if s.claimsOk then PlanOf(Opening, s.targets) else Refused(Opening, s.targets)]
    }

    /** Reject the whole plan on an envelope breach, before any hardware is touched. */
    method DispatchTargets(ghost plan: Plan, targets: Targets, dispatchOk: bool) returns (ok: bool)
      requires TakenOn(plan, targets)
      modifies this`run, this`hw
      ensures HwValid() && ok == (Allowed(envelope, targets) && dispatchOk)
      ensures hw == old(hw) + [PlanOf(plan, targets)]
      ensures run == if Allowed(envelope, targets) then old(run).(lastTargets := targets) else old(run)
    {
      hide HwInv, Owned;
      TargetsAreChecked(envelope, targets);
      if !Within(envelope, targets) {
        NoteHw(Refused(plan, targets));
        return false;
      }
      run := run.(lastTargets := targets);
      NoteHw(Commanded(plan, targets, envelope));
      ok := dispatchOk;
    }

    // ---- teardown ----------------------------------------------------------------------------

    method EmitRunFinished(status: RunLog.Status)
      modifies this`run, this`runLog
      ensures run == old(run).(manifestOpen := false)
      ensures runLog == if old(run).manifestOpen then old(runLog) + [RunLog.Finished(status)] else old(runLog)
      ensures RunLog.Replay(runLog) == if old(run).manifestOpen
        then RunLog.Accept(RunLog.Replay(old(runLog)), RunLog.Finished(status)) else RunLog.Replay(old(runLog))
    {
      hide RunLog.Replay, RunLog.Accept;
      if run.manifestOpen {
        run := run.(manifestOpen := false);
        NoteRun(RunLog.Finished(status));
      }
    }

    /** Call the procedure's abort, hold the run's ramps, forget the run. */
    method AbortActiveProcedure()
      requires RunAbortable() && HwValid()
      modifies this`run, this`pendingGates, this`runLog, this`hw
      ensures HwValid() && pendingGates == [] && run.(manifestOpen := false).Vacant()
      ensures run.manifestOpen == old(run).manifestOpen
      ensures !run.fromEmergency && run.lastTargets == map[] && !run.waitStarted && run.firstMeasurement
      ensures RunLog.Replay(runLog).Ledger?
      ensures RunLog.Replay(runLog).phase == if old(run).manifestOpen then RunLog.Aborting else RunLog.NoRun
      ensures runLog == if old(run).procedure.Some? then old(runLog) + [RunLog.Abort] else old(runLog)
      ensures hw == old(hw) + [HeldRamps(old(run).RampScope())]
    {
      hide RunLog.Replay, HwInv, Owned;
      if run.procedure.Some? {
        NoteRun(RunLog.Abort);
      }
      NoteHeldRamps();
      run := run.(procedure := None, claims := None, systemVis := {}, standbyDispatched := false, waitStarted := false,
                  firstMeasurement := true, pauseRequested := false, fromEmergency := false, lastTargets := map[]);
      pendingGates := [];
    }

    /** Every teardown: abort whatever runs, report it finished if it was reported started, and land
        in the given state. */
    method TearDown(status: RunLog.Status, home: State)
      requires RunAbortable() && HwValid() && !status.Done? && home in {Idle, Error, Emergency}
      modifies this`run, this`state, this`pendingGates, this`runLog, this`hw
      ensures LogsGrow()
      ensures RunValid() && GatesValid() && HwValid() && state == home && run.procedure.None? && pendingGates == []
      ensures hw == old(hw) + [HeldRamps(old(run).RampScope())]
      ensures runLog == old(runLog)
        + (if old(run).procedure.Some? then [RunLog.Abort] else [])
        + (if old(run).manifestOpen then [RunLog.Finished(status)] else [])
    {
      hide RunLog.Replay, HwInv, Owned;
      AbortActiveProcedure();
      EmitRunFinished(status);
      state := home;
    }

    /** One-shot: both override windows are closed, the run is torn down, everything goes to standby. */
    method EnterEmergency()
      requires RunAbortable() && AccessValid() && HwValid() && AttemptsValid()
      modifies this`run, this`state, this`pendingGates, this`runLog, this`hw,
        this`emergencyOverrideUntil, this`holdOverrideUntil, this`accessLog
      ensures RunValid() && AccessValid() && GatesValid() && HwValid() && AttemptsValid() && state == Emergency
      ensures run.procedure.None? && pendingGates == []
      ensures emergencyOverrideUntil.None? && holdOverrideUntil == map[]
      ensures accessLog == old(accessLog) + [AccessLog.EmergencyEntered, AccessLog.StandbyAll]
      ensures hw == old(hw) + [HeldRamps(old(run).RampScope())] && LogsGrow()
    {
      hide HwInv, Owned, RunLog.Replay, AccessLog.Replay, RunInv, Abortable, AttemptsValid, AllWarranted;
      NoteAccess(AccessLog.EmergencyEntered);
      emergencyOverrideUntil, holdOverrideUntil := None, map[];
      TearDown(RunLog.Failed, Emergency);
      NoteAccess(AccessLog.StandbyAll);
      AttemptsStand();
    }

    // ---- starting a run ----------------------------------------------------------------------

    method StartMonitoring()
      modifies this`monitoring
      ensures monitoring
    {
      monitoring := true;
    }

    /** Refused while hardware may be active. */
    method StopMonitoring() returns (stopped: bool)
      requires RunValid()
      modifies this`monitoring
      ensures RunValid() && stopped == !monitoring
      ensures stopped == (!old(monitoring) || state in {Idle, Error})
    {
      hide RunLog.Replay, AccessLog.Replay, HoldLog.Replay;
      if !monitoring {
        return true;
      }
      if state !in {Idle, Error} {
        return false;
      }
      monitoring := false;
      stopped := true;
    }

    method SetExperimentEnvelope(bounds: Option<Envelope>)
      modifies this`envelope
      ensures envelope == bounds
    {
      envelope := bounds;
    }

    /** The part of a start that may raise, after initiate() was called. */
    method SetUp(s: Setup) returns (ok: bool)
      requires HwValid() && run.procedure.Some? && run.systemVis == {}
      modifies this`run, this`hw
      ensures HwValid()
      ensures ok == StartsWell(s, envelope)
      ensures ok ==> run == old(run).(systemVis := s.targets.Keys, lastTargets := s.targets)
      ensures run == old(run).(systemVis := run.systemVis, lastTargets := run.lastTargets)
      ensures hw == old(hw) + OpeningOf(s) && run.systemVis == if s.initiateOk then s.targets.Keys else {}
    {
      if !s.initiateOk {
        return false;
      }
      run := run.(systemVis := s.targets.Keys);
      if !s.claimsOk {
        NoteHw(Refused(Opening, s.targets));
        return false;
      }
      ok := DispatchTargets(Opening, s.targets, s.dispatchOk);
      ok := ok && s.commandsOk;
    }

    /** Shared start of procedures and operations: INITIATING, or ERROR if anything in it raises. */
    method StartRun(p: Procedure, s: Setup) returns (started: bool)
      requires RunValid() && run.procedure.None? && monitoring && HwValid()
      modifies this`run, this`state, this`pendingGates, this`runLog, this`hw
      ensures RunValid() && HwValid() && pendingGates == [] && old(hw) <= hw
      ensures started == StartsWell(s, envelope)
      ensures started ==> state == Initiating && run == old(run).StartedOn(p, s)
      ensures !started ==> state == Error && run.procedure.None?
      ensures runLog == old(runLog) + [RunLog.Initiate(p.operation), if started then RunLog.Started else RunLog.Abort]
      ensures hw == old(hw) + [Began] + OpeningOf(s)
        + if started then [] else [HeldRamps(Some(if s.initiateOk then s.targets.Keys else {}))]
    {
      hide RunLog.Replay, RunLog.Accept, RunInv, Abortable, HwInv, Owned, OpeningOf;
      BeginRun(p);
      ghost var before := RunLog.Replay(runLog);
      started := SetUp(s);
      SetupTaken(run, before);
      if !started {
        TearDown(RunLog.Failed, Error);
        return;
      }
      run := run.(waitTime := s.waitS, manifestOpen := true);
      state := Initiating;
      SetupTaken(run, before);
      NoteRun(RunLog.Started);
    }

    /** The run's own record starts fresh; then initiate() is called. */
    method BeginRun(p: Procedure)
      requires RunValid() && run.procedure.None? && monitoring && HwValid()
      modifies this`run, this`pendingGates, this`runLog, this`hw
      ensures HwValid() && run.systemVis == {} && hw == old(hw) + [Began]
      ensures RunAbortable() && pendingGates == [] && runLog == old(runLog) + [RunLog.Initiate(p.operation)]
      ensures RunLog.Replay(runLog) == RunLog.Ledger(RunLog.Setup, p.operation, false, RunLog.Off)
      ensures run == old(run).(procedure := Some(p), claims := p.claims,
                               standbyDispatched := false, waitStarted := false,
                               firstMeasurement := true, pauseRequested := false)
      ensures !run.manifestOpen
    {
      hide RunLog.Replay, HwInv, Owned;
      NoteRun(RunLog.Initiate(p.operation));
      NoteHw(Began);
      run := run.(procedure := Some(p), claims := p.claims, standbyDispatched := false, waitStarted := false,
                  firstMeasurement := true, pauseRequested := false);
      pendingGates := [];
    }

    predicate ManualRamp()
      reads this`state, this`run
    {
      state.Ramping? && run.procedure.None?
    }

    /** What a start does at the hardware: a manual ramp is held first. */
    ghost function Leaving(s: Setup): seq<HwEvent>
      reads this`state, this`run, this`envelope
    {
      (if state.Ramping? && run.procedure.None? then [HeldRamps(None)] else []) + [Began] + OpeningOf(s)
    }

    /** From IDLE or a manual ramp: cancel the ramp, switch monitoring on, start. */
    method LeaveIdle(p: Procedure, s: Setup, fromEmergency: bool)
      requires RunValid() && run.procedure.None? && HwValid()
      modifies this`run, this`state, this`pendingGates, this`runLog, this`hw, this`monitoring
      ensures RunValid() && HwValid() && pendingGates == [] && monitoring
      ensures state == if StartsWell(s, envelope) then Initiating else Error
      ensures state.Initiating? ==> run == old(run).(fromEmergency := fromEmergency).StartedOn(p, s)
      ensures runLog == old(runLog) + [RunLog.Initiate(p.operation),
        if state.Initiating? then RunLog.Started else RunLog.Abort]
      ensures LogsGrow()
      ensures hw == old(hw) + old(Leaving(s))
        + if state.Initiating? then [] else [HeldRamps(Some(if s.initiateOk then s.targets.Keys else {}))]
    {
      hide RunLog.Replay, HwInv, Owned;
      if ManualRamp() {
        NoteHeldRamps();
      }
      StartMonitoring();
      run := run.(fromEmergency := fromEmergency);
      var _ := StartRun(p, s);
    }

    method RunProcedure(p: Procedure, s: Setup)
      requires RunValid() && GatesValid() && HwValid()
      modifies this`run, this`state, this`pendingGates, this`runLog, this`hw, this`monitoring, this`procedureQueue
      ensures GatesOwn()
      ensures RunValid() && GatesValid() && HwValid()
      ensures s.magnetsPersistent ==>
        state == old(state) && runLog == old(runLog) && procedureQueue == old(procedureQueue)
      ensures !s.magnetsPersistent && old(state != Idle && !(state.Ramping? && run.procedure.None?)) ==>
        state == old(state) && runLog == old(runLog) && procedureQueue == old(procedureQueue) + [p]
      ensures !s.magnetsPersistent && old(state == Idle || (state.Ramping? && run.procedure.None?)) ==>
        && state == (if StartsWell(s, envelope) then Initiating else Error) && procedureQueue == old(procedureQueue)
        && (state.Initiating? ==> run == old(run).(fromEmergency := false).StartedOn(p, s))
        && runLog == old(runLog) + [RunLog.Initiate(p.operation),
              if state.Initiating? then RunLog.Started else RunLog.Abort]
        && monitoring && pendingGates == [] && StartedOrFailed(p, s)
        && hw == old(hw) + old(Leaving(s))
             + if state.Initiating? then [] else [HeldRamps(Some(if s.initiateOk then s.targets.Keys else {}))]
      ensures LogsGrow()
    {
      hide RunLog.Replay, HwInv, Owned;
      if s.magnetsPersistent {
        return;
      }
      if state != Idle && !ManualRamp() {
        procedureQueue := procedureQueue + [p];
        return;
      }
      LeaveIdle(p, s, false);
    }

    /** Operations never queue themselves; from EMERGENCY they start only if they tolerate every flag
        that is tripped. */
    method RunOperation(op: Procedure, s: Setup, tripped: set<Name>) returns (accepted: bool)
      requires RunValid() && GatesValid() && HwValid()
      modifies this`run, this`state, this`pendingGates, this`runLog, this`hw, this`monitoring
      ensures GatesOwn()
      ensures RunValid() && GatesValid() && HwValid()
      ensures accepted == old(
        if state.Emergency? then tripped <= op.tolerated
        else state.Idle? || (state.Ramping? && run.procedure.None?))
      ensures accepted ==> state == if StartsWell(s, envelope) then Initiating else Error
      ensures accepted ==> StartedOrFailed(op, s)
      ensures accepted && state.Initiating? ==>
        run == old(run).(fromEmergency := old(state).Emergency?).StartedOn(op, s)
      ensures !accepted ==>
        state == old(state) && run == old(run) && runLog == old(runLog) && monitoring == old(monitoring)
      ensures LogsGrow()
    {
      hide RunLog.Replay, HwInv, Owned;
      var fromEmergency := false;
      if state.Emergency? {
        if !(tripped <= op.tolerated) {
          return false;
        }
        fromEmergency := true;
      } else if !(state.Idle? || ManualRamp()) {
        return false;
      }
      LeaveIdle(op, s, fromEmergency);
      accepted := true;
    }

    // ---- the queues --------------------------------------------------------------------------

    method QueueProcedure(p: Procedure)
      modifies this`procedureQueue
      ensures procedureQueue == old(procedureQueue) + [p]
    {
      procedureQueue := procedureQueue + [p];
    }

    method QueueOperation(op: Procedure)
      modifies this`operationQueue
      ensures operationQueue == old(operationQueue) + [op]
    {
      operationQueue := operationQueue + [op];
    }

    /** What becomes of the head of the queues in IDLE: operations come first, and a procedure that a
        persistent magnet blocks is not started. */
    ghost predicate Dequeued(procedures: seq<Procedure>, operations: seq<Procedure>, s: Setup)
      reads this`state, this`run, this`envelope
    {
      if operations != [] then StartedOrFailed(operations[0], s)
      else if procedures != [] && !s.magnetsPersistent then StartedOrFailed(procedures[0], s)
      else state == Idle && run.procedure.None?
    }

    ghost predicate StartedOrFailed(p: Procedure, s: Setup)
      reads this`state, this`run, this`envelope
    {
      if StartsWell(s, envelope) then state == Initiating && run.procedure == Some(p) && run.claims == p.claims
      else state == Error && run.procedure.None?
    }

    /** Operations first, and only from IDLE. A procedure that a persistent magnet blocks has already
        left the queue, and is lost. */
    method RunQueue(s: Setup)
      requires RunValid() && GatesValid() && HwValid()
      modifies this`run, this`state, this`pendingGates, this`runLog, this`hw, this`monitoring,
        this`procedureQueue, this`operationQueue
      ensures GatesOwn()
      ensures RunValid() && GatesValid() && HwValid()
      ensures old(state) != Idle ==> state == old(state) && runLog == old(runLog)
      ensures old(state) == Idle ==> Dequeued(old(procedureQueue), old(operationQueue), s)
      ensures old(state) == Idle && old(operationQueue) == [] && old(procedureQueue) == [] ==> runLog == old(runLog)
      ensures operationQueue == if old(state) == Idle && old(operationQueue) != []
        then old(operationQueue)[1..] else old(operationQueue)
      ensures procedureQueue == if old(state) == Idle && old(operationQueue) == [] && old(procedureQueue) != []
        then old(procedureQueue)[1..] else old(procedureQueue)
      ensures LogsGrow()
    {
      hide RunLog.Replay, HwInv, Owned;
      if state != Idle {
        return;
      }
      if operationQueue != [] {
        var op := operationQueue[0];
        operationQueue := operationQueue[1..];
        var _ := RunOperation(op, s, {});
        return;
      }
      if procedureQueue != [] {
        var p := procedureQueue[0];
        procedureQueue := procedureQueue[1..];
        RunProcedure(p, s);
      }
    }

    /** What the teardown of the run in flight, if there is one, puts on record. */
    ghost function Aborted(): seq<RunLog.Event>
      reads this`run
    {
      (if run.procedure.Some? then [RunLog.Abort] else [])
      + (if run.manifestOpen then [RunLog.Finished(RunLog.Aborted)] else [])
    }

    /** Hold everything where it is and return to IDLE, which starts whatever is queued next;
        EMERGENCY owns its own cleanup. */
    method AbortProcedure(s: Setup)
      requires RunValid() && GatesValid() && HwValid()
      modifies this`run, this`state, this`pendingGates, this`runLog, this`hw, this`monitoring,
        this`procedureQueue, this`operationQueue
      ensures LogsGrow()
      ensures GatesOwn()
      ensures RunValid() && GatesValid() && HwValid()
      ensures old(state) == Emergency ==> state == Emergency && runLog == old(runLog) && hw == old(hw)
      ensures old(state) != Emergency ==> Dequeued(old(procedureQueue), old(operationQueue), s)
      ensures old(state) != Emergency ==> old(hw) + [HeldRamps(old(run).RampScope())] <= hw
      ensures old(state) != Emergency ==> old(runLog) + old(Aborted()) <= runLog
      ensures old(state) != Emergency && old(operationQueue) == [] && old(procedureQueue) == [] ==>
        runLog == old(runLog) + old(Aborted())
    {
      hide RunLog.Replay, RunInv, Abortable, HwValid, Extends;
      NothingAdded(AllLogs());
      RunInvIsAbortable(state, run, |pendingGates|, RunLog.Replay(runLog));
      if state.Emergency? {
        return;
      }
      TearDown(RunLog.Aborted, Idle);
      ghost var mid := AllLogs();
      RunQueue(s);
      ExtendsOn(old(AllLogs()), mid, AllLogs());
      LogsLast(mid, AllLogs());
    }

    // ---- pause and resume --------------------------------------------------------------------

    /** Never mid-datapoint: a pause requested while a point is being read waits for it. */
    method PauseProcedure(now: real)
      requires RunValid() && HwValid()
      modifies this`run, this`state, this`runLog, this`hw
      ensures RunValid() && HwValid() && LogsGrow() && (state.Emergency? <==> old(state).Emergency?)
      ensures state == if old(run).procedure.Some? && old(state) !in {Measuring, Paused} then Paused else old(state)
      ensures state == old(state) ==> runLog == old(runLog) && hw == old(hw)
      ensures run.pauseRequested <==> old(run).procedure.Some? && old(state).Measuring?
      ensures state != old(state) ==>
        run == old(run).PausedFrom(old(state), now) && runLog == old(runLog) + [RunLog.Paused(now)]
      ensures state != old(state) ==> hw == old(hw) + [HeldRamps(Some(old(run).systemVis))]
    {
      hide RunLog.Replay, HwInv, Owned;
      if run.procedure.None? {
        return;
      }
      if state.Measuring? {
        run := run.(pauseRequested := true);
        return;
      }
      if state in {Initiating, Ramping, InitiationGate, ReadingGate, Sweeping, Standby} {
        EnterPaused(now);
      }
    }

    method EnterPaused(now: real)
      requires RunValid() && HwValid() && run.procedure.Some? && state !in {Measuring, Paused}
      modifies this`run, this`state, this`runLog, this`hw
      ensures RunValid() && HwValid() && state == Paused && run == old(run).PausedFrom(old(state), now)
      ensures runLog == old(runLog) + [RunLog.Paused(now)] && hw == old(hw) + [HeldRamps(Some(old(run).systemVis))]
    {
      hide RunLog.Replay, RunLog.Accept, RunInv, HwInv, Owned;
      PauseTaken(state, run, |pendingGates|, RunLog.Replay(runLog), now);
      run := run.(pauseRequested := false, prePauseState := state);
      if run.waitStarted {
        run := run.(pausedWaitElapsed := now - run.waitStartTime);
      }
      NoteHeldRamps();
      state := Paused;
      NoteRun(RunLog.Paused(now));
    }

    /** Re-dispatch what the hold made the hardware forget and go back to where the run was; a
        dispatch that raises leaves the run paused. */
    method ResumeProcedure(dispatchOk: bool, now: real) returns (raised: bool)
      requires RunValid() && HwValid()
      modifies this`run, this`state, this`runLog, this`hw
      ensures LogsGrow() && (state.Emergency? <==> old(state).Emergency?)
      ensures RunValid() && HwValid() && !run.pauseRequested
      ensures old(state) != Paused ==> !raised && state == old(state) && runLog == old(runLog) && hw == old(hw)
      ensures old(state) == Paused && !raised ==>
        state == old(run).prePauseState && run == old(run).ResumedAt(now)
        && runLog == old(runLog) + [RunLog.Resumed(now)]
      ensures raised ==> state == Paused && runLog == old(runLog)
      ensures old(state) == Paused ==>
        var was, targets := old(run).prePauseState, old(run).lastTargets;
        var again := was in {State.Initiating, State.Ramping, State.Standby} && targets != map[];
        && (raised <==> again && !(Allowed(envelope, targets) && dispatchOk))
        && hw == old(hw) + if again then [PlanOf(Resending, targets)] else []
      ensures WentOn(dispatchOk)
    {
      hide RunLog.Replay, RunInv, HwInv, Owned;
      PauseForgotten(state, run, |pendingGates|, RunLog.Replay(runLog));
      if state != Paused {
        run := run.(pauseRequested := false);
        return false;
      }
      raised := false;
      if run.Resends() {
        var ok := DispatchTargets(Resending, run.lastTargets, dispatchOk);
        raised := !ok;
      }
      if !raised {
        Unpause(now);
      }
    }

    /** The wait clock goes on from where it was frozen. */
    method Unpause(now: real)
      requires RunValid() && state == Paused
      modifies this`run, this`state, this`runLog
      ensures RunValid() && state == old(run).prePauseState && runLog == old(runLog) + [RunLog.Resumed(now)]
      ensures run == old(run).ResumedAt(now)
    {
      hide RunLog.Replay;
      if run.waitStarted {
        run := run.(waitStartTime := now - run.pausedWaitElapsed);
      }
      state := run.prePauseState;
      NoteRun(RunLog.Resumed(now));
    }

    /** Queued runs are not started: after an error their assumptions may no longer hold. */
    method RecoverFromError()
      requires RunValid()
      modifies this`state
      ensures RunValid() && state == if old(state) == Error then Idle else old(state)
    {
      hide RunLog.Replay;
      if state.Error? {
        state := Idle;
      }
    }

    // ---- manual access -----------------------------------------------------------------------

    /** Every held VI with the hold that comes first in key order. */
    method HeldVis() returns (held: map<Name, Condition>)
      requires station.RegistryValid()
      ensures HoldMap(station.conditions, held)
    {
      var list := station.ConditionList();
      var verdict := Decide(list, {}, false);
      assert list + [] == list;
      HeldByRegistry(station.conditions, list, [], verdict.held);
      held := verdict.held;
    }

    method OverrideActive(vi: Name, now: real) returns (active: bool)
      requires station.RegistryValid()
      ensures active <==> exists k :: IsHold(station.conditions, vi, k) && KeyStillOpen(holdOverrideUntil, k, now)
    {
      hide IsHold;
      var held := HeldVis();
      HoldIsUnique(station.conditions, held, vi);
      active := vi in held && KeyStillOpen(holdOverrideUntil, held[vi].key, now);
    }

    /** The acknowledgements so far justify an action on the VI, on the facts as they are. */
    ghost predicate Admissible(vi: Name, now: real)
      reads this`state, this`run, this`accessLog, station`conditions
    {
      AccessLog.Justified(AccessLog.Replay(accessLog, timeoutS), now,
        FactsOf(state, run, station.conditions, vi), timeoutS)
    }

    /** The one admission predicate, for submitted and for drained actions alike: it admits exactly
        what the acknowledgements so far justify. */
    method ManualActionAdmissible(vi: Name, now: real) returns (admitted: bool)
      requires RunValid() && AccessValid() && station.RegistryValid() && station.CommValid() && clock == now
      ensures admitted <==> Admissible(vi, now)
    {
      hide RunLog.Replay, AccessLog.Replay, HoldLog.Replay, PhaseFits, ClockFits, HoldOf;
      var emergencyUnlocked := StillOpen(emergencyOverrideUntil, now);
      var held := HeldVis();
      HoldOfHeld(station.conditions, held, vi);
      if vi in held {
        if CommKey(vi) in station.conditions {
          return false;
        }
        if emergencyUnlocked {
          return true;
        }
        admitted := KeyStillOpen(holdOverrideUntil, held[vi].key, now) && state !in {Emergency, Error};
        return;
      }
      if state.Idle? || ManualRamp() {
        return true;
      }
      if state.Emergency? {
        return emergencyUnlocked;
      }
      if state.Error? || run.procedure.None? || run.claims.None? {
        return false;
      }
      admitted := vi !in run.claims.value;
    }

    /** Ask for admission, and put what is admitted on record; that opens or closes no window. */
    method Admit(vi: Name, now: real) returns (admitted: bool)
      requires RunValid() && AccessValid() && station.RegistryValid() && station.CommValid() && clock == now
      modifies this`accessLog
      ensures AccessValid() && admitted == old(Admissible(vi, now))
      ensures accessLog == old(accessLog) + if admitted then [Admission(vi, now)] else []
      ensures AccessLog.Replay(accessLog, timeoutS) == AccessLog.Replay(old(accessLog), timeoutS)
    {
      hide RunLog.Replay, AccessLog.Replay, AccessLog.Justified, FactsOf;
      admitted := ManualActionAdmissible(vi, now);
      if admitted {
        NoteAccess(Admission(vi, now));
      }
    }

    /** The record of an admission, on the facts as they are. */
    ghost function Admission(vi: Name, now: real): AccessLog.Event
      reads this`state, this`run, station`conditions
    {
      AccessLog.Admitted(vi, now, FactsOf(state, run, station.conditions, vi))
    }

    method SubmitViAction(vi: Name, now: real)
      requires RunValid() && AccessValid() && station.RegistryValid() && station.CommValid() && clock == now
      modifies this`accessLog, this`guiActionQueue
      ensures LogsGrow()
      ensures AccessValid()
      ensures guiActionQueue == old(guiActionQueue) + if old(Admissible(vi, now)) then [vi] else []
      ensures accessLog == old(accessLog) + if old(Admissible(vi, now)) then [Admission(vi, now)] else []
    {
      hide RunLog.Replay, AccessLog.Replay, AccessInv, RunInv;
      var admitted := Admit(vi, now);
      if admitted {
        guiActionQueue := guiActionQueue + [vi];
      }
    }

    /** Stop one VI's ramp at once, under the same admission. */
    method StopRamp(vi: Name, now: real)
      requires RunValid() && AccessValid() && station.RegistryValid()
      requires station.CommValid() && clock == now && HwValid()
      modifies this`accessLog, this`hw
      ensures LogsGrow()
      ensures AccessValid() && HwValid()
      ensures hw == old(hw) + if old(Admissible(vi, now)) then [HeldOne(vi)] else []
      ensures accessLog == old(accessLog) + if old(Admissible(vi, now)) then [Admission(vi, now)] else []
    {
      hide HwInv, Owned, RunLog.Replay, AccessLog.Replay, AccessInv, RunInv;
      var admitted := Admit(vi, now);
      if admitted {
        NoteHw(HeldOne(vi));
      }
    }

    /** One queued action per live VI; a standby for all first aborts the run in flight. */
    method SubmitGlobalAction(standby: bool, s: Setup)
      requires RunValid() && GatesValid() && HwValid()
      modifies this`run, this`state, this`pendingGates, this`runLog, this`hw, this`monitoring,
        this`procedureQueue, this`operationQueue, this`guiActionQueue
      ensures LogsGrow()
      ensures GatesOwn()
      ensures RunValid() && GatesValid() && HwValid()
      ensures state == Emergency <==> old(state) == Emergency
      ensures !standby || old(state) in {Idle, Error, Emergency} ==>
        state == old(state) && run == old(run) && runLog == old(runLog)
      // the run in flight is aborted, and what is queued starts before the actions are drained
      ensures standby && old(state) !in {Idle, Error, Emergency} ==>
        && old(runLog) + old(Aborted()) <= runLog && Dequeued(old(procedureQueue), old(operationQueue), s)
        && (old(operationQueue) == [] && old(procedureQueue) == [] ==> runLog == old(runLog) + old(Aborted()))
        && (state == Idle <==> old(operationQueue) == [] && (old(procedureQueue) == [] || s.magnetsPersistent))
      ensures old(guiActionQueue) <= guiActionQueue
      ensures forall v :: v in guiActionQueue[|old(guiActionQueue)|..] <==> v in station.vis
      ensures forall i, j :: |old(guiActionQueue)| <= i < j < |guiActionQueue| ==>
        guiActionQueue[i] != guiActionQueue[j]
    {
      hide HwInv, Owned, RunLog.Replay, RunInv;
      if standby && state !in {Idle, Error, Emergency} {
        AbortProcedure(s);
      }
      var todo := station.vis.Keys;
      var more: seq<Name> := [];
      while todo != {}
        invariant todo <= station.vis.Keys
        invariant forall v :: v in more <==> v in station.vis.Keys - todo
        invariant forall i, j :: 0 <= i < j < |more| ==> more[i] != more[j]
        decreases todo
      {
        var v :| v in todo;
        assert v !in more;
        more := more + [v];
        todo := todo - {v};
      }
      guiActionQueue := guiActionQueue + more;
      assert guiActionQueue[|old(guiActionQueue)|..] == more;
    }

    /** In EMERGENCY: unlock manual control, or return to IDLE when nothing is active any more.
        Elsewhere: unlock the VIs that are held now. */
    method Acknowledge(readings: map<Name, real>, now: real)
      requires RunValid() && AccessValid() && station.RegistryValid() && clock == now
      modifies this`state, this`emergencyOverrideUntil, this`holdOverrideUntil, this`accessLog
      ensures LogsGrow()
      ensures RunValid() && AccessValid()
      ensures old(state) != Emergency ==> state == old(state)
      ensures old(state) == Emergency ==>
        state == if AnyCritical(station.conditions) || OutOfBounds(envelope, readings) then Emergency else Idle
      ensures old(state) == Emergency && state == Emergency ==>
        && emergencyOverrideUntil == Some(now + timeoutS)
        && accessLog == old(accessLog) + [AccessLog.EmergencyAcknowledged(now)]
      ensures old(state) != Emergency ==> exists keys ::
        HoldKeys(station.conditions, keys)
        && accessLog == old(accessLog) + if keys == {} then [] else [AccessLog.Acknowledged(now, keys)]
    {
      hide RunLog.Replay, AccessLog.Replay, PhaseFits, ClockFits;
      if state.Emergency? {
        emergencyOverrideUntil := Some(now + timeoutS);
        NoteAccess(AccessLog.EmergencyAcknowledged(now));
        AcknowledgeEmergency(readings);
      } else {
        AcknowledgeHolds(now);
      }
    }

    method AcknowledgeEmergency(readings: map<Name, real>)
      requires RunValid() && AccessValid() && state == Emergency
      modifies this`state, this`emergencyOverrideUntil, this`accessLog
      ensures LogsGrow()
      ensures RunValid() && AccessValid()
      ensures state == if AnyCritical(station.conditions) || OutOfBounds(envelope, readings) then Emergency else Idle
      ensures accessLog == old(accessLog) + if state == Idle then [AccessLog.EmergencyCleared] else []
      ensures emergencyOverrideUntil == if state == Idle then None else old(emergencyOverrideUntil)
    {
      hide RunLog.Replay, AccessLog.Replay, PhaseFits, ClockFits;
      ReadingsAreChecked(envelope, readings);
      if AnyCritical(station.conditions) || Breached(envelope, readings) != {} {
        return;
      }
      emergencyOverrideUntil := None;
      NoteAccess(AccessLog.EmergencyCleared);
      state := Idle;
    }

    method AcknowledgeHolds(now: real)
      requires AccessValid() && station.RegistryValid() && clock == now
      modifies this`holdOverrideUntil, this`accessLog
      ensures AccessValid()
      ensures exists keys ::
        HoldKeys(station.conditions, keys)
        && accessLog == old(accessLog) + if keys == {} then [] else [AccessLog.Acknowledged(now, keys)]
    {
      hide AccessLog.Replay, AccessLog.Accept, AccessInv, HoldKeys, HoldMap;
      var held := HeldVis();
      var keys := set vi | vi in held :: held[vi].key;
      HoldKeysOf(station.conditions, held, keys);
      if keys != {} {
        OpenWindows(keys, now);
      }
    }

    method OpenWindows(keys: set<Key>, now: real)
      requires AccessValid() && clock == now
      modifies this`holdOverrideUntil, this`accessLog
      ensures AccessValid() && accessLog == old(accessLog) + [AccessLog.Acknowledged(now, keys)]
    {
      hide AccessLog.Replay, AccessLog.Accept, AccessInv;
      AcknowledgementOpensWindows(
        emergencyOverrideUntil, holdOverrideUntil, AccessLog.Replay(accessLog, timeoutS), clock, timeoutS, keys);
      holdOverrideUntil := holdOverrideUntil + map k | k in keys :: now + timeoutS;
      NoteAccess(AccessLog.Acknowledged(now, keys));
    }

    // ---- instruments -------------------------------------------------------------------------

    /** Every configured name is still live or offline, and no other one is. */
    twostate predicate NamesKept()
      reads station
    {
      station.vis.Keys + station.offline.Keys == old(station.vis.Keys + station.offline.Keys)
    }

    twostate lemma NamesStand()
      requires station.vis == old(station.vis) && station.offline == old(station.offline)
      ensures NamesKept()
    {
    }

    /** No session that another live VI uses was closed or replaced. */
    twostate predicate SessionsSpared(vi: Name)
      reads station
    {
      OthersKeepSessions(vi, old(station.vis), station.vis, old(station.closed), station.closed,
        old(station.drivers), station.drivers)
    }

    /** Only in IDLE: no VI joins or leaves during a run. */
    method ConnectInstrument(vi: Name, ans: Answers) returns (ok: bool)
      requires station.Valid()
      modifies station`vis, station`errorCounts, station`offline, station`drivers, station`closed, station`nextSerial
      ensures station.Valid() && (state != Idle ==> !ok) && NamesKept() && SessionsSpared(vi)
      ensures ok <==> (
        && state == Idle && vi in old(station.offline) && vi in station.viSpecs && ans.constructs && ans.pings
        && forall a :: a in station.viSpecs[vi].aliases && a !in old(station.drivers) ==> ans.opens(a))
      ensures ok ==> vi in station.vis
      ensures !ok ==> station.vis == old(station.vis)
      ensures state != Idle ==> unchanged(station)
    {
      if state != Idle {
        return false;
      }
      ok := station.ConnectInstrument(vi, ans);
    }

    method DisconnectInstrument(vi: Name, ghost now: real) returns (ok: bool)
      requires station.Valid()
      modifies station
      ensures station.HistoryGrows(now)
      ensures station.Valid() && ok == (state == Idle && vi in old(station.vis)) && NamesKept() && SessionsSpared(vi)
      ensures ok ==> LetGo(station.viSpecs, old(station.vis).Keys, vi, old(station.drivers), station.drivers,
                           old(station.closed), station.closed)
      ensures ok ==> vi !in station.vis
      ensures !ok ==> station.vis == old(station.vis)
      ensures state != Idle ==> unchanged(station)
    {
      if state != Idle {
        return false;
      }
      ok := station.DisconnectInstrument(vi, now);
    }

    /** A session is never rebuilt under an instrument the active run claims. */
    method RetryFault(vi: Name, ans: Answers, now: real) returns (ok: bool)
      requires station.Valid()
      modifies station
      ensures station.Valid() && station.vis.Keys == old(station.vis).Keys && NamesKept() && SessionsSpared(vi)
      ensures station.HistoryGrows(now)
      ensures run.Claims(vi) ==> station.vis == old(station.vis) && station.drivers == old(station.drivers)
      ensures run.Claims(vi) && old(station.Gone(vi)) ==> !ok && unchanged(station)
      ensures vi in old(station.vis) && !old(station.Gone(vi)) ==>
        ok == ans.polls && (CommKey(vi) in station.conditions <==> !ok)
      ensures !run.Claims(vi) && old(station.Gone(vi)) && vi in old(station.vis) && vi in station.viSpecs ==>
        ans.constructs && ans.pings && (forall a :: ans.opens(a)) ==>
        ok == ans.polls && (CommKey(vi) in station.conditions <==> !ok)
        && Reopened(station.viSpecs, station.vis.Keys, vi, station.vis[vi].sessions, old(station.drivers),
             station.closed, old(station.nextSerial))
    {
      if station.Gone(vi) && run.Claims(vi) {
        return false;
      }
      ghost var rebuilt;
      ok, rebuilt := station.RetryFault(vi, ans, now);
    }

    // ---- hold enforcement --------------------------------------------------------------------

    /** What was noted since is warranted too. */
    lemma AttemptsOn(before: seq<HoldLog.Event>, after: seq<HoldLog.Event>)
      requires AllWarranted(before, accessLog, station.history, timeoutS) && before <= after
      requires forall i :: |before| <= i < |after| && after[i].Attempt? ==>
        Warranted(after[i], accessLog, station.history, timeoutS)
      ensures AllWarranted(after, accessLog, station.history, timeoutS)
    {
      hide Warranted;
      forall i | 0 <= i < |after| && after[i].Attempt?
        ensures Warranted(after[i], accessLog, station.history, timeoutS)
      {
        assert i < |before| ==> after[i] == before[i];
      }
    }

    /** The episode is over: forget its attempts. */
    method Release(vi: Name)
      requires HoldsValid()
      modifies this`holdLast, this`holdAttempts, this`holdEscalated, this`holdLog
      ensures HoldsValid() && holdLast == old(holdLast) - {vi} && holdAttempts == old(holdAttempts) - {vi}
      ensures holdLog == old(holdLog) + [HoldLog.Release(vi)]
    {
      hide HoldLog.Replay;
      holdLast, holdAttempts, holdEscalated := holdLast - {vi}, holdAttempts - {vi}, holdEscalated - {vi};
      NoteHold(HoldLog.Release(vi));
    }

    /** What one visit to a held instrument puts on record. */
    ghost function Visited(vi: Name, status: StandbyStatus, standbyOk: bool, now: real, hold: Key): seq<HoldLog.Event>
      reads this, station`history
    {
      if status.AtOrNearStandby? then [HoldLog.Release(vi)]
      else if vi in holdLast && now - holdLast[vi] < limits.intervalS then []
      else
        [HoldLog.Attempt(vi, now, hold, |accessLog|, |station.history|)]
        + if standbyOk then [] else Failed(vi)
    }

    /** ... and what a standby that raised does: one more failure, and the critical report once there are
        enough of them. */
    ghost function Failed(vi: Name): seq<HoldLog.Event>
      reads this`holdAttempts, this`holdEscalated
    {
      [HoldLog.Failure(vi)]
      + if HoldLog.Failures(holdAttempts, vi) + 1 >= limits.maxAttempts && vi !in holdEscalated
        then [HoldLog.Escalation(vi)] else []
    }

    /** One registered held instrument: leave it if it is at or near standby, else send it there,
        at most once an interval, and escalate when that keeps failing. */
    method EnforceOne(vi: Name, status: StandbyStatus, standbyOk: bool, now: real, ghost hold: Key)
      requires HoldsValid() && AttemptsValid() && SeenNow(now) && clock == now
      requires IsHold(station.conditions, vi, hold)
      requires AccessLog.Lapsed(AccessLog.Replay(accessLog, timeoutS), hold, now, timeoutS)
      modifies this`holdLast, this`holdAttempts, this`holdEscalated, this`holdLog
      ensures LogsGrow()
      ensures HoldsValid() && AttemptsValid()
      ensures holdLast - {vi} == old(holdLast) - {vi}
      ensures if status.AtOrNearStandby? then vi !in holdLast else RecentlyEnforced(holdLast, vi, now, limits.intervalS)
      ensures holdLog == old(holdLog) + old(Visited(vi, status, standbyOk, now, hold))
      ensures holdAttempts ==
        if status.AtOrNearStandby? then old(holdAttempts) - {vi}
        else if standbyOk || (vi in old(holdLast) && now - old(holdLast)[vi] < limits.intervalS) then old(holdAttempts)
        else old(holdAttempts)[vi := HoldLog.Failures(old(holdAttempts), vi) + 1]
    {
      hide HoldLog.Replay, HoldInv, AccessLog.Replay, AccessLog.Lapsed, IsHold, AllWarranted, Chain;
      if status.AtOrNearStandby? {
        Release(vi);
        AttemptsOn(old(holdLog), holdLog);
        return;
      }
      if vi in holdLast && now - holdLast[vi] < limits.intervalS {
        return;
      }
      SendHome(vi, standbyOk, now, hold);
    }

    /** standby() is called, and it may raise. */
    method SendHome(vi: Name, standbyOk: bool, now: real, ghost hold: Key)
      requires HoldsValid() && AttemptsValid() && SeenNow(now) && clock == now
      requires IsHold(station.conditions, vi, hold) && (vi in holdLast ==> now - holdLast[vi] >= limits.intervalS)
      requires AccessLog.Lapsed(AccessLog.Replay(accessLog, timeoutS), hold, now, timeoutS)
      modifies this`holdLast, this`holdAttempts, this`holdEscalated, this`holdLog
      ensures HoldsValid() && AttemptsValid() && holdLast == old(holdLast)[vi := now]
      ensures holdLog == old(holdLog) + [HoldLog.Attempt(vi, now, hold, |accessLog|, |station.history|)]
        + if standbyOk then [] else old(Failed(vi))
      ensures holdAttempts == if standbyOk then old(holdAttempts)
        else old(holdAttempts)[vi := HoldLog.Failures(old(holdAttempts), vi) + 1]
    {
      assert station.history != [];
      hide HoldLog.Replay, AccessLog.Replay, AccessLog.Lapsed, IsHold, AllWarranted, Warranted, Chain;
      WarrantedNow(vi, now, hold, accessLog, station.history, timeoutS);
      holdLast := holdLast[vi := now];
      NoteHold(HoldLog.Attempt(vi, now, hold, |accessLog|, |station.history|));
      AttemptsOn(old(holdLog), holdLog);
      if !standbyOk {
        CountFailure(vi);
      }
    }

    /** standby() raised: count it, and report it as critical once per episode. */
    method CountFailure(vi: Name)
      requires HoldsValid() && AttemptsValid() && vi in holdLast
      modifies this`holdAttempts, this`holdEscalated, this`holdLog
      ensures HoldsValid() && AttemptsValid() && holdLog == old(holdLog) + old(Failed(vi))
      ensures holdAttempts == old(holdAttempts)[vi := HoldLog.Failures(old(holdAttempts), vi) + 1]
      ensures vi in holdEscalated <==> vi in old(holdEscalated) || holdAttempts[vi] >= limits.maxAttempts
    {
      hide HoldLog.Replay, AllWarranted;
      holdAttempts := holdAttempts[vi := HoldLog.Failures(holdAttempts, vi) + 1];
      NoteHold(HoldLog.Failure(vi));
      if holdAttempts[vi] >= limits.maxAttempts && vi !in holdEscalated {
        holdEscalated := holdEscalated + {vi};
        NoteHold(HoldLog.Escalation(vi));
      }
      AttemptsOn(old(holdLog), holdLog);
    }

    /** Forget the instruments that are no longer held. */
    method ReleaseUnheld(held: map<Name, Condition>, ghost now: real)
      requires HoldsValid() && AttemptsValid()
      modifies this`holdLast, this`holdAttempts, this`holdEscalated, this`holdLog
      ensures HoldsValid() && AttemptsValid() && holdLast == old(holdLast) - (old(holdLast).Keys - held.Keys)
      ensures old(holdLog) <= holdLog
      ensures LeftAlone(held, holdOverrideUntil, station.vis.Keys, now, |accessLog|, old(Holds()), Holds())
    {
      hide HoldLog.Replay, HoldInv, AllWarranted, LeftAlone;
      var gone := holdLast.Keys - held.Keys;
      var todo := gone;
      NobodyTended(held, holdOverrideUntil, station.vis.Keys, now, |accessLog|, Holds());
      while todo != {}
        invariant todo <= gone && HoldsValid() && AttemptsValid() && holdLast == old(holdLast) - (gone - todo)
        invariant old(holdLog) <= holdLog
        invariant LeftAlone(held, holdOverrideUntil, station.vis.Keys, now, |accessLog|, old(Holds()), Holds())
        decreases todo
      {
        var vi :| vi in todo;
        ghost var before := Holds();
        Release(vi);
        AttemptsOn(before.log, holdLog);
        OneMoreTended(held, holdOverrideUntil, station.vis.Keys, now, |accessLog|, old(Holds()), before, Holds(), vi);
        todo := todo - {vi};
      }
    }

    /** Level-triggered, on every tick: the hold is re-asserted for as long as it lasts, and is not
        acknowledged. */
    method EnforceSafetyHolds(held: map<Name, Condition>, status: Name -> StandbyStatus, standbyOk: Name -> bool,
            now: real)
      requires HoldsValid() && AccessValid() && AttemptsValid() && SeenNow(now) && clock == now
      requires station.RegistryValid() && HoldMap(station.conditions, held)
      modifies this`holdLast, this`holdAttempts, this`holdEscalated, this`holdLog
      ensures LogsGrow()
      ensures HoldsValid() && AttemptsValid()
      ensures Tended(held, holdOverrideUntil, station.vis.Keys, status, now, limits.intervalS, |accessLog|,
        old(Holds()), Holds())
    {
      hide HoldLog.Replay, AccessLog.Replay, HoldInv, AccessInv, AccessLog.Lapsed, HoldMap, IsHold, KeysOwned, Chain;
      hide LeftAlone, Enforced, AllWarranted;
      ReleaseUnheld(held, now);
      NoneDone(held, holdOverrideUntil, station.vis.Keys, status, holdLast, now, limits.intervalS);
      var todo := held.Keys;
      while todo != {}
        invariant todo <= held.Keys && HoldsValid() && AttemptsValid() && old(holdLog) <= holdLog
        invariant Enforced(held, held.Keys - todo, holdOverrideUntil, station.vis.Keys,
          status, holdLast, now, limits.intervalS)
        invariant LeftAlone(held, holdOverrideUntil, station.vis.Keys, now, |accessLog|, old(Holds()), Holds())
        decreases todo
      {
        var vi :| vi in todo;
        ghost var before, done := Holds(), held.Keys - todo;
        VisitHeld(held, vi, status(vi), standbyOk(vi), now);
        if !OutOfReach(held, holdOverrideUntil, station.vis.Keys, now, vi) {
          OneMoreTended(held, holdOverrideUntil, station.vis.Keys, now, |accessLog|, old(Holds()), before, Holds(), vi);
        }
        OneMoreEnforced(held, done, holdOverrideUntil, station.vis.Keys, status, before.last, holdLast, now,
          limits.intervalS, vi);
        todo := todo - {vi};
        assert held.Keys - todo == done + {vi};
      }
      assert held.Keys - todo == held.Keys;
    }

    /** A held instrument's turn: nothing, if its hold is acknowledged or it is not live. */
    method VisitHeld(held: map<Name, Condition>, vi: Name, status: StandbyStatus, standbyOk: bool, now: real)
      requires HoldsValid() && AccessValid() && AttemptsValid() && SeenNow(now) && clock == now
      requires station.RegistryValid() && HoldMap(station.conditions, held) && vi in held
      modifies this`holdLast, this`holdAttempts, this`holdEscalated, this`holdLog
      ensures HoldsValid() && AttemptsValid()
      ensures OutOfReach(held, holdOverrideUntil, station.vis.Keys, now, vi) ==> Holds() == old(Holds())
      ensures holdLast - {vi} == old(holdLast) - {vi} && holdAttempts - {vi} == old(holdAttempts) - {vi}
      ensures old(holdLog) <= holdLog
      ensures forall i :: |old(holdLog)| <= i < |holdLog| ==>
        holdLog[i].vi == vi && (holdLog[i].Attempt? ==>
          holdLog[i].at == now && holdLog[i].acks == |accessLog| && holdLog[i].hold == held[vi].key)
      ensures MustBeStandby(held[vi].key, vi in station.vis, holdOverrideUntil, status, now) ==>
        RecentlyEnforced(holdLast, vi, now, limits.intervalS)
    {
      hide HoldLog.Replay, AccessLog.Replay, HoldInv, AccessInv, AccessLog.Lapsed, HoldMap, IsHold, KeysOwned, Chain;
      hide AllWarranted;
      var overridden := OverrideActive(vi, now);
      HoldIsUnique(station.conditions, held, vi);
      if !overridden && vi in station.vis {
        ClosedIsLapsed(emergencyOverrideUntil, holdOverrideUntil, AccessLog.Replay(accessLog, timeoutS), clock,
          timeoutS, held[vi].key);
        EnforceOne(vi, status, standbyOk, now, held[vi].key);
      }
    }

    // ---- one tick: the monitor cycle ---------------------------------------------------------

    predicate RunActive()
      reads this`state
    {
      Active(state)
    }

    method Breaches(readings: map<Name, real>) returns (names: seq<Name>)
      ensures forall v :: v in names <==> v in Breached(envelope, readings)
    {
      names := [];
      var all := Breached(envelope, readings);
      var todo := all;
      while todo != {}
        invariant todo <= all && forall v :: v in names <==> v in all - todo
        decreases todo
      {
        var v :| v in todo;
        names := names + [v];
        todo := todo - {v};
      }
    }

    /** Poll every instrument and refresh the safety conditions from the tripped flags. */
    method Observe(input: TickInput, now: real)
      requires station.Valid()
      modifies station`errorCounts, station`conditions, station`history
      ensures station.Valid() && OnsetsRight(old(station.conditions), station.conditions, now)
      ensures station.HistoryGrows(now) && station.LastSeen(now)
      ensures Observed(station.conditions, station.vis.Keys, input, run.Tolerated())
      ensures SlicesStand(old(station.conditions), station.conditions)
    {
      station.GetState(input.polls, now);
      ghost var mid := station.conditions;
      var tolerated := if run.IsOperation() then run.procedure.value.tolerated else {};
      station.UpdateConditions(input.tripped, tolerated, now);
      hide *;
      PollThenRefresh(old(station.conditions), mid, station.conditions, now);
      PollThenRefreshObserves(mid, station.conditions, station.vis.Keys, input, tolerated, now);
    }

    /** One verdict over every condition; envelope breaches count only outside EMERGENCY. */
    method Judge(readings: map<Name, real>, now: real) returns (verdict: Verdict)
      requires station.RegistryValid()
      ensures Verdicted(station.conditions, state != Emergency && OutOfBounds(envelope, readings),
                        state, run, verdict)
    {
      var list := station.ConditionList();
      var more: seq<Condition> := [];
      if state != Emergency {
        ReadingsAreChecked(envelope, readings);
        var names := Breaches(readings);
        more := EnvelopeConditions(names, now);
        assert |names| > 0 ==> names[0] in names;
      }
      assert forall c :: c in list ==> c.WellFormed();
      hide KeysOwned, HoldMap, HeldExactly, CriticalExactly, AnyCritical, Breached, OutOfBounds, DependsOn;
      verdict := Decide(list + more, run.Watched(), RunActive());
      forall vi ensures RunActive() && vi in run.Watched() <==> DependsOn(state, run, vi) {
        WatchedIsDependedOn(state, run, vi);
      }
      HeldByRegistry(station.conditions, list, more, verdict.held);
      CriticalByRegistry(station.conditions, list, more, verdict.emergency);
    }

    /** Forget expired acknowledgements, by expiry only. */
    method PruneOverrides(now: real)
      requires AccessValid() && clock == now
      modifies this`holdOverrideUntil
      ensures AccessValid()
      ensures holdOverrideUntil == OpenAt(old(holdOverrideUntil), now)
      ensures forall k :: KeyStillOpen(holdOverrideUntil, k, now) <==> KeyStillOpen(old(holdOverrideUntil), k, now)
    {
      hide AccessLog.Replay, AccessInv;
      var pruned := map k | k in holdOverrideUntil && now < holdOverrideUntil[k] :: holdOverrideUntil[k];
      PruningKeepsWindows(emergencyOverrideUntil, holdOverrideUntil, pruned, AccessLog.Replay(accessLog, timeoutS),
        clock, timeoutS);
      holdOverrideUntil := pruned;
    }

    /** Act on the verdict: EMERGENCY, else enforce the holds and fail a run that depends on a held VI. */
    method ActOn(verdict: Verdict, input: TickInput, now: real) returns (over: bool)
      requires RunValid() && AccessValid() && HoldsValid() && GatesValid() && HwValid() && clock == now
      requires AttemptsValid() && SeenNow(now)
      requires station.RegistryValid() && HoldMap(station.conditions, verdict.held)
      requires verdict.runFailure.Some? ==> state != Emergency
      modifies this`run, this`state, this`pendingGates, this`runLog, this`hw, this`emergencyOverrideUntil,
        this`holdOverrideUntil, this`accessLog, this`holdLast, this`holdAttempts, this`holdEscalated, this`holdLog
      ensures LogsGrow()
      ensures GatesOwn()
      ensures RunValid() && AccessValid() && HoldsValid() && GatesValid() && HwValid() && AttemptsValid()
      ensures over <==> (verdict.emergency != [] && old(state) != Emergency) || verdict.runFailure.Some?
      ensures verdict.emergency != [] && old(state) != Emergency ==>
        && state == Emergency && Holds() == old(Holds()) && holdOverrideUntil == map[]
        && accessLog == old(accessLog) + [AccessLog.EmergencyEntered, AccessLog.StandbyAll]
      ensures over ==> run.procedure.None? && pendingGates == []
      ensures !(verdict.emergency != [] && old(state) != Emergency) ==>
        accessLog == old(accessLog) && emergencyOverrideUntil == old(emergencyOverrideUntil)
        && state == (if verdict.runFailure.Some? then Idle else old(state))
        && holdOverrideUntil == old(holdOverrideUntil)
        && Tended(verdict.held, old(holdOverrideUntil), station.vis.Keys, input.standbyStatus, now, limits.intervalS,
                  |old(accessLog)|, old(Holds()), Holds())
      ensures !over ==> run == old(run) && pendingGates == old(pendingGates) && runLog == old(runLog) && hw == old(hw)
      ensures over ==> hw == old(hw) + [HeldRamps(old(run).RampScope())]
    {
      hide KeysOwned, IsHold, HwValid, Tended, AccessValid, HoldsValid, AttemptsValid, AllWarranted, Chain;
      hide RunLog.Replay, AccessLog.Replay, HoldLog.Replay, RunInv, Abortable, AccessInv, HoldInv, HoldMap, GatesOk;
      hide Holds, Extends, AllLogs;
      RunInvIsAbortable(state, run, |pendingGates|, RunLog.Replay(runLog));
      if verdict.emergency != [] && state != Emergency {
        EnterEmergency();
        return true;
      }
      EnforceSafetyHolds(verdict.held, input.standbyStatus, input.standbyOk, now);
      if verdict.runFailure.Some? {
        ghost var mid := AllLogs();
        TearDown(RunLog.Failed, Idle);
        ExtendsOn(old(AllLogs()), mid, AllLogs());
        return true;
      }
      over := false;
    }

    /** Judge this tick's conditions and act on the verdict. `held` is who was held then. */
    method Enact(input: TickInput, now: real) returns (over: bool, ghost held: map<Name, Condition>)
      requires RunValid() && AccessValid() && HoldsValid() && GatesValid()
      requires HwValid() && AttemptsValid() && clock == now && station.RegistryValid() && SeenNow(now)
      modifies this`run, this`state, this`pendingGates, this`runLog, this`hw, this`emergencyOverrideUntil,
        this`holdOverrideUntil, this`accessLog, this`holdLast, this`holdAttempts, this`holdEscalated, this`holdLog
      ensures LogsGrow()
      ensures GatesOwn()
      ensures RunValid() && AccessValid() && HoldsValid() && GatesValid() && HwValid() && AttemptsValid()
      ensures HoldMap(station.conditions, held)
      // a critical condition, an envelope breach, or a held VI that an active run depends on: nothing else ends a run
      ensures over <==> Cuts(old(state), old(run), station.conditions, held, OutOfBounds(envelope, input.readings))
      ensures if old(state).Emergency? then !over
        else over || (!AnyCritical(station.conditions) && !OutOfBounds(envelope, input.readings))
      ensures over ==> run.procedure.None? && pendingGates == []
      ensures over ==>
        state == if AnyCritical(station.conditions) || OutOfBounds(envelope, input.readings) then Emergency else Idle
      ensures over && state.Emergency? ==>
        accessLog == old(accessLog) + [AccessLog.EmergencyEntered, AccessLog.StandbyAll]
      ensures !(over && state.Emergency?) ==>
        accessLog == old(accessLog) && emergencyOverrideUntil == old(emergencyOverrideUntil)
      ensures !over ==>
        state == old(state) && run == old(run) && pendingGates == old(pendingGates) && runLog == old(runLog)
        && hw == old(hw)
      ensures over ==> hw == old(hw) + [HeldRamps(old(run).RampScope())]
      ensures !(over && state.Emergency?) ==>
        Tended(held, old(holdOverrideUntil), station.vis.Keys, input.standbyStatus, now, limits.intervalS,
          |old(accessLog)|, old(Holds()), Holds())
      ensures holdOverrideUntil == if over && state.Emergency? then map[] else OpenAt(old(holdOverrideUntil), now)
      ensures over && state.Emergency? ==> Holds() == old(Holds())
    {
      hide RunLog.Replay, AccessLog.Replay, HoldLog.Replay, RunInv, AccessInv, HoldInv, HoldMap, AnyCritical;
      hide Breached, OutOfBounds;
      hide Tended, KeyStillOpen, AttemptsValid, Chain, HwValid, KeysOwned;
      var verdict := Judge(input.readings, now);
      held := verdict.held;
      PruneOverrides(now);
      ghost var pruned := holdOverrideUntil;
      over := ActOn(verdict, input, now);
      if !(over && state.Emergency?) {
        TendedUnder(held, old(holdOverrideUntil), pruned, station.vis.Keys, input.standbyStatus, now,
          limits.intervalS, |old(accessLog)|, old(Holds()), Holds());
      }
    }

    /** Poll, judge, act. */
    method MonitorCycle(input: TickInput, now: real) returns (over: bool, ghost held: map<Name, Condition>)
      requires Valid() && clock == now
      modifies station`errorCounts, station`conditions, station`history, this`run, this`state, this`pendingGates,
        this`runLog, this`hw,
        this`emergencyOverrideUntil, this`holdOverrideUntil, this`accessLog,
        this`holdLast, this`holdAttempts, this`holdEscalated, this`holdLog
      ensures LogsGrow()
      ensures GatesOwn()
      ensures Valid() && OnsetsRight(old(station.conditions), station.conditions, now)
      ensures HoldMap(station.conditions, held)
      ensures station.HistoryGrows(now)
      ensures SlicesStand(old(station.conditions), station.conditions)
      ensures Observed(station.conditions, station.vis.Keys, input, old(run).Tolerated())
      // a critical condition, an envelope breach, or a held VI that an active run depends on: nothing else ends a run
      ensures over <==> Cuts(old(state), old(run), station.conditions, held, OutOfBounds(envelope, input.readings))
      ensures if old(state).Emergency? then !over
        else over || (!AnyCritical(station.conditions) && !OutOfBounds(envelope, input.readings))
      ensures over ==> run.procedure.None? && pendingGates == []
      ensures over ==>
        state == if AnyCritical(station.conditions) || OutOfBounds(envelope, input.readings) then Emergency else Idle
      ensures over && state.Emergency? ==>
        accessLog == old(accessLog) + [AccessLog.EmergencyEntered, AccessLog.StandbyAll]
      ensures !(over && state.Emergency?) ==>
        accessLog == old(accessLog) && emergencyOverrideUntil == old(emergencyOverrideUntil)
      ensures !over ==>
        state == old(state) && run == old(run) && pendingGates == old(pendingGates) && runLog == old(runLog)
        && hw == old(hw)
      ensures over ==> hw == old(hw) + [HeldRamps(old(run).RampScope())]
      ensures !(over && state.Emergency?) ==>
        Tended(held, old(holdOverrideUntil), station.vis.Keys, input.standbyStatus, now, limits.intervalS,
          |old(accessLog)|, old(Holds()), Holds())
      ensures holdOverrideUntil == if over && state.Emergency? then map[] else OpenAt(old(holdOverrideUntil), now)
      ensures over && state.Emergency? ==> Holds() == old(Holds())
    {
      hide RunLog.Replay, AccessLog.Replay, HoldLog.Replay, RunInv, AccessInv, HoldInv, HoldMap, AnyCritical;
      hide Breached, OutOfBounds;
      hide Tended, HwValid, AttemptsValid, Chain, KeysOwned, CommAgrees, SessionsAgree, NamesAgree, OnsetsRight;
      hide Observed, Cuts;
      hide SlicesStand;
      Observe(input, now);
      AttemptsStand();
      over, held := Enact(input, now);
    }

    // ---- one tick: queued actions ------------------------------------------------------------

    /** Every queued action gets its verdict now, by the rule that admitted it to the queue. */
    method DrainActions(now: real)
      requires RunValid() && AccessValid() && station.RegistryValid() && station.CommValid() && clock == now
      modifies this`guiActionQueue, this`accessLog
      ensures AccessValid() && guiActionQueue == []
      ensures accessLog == old(accessLog) + Admissions(
        old(guiActionQueue), state, run, station.conditions, now, AccessLog.Replay(old(accessLog), timeoutS), timeoutS)
    {
      hide RunLog.Replay, AccessLog.Replay, AccessLog.Justified, RunInv, AccessInv, KeysOwned, CommAgrees, FactsOf;
      var pending := guiActionQueue;
      guiActionQueue := [];
      ghost var l := AccessLog.Replay(accessLog, timeoutS);
      for i := 0 to |pending|
        invariant AccessValid() && guiActionQueue == [] && AccessLog.Replay(accessLog, timeoutS) == l
        invariant accessLog == old(accessLog)
          + Admissions(pending[..i], state, run, station.conditions, now, l, timeoutS)
      {
        assert pending[..i + 1][..i] == pending[..i];
        var _ := Admit(pending[i], now);
      }
      assert pending[..|pending|] == pending;
    }

    // ---- one tick: ramps and settling --------------------------------------------------------

    /** RAMPING: wait for the run's own ramps, then open gates or serve the settle time. A manual
        ramp just ends. */
    method RampStep(input: TickInput, now: real) returns (raised: bool)
      requires RunValid() && GatesValid() && HwValid() && state.Ramping?
      modifies this`run, this`state, this`pendingGates, this`runLog, this`hw
      ensures LogsGrow()
      ensures GatesOwn()
      ensures GatesValid() && HwValid() && if raised then RunAbortable() else RunValid()
      ensures raised <==>
        input.rampFault || (old(run).procedure.Some? && old(run).Landed(input.ramping) && !input.gatesOk)
      ensures raised ==> state.Ramping?
      ensures hw == old(hw)
        + if old(run).IsOperation() && input.skipRamp then [HeldRamps(Some(old(run).systemVis))] else []
      ensures !raised && state in {InitiationGate, ReadingGate} ==> MadeFrom(pendingGates, input.gates)
      ensures state !in {InitiationGate, ReadingGate} ==> pendingGates == old(pendingGates)
      ensures !raised ==> RampMoved(old(run), old(runLog), state, run, runLog, |pendingGates|, input, now)
    {
      hide RunLog.Replay, HwInv, Owned;
      if run.IsOperation() && input.skipRamp {
        NoteHeldRamps();
      }
      if input.rampFault {
        return true;
      }
      raised := false;
      LandedMeansDone(run, input.ramping);
      if !run.RampsDone(input.ramping) {
        return;
      }
      if run.procedure.None? {
        state := Idle;
      } else if !input.gatesOk {
        raised := true;
      } else if input.gates != [] {
        OpenGates(input.gates);
      } else {
        Settle(now);
      }
    }

    /** Gates replace the settle time entirely. */
    method OpenGates(specs: seq<G.GateSpec>)
      requires RunValid() && state.Ramping? && run.procedure.Some? && specs != []
      modifies this`state, this`pendingGates, this`runLog
      ensures RunValid() && GatesValid() && fresh(pendingGates) && MadeFrom(pendingGates, specs)
      ensures state == if run.firstMeasurement then InitiationGate else ReadingGate
      ensures runLog == old(runLog) + [RunLog.GatesOpened(|specs|)]
    {
      hide RunLog.Replay;
      var gates := MakeGates(specs);
      pendingGates := gates;
      state := if run.firstMeasurement then InitiationGate else ReadingGate;
      NoteRun(RunLog.GatesOpened(|specs|));
    }

    method MakeGates(specs: seq<G.GateSpec>) returns (gates: seq<G.Gate>)
      ensures fresh(gates) && GatesOk(gates) && MadeFrom(gates, specs)
    {
      gates := [];
      for i := 0 to |specs|
        invariant fresh(gates) && GatesOk(gates) && MadeFrom(gates, specs[..i])
      {
        var gate := new G.Gate(specs[i]);
        gates := gates + [gate];
      }
      assert specs[..|specs|] == specs;
    }

    /** Start the wait clock if it is not running yet; read the point once it has run long enough. */
    method Settle(now: real)
      requires RunValid() && state.Ramping? && run.procedure.Some?
      modifies this`run, this`state, this`runLog
      ensures RunValid() && state in {Ramping, Measuring}
      ensures run == old(run).Settling(now)
      ensures state.Measuring? <==> old(run).Waited(now) >= old(run).waitTime
      ensures runLog == old(runLog)
        + (if old(run).waitStarted then [] else [RunLog.WaitStarted(now)])
        + (if state.Measuring? then [RunLog.Settled(now, old(run).waitTime)] else [])
    {
      hide RunLog.Replay;
      if !run.waitStarted {
        run := run.(waitStarted := true, waitStartTime := now);
        NoteRun(RunLog.WaitStarted(now));
      }
      if now - run.waitStartTime >= run.waitTime {
        NoteRun(RunLog.Settled(now, run.waitTime));
        run := run.(waitStarted := false, firstMeasurement := false);
        state := Measuring;
      }
    }

    /** A gate state: an operation that was asked to finish abandons its gates; otherwise the gates
        are polled, and the point is read when none is left. */
    method GateStep(input: TickInput, now: real) returns (raised: bool)
      requires RunValid() && GatesValid() && HwValid() && state in {InitiationGate, ReadingGate}
      modifies this`run, this`state, this`pendingGates, this`runLog, pendingGates
      ensures LogsGrow()
      ensures GatesOwn()
      ensures GatesValid() && HwValid() && if raised then RunAbortable() else RunValid()
      ensures raised ==> state == old(state)
      ensures raised <==> (
        input.rampFault || (old(GatesRaise(input)) && !(old(run).IsOperation() && input.finishRequested)))
      ensures !raised ==> GateMoved(old(state), old(run), old(runLog), state, run, runLog, |pendingGates|, input)
      ensures !raised ==> GatesMoved(old(Standing()), input, now)
    {
      hide RunInv, Abortable, HwInv, Owned, RunLog.Replay, Waiting, Passes, WillRaise, Polled, PollsOf, GatesRaise;
      RunInvIsAbortable(state, run, |pendingGates|, RunLog.Replay(runLog));
      if input.rampFault {
        return true;
      }
      if run.IsOperation() && input.finishRequested {
        AbandonGates();
        return false;
      }
      raised := PassGates(input, now);
    }

    /** Poll the gates; the point is read when none is left. */
    method PassGates(input: TickInput, now: real) returns (raised: bool)
      requires RunValid() && GatesValid() && state in {InitiationGate, ReadingGate}
      modifies this`run, this`state, this`pendingGates, this`runLog, pendingGates
      ensures LogsGrow()
      ensures GatesOwn()
      ensures GatesValid() && if raised then RunAbortable() else RunValid()
      ensures run.procedure == old(run).procedure && run.systemVis == old(run).systemVis
      ensures raised == old(GatesRaise(input)) && (raised ==> state == old(state))
      ensures !raised ==> state == if pendingGates == [] then Measuring else old(state)
      ensures !raised ==> run == if pendingGates == [] then old(run).(firstMeasurement := false) else old(run)
      ensures !raised ==>
        GatesOk(old(pendingGates)) && Polled(old(pendingGates), old(PollsOf(pendingGates)), input, now)
      ensures !raised ==> pendingGates == Waiting(old(pendingGates), now)
      ensures !raised ==> runLog == old(runLog) + Passes(old(pendingGates), now)
    {
      hide RunInv, Abortable, GatePhase, RunLog.Replay, Waiting, Passes, WillRaise, Polled, PollsOf;
      hide G.HeldFor, G.Streak;
      GatesTaken(state, run, |pendingGates|, RunLog.Replay(runLog));
      raised := StepGates(input, now);
      if !raised && pendingGates == [] {
        run := run.(firstMeasurement := false);
        state := Measuring;
      }
    }

    method AbandonGates()
      requires RunValid() && state in {InitiationGate, ReadingGate} && run.IsOperation()
      modifies this`state, this`pendingGates, this`runLog
      ensures RunValid() && state.Standby? && pendingGates == [] && runLog == old(runLog) + [RunLog.GatesAbandoned]
    {
      hide RunLog.Replay;
      pendingGates := [];
      state := Standby;
      NoteRun(RunLog.GatesAbandoned);
    }

    ghost function Standing(): Position
      reads this`run, this`state, this`pendingGates, this`runLog, this`hw, pendingGates
    {
      Position(state, run, runLog, pendingGates, PollsOf(pendingGates), hw)
    }

    ghost predicate GatesRaise(input: TickInput)
      reads this`pendingGates, pendingGates
    {
      exists i :: 0 <= i < |pendingGates| && WillRaise(pendingGates[i], input, i)
    }

    /** A gate tick that runs through polls every gate once, keeps exactly those that still wait, and
        puts each of the others on record; abandoned gates are all dropped. */
    ghost predicate GatesMoved(was: Position, input: TickInput, now: real)
      reads this`pendingGates, this`runLog, was.gates
    {
      if was.run.IsOperation() && input.finishRequested then pendingGates == []
      else
        && GatesOk(was.gates) && Polled(was.gates, was.polls, input, now)
        && pendingGates == Waiting(was.gates, now) && runLog == was.log + Passes(was.gates, now)
    }

    /** Poll one gate; a satisfied gate goes on record with what it was satisfied by. */
    method StepGate(gate: G.Gate, actionOk: bool, answer: G.Answer, now: real, ghost left: nat)
      returns (outcome: G.Outcome)
      requires gate.Valid() && RunLog.Replay(runLog).Ledger? && !RunLog.Replay(runLog).paused
      requires left > 0 && RunLog.Replay(runLog).phase == GatePhase(left)
      modifies gate, this`runLog
      ensures gate.Valid()
      ensures outcome.Raised? <==>
        (!old(gate.actionDone) && gate.hasAction && !actionOk) || (gate.hasCheck && answer.Raises?)
      ensures outcome.Waiting? ==> gate.StillWaiting(now)
      ensures outcome.Satisfied? ==> !gate.StillWaiting(now)
      ensures !outcome.Raised? ==>
        gate.polls == old(gate.polls) + if gate.hasCheck then [G.Poll(now, answer.Holding?)] else []
      ensures RunLog.Replay(runLog) ==
        RunLog.Replay(old(runLog)).(phase := GatePhase(if outcome.Satisfied? then left - 1 else left))
      ensures runLog == old(runLog) + if outcome.Satisfied? then [PassOf(gate, now)] else []
    {
      hide RunLog.Replay, G.HeldFor, G.Streak;
      outcome := gate.Step(now, actionOk, answer);
      if outcome.Satisfied? {
        NoteRun(PassOf(gate, now));
      }
    }

    /** The next pending gate after those in `done`. */
    method StepNext(gate: G.Gate, actionOk: bool, answer: G.Answer, now: real, ghost left: nat, ghost done: seq<G.Gate>)
      returns (outcome: G.Outcome, ghost passed: seq<RunLog.Event>)
      requires gate.Valid() && RunLog.Replay(runLog).Ledger? && !RunLog.Replay(runLog).paused && gate !in done
      requires left > 0 && RunLog.Replay(runLog).phase == GatePhase(left)
      modifies gate, this`runLog
      ensures gate.Valid()
      ensures outcome.Raised? <==>
        (!old(gate.actionDone) && gate.hasAction && !actionOk) || (gate.hasCheck && answer.Raises?)
      ensures RunLog.Replay(runLog) ==
        RunLog.Replay(old(runLog)).(phase := GatePhase(if outcome.Satisfied? then left - 1 else left))
      ensures runLog == old(runLog) + passed
      ensures !outcome.Raised? ==>
        && gate.polls == old(gate.polls) + (if gate.hasCheck then [G.Poll(now, answer.Holding?)] else [])
        && Waiting(done + [gate], now) == old(Waiting(done, now)) + (if outcome.Waiting? then [gate] else [])
        && Passes(done + [gate], now) == old(Passes(done, now)) + passed
    {
      hide RunLog.Replay, G.HeldFor, G.Streak, G.Gate.Valid, G.Gate.StillWaiting, PassOf;
      outcome := StepGate(gate, actionOk, answer, now, left);
      passed := if outcome.Satisfied? then [PassOf(gate, now)] else [];
      assert (done + [gate])[..|done|] == done;
    }

    /** Poll every pending gate in turn and keep those that are not satisfied. */
    method StepGates(input: TickInput, now: real) returns (raised: bool)
      requires GatesValid() && RunLog.Replay(runLog).Ledger? && !RunLog.Replay(runLog).paused
      requires pendingGates != [] && RunLog.Replay(runLog).phase == GatePhase(|pendingGates|)
      modifies this`pendingGates, this`runLog, pendingGates
      ensures LogsGrow()
      ensures GatesValid() && forall g :: g in pendingGates ==> g in old(pendingGates)
      ensures exists left: nat :: (
        && RunLog.Replay(runLog) == RunLog.Replay(old(runLog)).(phase := GatePhase(left))
        && (!raised ==> left == |pendingGates|))
      ensures raised == old(GatesRaise(input))
      ensures !raised ==>
        GatesOk(old(pendingGates)) && Polled(old(pendingGates), old(PollsOf(pendingGates)), input, now)
      ensures !raised ==> pendingGates == Waiting(old(pendingGates), now)
      ensures !raised ==> runLog == old(runLog) + Passes(old(pendingGates), now)
    {
      hide RunLog.Replay, RunLog.Accept, G.Gate.Valid, Waiting, Passes, PollsOf, Polled, GatePhase, WillRaise;
      var kept;
      raised, kept := PollGates(pendingGates, input, now);
      if !raised {
        WaitingOk(pendingGates, now);
        pendingGates := kept;
      }
    }

    method PollGates(gates: seq<G.Gate>, input: TickInput, now: real) returns (raised: bool, kept: seq<G.Gate>)
      requires GatesOk(gates) && RunLog.Replay(runLog).Ledger? && !RunLog.Replay(runLog).paused
      requires gates != [] && RunLog.Replay(runLog).phase == GatePhase(|gates|)
      modifies this`runLog, gates
      ensures GatesOk(gates) && old(runLog) <= runLog
      ensures exists left: nat :: (
        && RunLog.Replay(runLog) == RunLog.Replay(old(runLog)).(phase := GatePhase(left))
        && (!raised ==> left == |kept|))
      ensures raised <==> exists i :: 0 <= i < |gates| && old(WillRaise(gates[i], input, i))
      ensures !raised ==>
        && Polled(gates, old(PollsOf(gates)), input, now) && kept == Waiting(gates, now)
        && runLog == old(runLog) + Passes(gates, now)
    {
      hide RunLog.Replay, RunLog.Accept, G.Gate.Valid, Waiting, Passes, PollsOf, Polled, GatePhase;
      raised, kept := false, [];
      ghost var start, polls := RunLog.Replay(runLog), PollsOf(gates);
      NoGates(input, now);
      for i := 0 to |gates|
        invariant GatesOk(gates)
        invariant kept == Waiting(gates[..i], now) && runLog == old(runLog) + Passes(gates[..i], now)
        invariant forall k :: i <= k < |gates| ==> gates[k].polls == polls[k]
        invariant forall k :: i <= k < |gates| ==> gates[k].actionDone == old(gates[k].actionDone)
        invariant forall k :: 0 <= k < i ==> !old(WillRaise(gates[k], input, k))
        invariant Polled(gates[..i], polls[..i], input, now)
        invariant |kept| <= i && RunLog.Replay(runLog) == start.(phase := GatePhase(|kept| + |gates| - i))
      {
        var gate := gates[i];
        assert gates[..i + 1] == gates[..i] + [gate];
        ghost var passes := Passes(gates[..i], now);
        ghost var passed;
        var outcome;
        outcome, passed := StepNext(gate, input.gateActionOk(i), input.gateAnswer(i), now, |kept| + |gates| - i,
          gates[..i]);
        if outcome.Raised? {
          assert old(WillRaise(gates[i], input, i));
          return true, kept;
        }
        assert old(runLog) + passes + passed == old(runLog) + (passes + passed);
        PolledNext(gates[..i], gate, polls[..i], polls[i], input, now);
        assert polls[..i + 1] == polls[..i] + [polls[i]];
        if outcome.Waiting? {
          kept := kept + [gate];
        }
      }
      assert gates[..|gates|] == gates && polls[..|polls|] == polls;
    }

    // ---- one tick: measuring, sweeping, parking ----------------------------------------------

    /** One measure call. Reporting the progress afterwards may raise too; then the point has been read
        all the same. */
    method MeasureStep(input: TickInput) returns (raised: bool)
      requires RunValid() && state.Measuring?
      modifies this`state, this`runLog
      ensures LogsGrow()
      ensures if raised then RunAbortable() else RunValid()
      ensures raised <==> input.rampFault || !input.measureOk || !input.progressOk
      ensures state == if raised then Measuring else Sweeping
      ensures runLog == old(runLog) + if input.rampFault then [] else [RunLog.Measure(input.measureOk)]
    {
      hide RunLog.Replay;
      if input.rampFault {
        return true;
      }
      NoteRun(RunLog.Measure(input.measureOk));
      if !input.measureOk || !input.progressOk {
        return true;
      }
      state := Sweeping;
      raised := false;
    }

    /** The pause boundary, else the next point, else the end of the sweep. */
    method SweepStep(input: TickInput, now: real) returns (raised: bool)
      requires RunValid() && HwValid() && state.Sweeping?
      modifies this`run, this`state, this`runLog, this`hw
      ensures LogsGrow()
      ensures HwValid() && if raised then RunAbortable() else RunValid()
      ensures raised ==> state == Sweeping
      ensures raised <==>
        input.rampFault || (!old(run).pauseRequested && StepCallRaises(StepFor(old(run), input), envelope))
      ensures !raised ==> StepMoved(old(run), old(runLog), state, run, runLog, input, now)
      ensures !raised ==> HwMoved(Sweeping, old(run), old(hw), hw, envelope, input)
      ensures raised && !input.rampFault ==> runLog == old(runLog) + [RunLog.Step(AnswerOf(StepFor(old(run), input)))]
    {
      hide RunLog.Replay, RunLog.Accept, RunInv, Abortable, HwInv, Owned;
      RunInvIsAbortable(state, run, |pendingGates|, RunLog.Replay(runLog));
      InFlight(state, run, |pendingGates|, RunLog.Replay(runLog));
      if input.rampFault {
        return true;
      }
      raised := false;
      if run.pauseRequested {
        EnterPaused(now);
        return;
      }
      SweepEnds(run, |pendingGates|, RunLog.Replay(runLog));
      var step := if run.IsOperation() && input.finishRequested then NoMorePoints else input.step;
      match step
      case StepRaises =>
        NoteRun(RunLog.Step(RunLog.Raised));
        raised := true;
      case NoMorePoints =>
        NoteRun(RunLog.Step(RunLog.NoMore));
        state := Standby;
      case NextPoint(targets, waitS, dispatchOk) =>
        raised := TakeStep(targets, waitS, dispatchOk);
    }

    /** The run now owns the ramps of the step's VIs too. */
    method TakeStep(targets: Targets, waitS: real, dispatchOk: bool) returns (raised: bool)
      requires RunValid() && HwValid() && state.Sweeping? && !run.pauseRequested
      modifies this`run, this`state, this`runLog, this`hw
      ensures HwValid() && if raised then RunAbortable() else RunValid()
      ensures runLog == old(runLog) + [RunLog.Step(RunLog.More)]
      ensures raised <==> !(Allowed(envelope, targets) && dispatchOk)
      ensures state == if raised then Sweeping else Ramping
      ensures !raised ==> run == old(run).Stepped(targets, waitS)
      ensures !raised ==> hw == old(hw) + [Commanded(Stepping, targets, envelope)]
      ensures old(hw) <= hw
    {
      hide RunLog.Replay, RunLog.Accept, RunInv, Abortable, HwInv, Owned;
      ghost var was, before := run, RunLog.Replay(runLog);
      InFlight(state, was, |pendingGates|, before);
      NoteRun(RunLog.Step(RunLog.More));
      run := run.(systemVis := run.systemVis + targets.Keys);
      var ok := DispatchTargets(Stepping, targets, dispatchOk);
      StepTaken(was, run, |pendingGates|, before);
      if !ok {
        return true;
      }
      run := run.(waitTime := waitS);
      StepTaken(was, run, |pendingGates|, before);
      state := Ramping;
      raised := false;
    }

    /** standby() is called once, after the run's ramps are done; the run ends when the ramps that
        standby() started are done too. An operation parks and ends in a single tick. */
    method StandbyStep(input: TickInput, now: real) returns (raised: bool)
      requires station.Valid() && RunValid() && GatesValid() && HwValid() && state.Standby?
      modifies station`errorCounts, station`conditions, station`history, this`run, this`state, this`pendingGates,
        this`runLog, this`hw,
        this`monitoring, this`procedureQueue, this`operationQueue
      ensures LogsGrow()
      ensures GatesOwn()
      ensures station.Valid() && GatesValid() && HwValid() && if raised then RunAbortable() else RunValid()
      ensures AnyCritical(station.conditions) == old(AnyCritical(station.conditions))
      ensures station.HistoryGrows(now)
      ensures raised <==> ParkCallRaises(old(run), envelope, input)
      ensures raised ==> state.Standby?
      ensures !raised && AnyCritical(station.conditions) && old(run).IsOperation() ==> state.Emergency?
      ensures !old(run).IsOperation() ==> !state.Emergency? && unchanged(station)
      ensures !raised ==> ParkMoved(old(run), old(runLog), state, run, runLog, input)
      ensures !raised ==> HwMoved(State.Standby, old(run), old(hw), hw, envelope, input)
    {
      hide HwInv, Owned, RunLog.Replay, AnyCritical;
      LandedMeansDone(run, input.ramping);
      if run.IsOperation() {
        raised := StandbyOperationImmediate(input, now);
      } else if input.rampFault {
        raised := true;
      } else if !run.RampsDone(input.ramping) {
        raised := false;
      } else if !run.standbyDispatched {
        raised := Park(input.park);
      } else {
        FinishRun(input.setup);
        raised := false;
      }
    }

    /** Call standby() and send what it returns. */
    method Park(park: ParkAnswer) returns (raised: bool)
      requires RunValid() && HwValid() && state.Standby? && !run.standbyDispatched && !run.IsOperation()
      modifies this`run, this`runLog, this`hw
      ensures LogsGrow()
      ensures hw == old(hw) + if park.Parks? then [PlanOf(Parking, park.targets)] else []
      ensures HwValid() && if raised then RunAbortable() else RunValid()
      ensures runLog == old(runLog) + [RunLog.Standby]
      ensures !raised <==> Sent(park, envelope)
      ensures run.standbyDispatched == !raised
      ensures !raised ==> run == old(run).(standbyDispatched := true, lastTargets := park.targets)
    {
      hide RunLog.Replay, RunLog.Accept, RunInv, Abortable, HwInv, Owned;
      ghost var was, before := run, RunLog.Replay(runLog);
      InFlight(state, was, |pendingGates|, before);
      NoteRun(RunLog.Standby);
      StandbyTaken(was, run, |pendingGates|, before);
      if park.ParkRaises? {
        return true;
      }
      var ok := DispatchTargets(Parking, park.targets, park.dispatchOk);
      StandbyTaken(was, run, |pendingGates|, before);
      if !ok || !park.commandsOk {
        return true;
      }
      run := run.(standbyDispatched := true);
      StandbyTaken(was, run, |pendingGates|, before);
      raised := false;
    }

    method ParkOperation(park: ParkAnswer) returns (raised: bool)
      requires RunValid() && HwValid() && state.Standby? && run.IsOperation()
      modifies this`run, this`runLog, this`hw
      ensures LogsGrow()
      ensures hw == old(hw) + if park.Parks? then [PlanOf(Parking, park.targets)] else []
      ensures HwValid() && RunAbortable()
      ensures RunLog.Replay(runLog).Ledger? && RunLog.Replay(runLog).phase == RunLog.Parked
      ensures !RunLog.Replay(runLog).paused
      ensures run == old(run).(lastTargets := run.lastTargets) && runLog == old(runLog) + [RunLog.Standby]
      ensures raised <==> park.Parks? && !Sent(park, envelope)
    {
      hide RunLog.Replay, RunLog.Accept, RunInv, Abortable, HwInv, Owned;
      ghost var was, before := run, RunLog.Replay(runLog);
      InFlight(state, was, |pendingGates|, before);
      NoteRun(RunLog.Standby);
      raised := false;
      if park.Parks? {
        var ok := DispatchTargets(Parking, park.targets, park.dispatchOk);
        raised := !ok || !park.commandsOk;
      }
      StandbyTaken(was, run, |pendingGates|, before);
    }

    /** An operation that raises in standby() still finishes; only what its plan sends may raise. */
    method StandbyOperationImmediate(input: TickInput, now: real) returns (raised: bool)
      requires station.Valid() && RunValid() && GatesValid() && HwValid() && state.Standby? && run.IsOperation()
      modifies station`errorCounts, station`conditions, station`history, this`run, this`state, this`pendingGates,
        this`runLog, this`hw,
        this`monitoring, this`procedureQueue, this`operationQueue
      ensures LogsGrow()
      ensures GatesOwn()
      ensures station.Valid() && GatesValid() && HwValid() && if raised then RunAbortable() else RunValid()
      ensures AnyCritical(station.conditions) == old(AnyCritical(station.conditions))
      ensures station.HistoryGrows(now)
      ensures raised <==> input.park.Parks? && !Sent(input.park, envelope)
      ensures raised ==> state.Standby?
      ensures !raised ==> old(hw) + Parked(old(run), envelope, input) <= hw
      ensures !raised ==> old(runLog) + [RunLog.Standby, RunLog.Finished(RunLog.Done)] <= runLog
      ensures !raised ==> state in {Idle, Initiating, Error, Emergency}
      ensures !raised && (AnyCritical(station.conditions) || old(run).fromEmergency) ==> state.Emergency?
    {
      hide RunLog.Replay, RunInv, Abortable, HwInv, Owned, AnyCritical, GatesOk, Station.Valid, Remembers;
      InFlight(state, run, |pendingGates|, RunLog.Replay(runLog));
      RemembersNothing(station.history, now);
      raised := ParkOperation(input.park);
      if !raised {
        FinishOperation(input, now);
      }
    }

    method FinishOperation(input: TickInput, now: real)
      requires RunLog.Replay(runLog).Ledger? && RunLog.Replay(runLog).phase == RunLog.Parked
      requires !RunLog.Replay(runLog).paused && station.Valid() && monitoring
      requires run.procedure.Some? && run.manifestOpen && run.IsOperation() && GatesValid() && HwValid()
      modifies station`errorCounts, station`conditions, station`history, this`run, this`state, this`pendingGates,
        this`runLog, this`hw, this`monitoring, this`procedureQueue, this`operationQueue
      ensures LogsGrow() && GatesOwn() && station.HistoryGrows(now)
      ensures station.Valid() && RunValid() && GatesValid() && HwValid()
      ensures AnyCritical(station.conditions) == old(AnyCritical(station.conditions))
      ensures old(runLog) + [RunLog.Finished(RunLog.Done)] <= runLog && state in {Idle, Initiating, Error, Emergency}
      ensures state.Emergency? <==> old(run).fromEmergency || AnyCritical(station.conditions)
    {
      hide RunLog.Replay, RunInv, HwInv, Owned, AnyCritical, GatesOk, Station.Valid, Remembers, Extends;
      Repoll(input.pollsAfterPark, now);
      FinishRun(input.setup);
    }

    /** Refresh the snapshot before an operation's final checks. */
    method Repoll(polls: Name -> bool, now: real)
      requires station.Valid()
      modifies station`errorCounts, station`conditions, station`history
      ensures station.Valid() && AnyCritical(station.conditions) == old(AnyCritical(station.conditions))
      ensures station.HistoryGrows(now)
    {
      ghost var r, counts := station.conditions, station.errorCounts;
      station.GetState(polls, now);
      PollingLeavesCriticals(r, station.conditions, station.vis.Keys, counts, station.errorCounts, station.maxErrors,
        polls);
    }

    /** Report the run done and go home: EMERGENCY for an operation that came from there or that ends
        under a critical condition, else IDLE and the next run in the queue. */
    method FinishRun(s: Setup)
      requires RunLog.Replay(runLog).Ledger? && RunLog.Replay(runLog).phase == RunLog.Parked
      requires !RunLog.Replay(runLog).paused
      requires run.procedure.Some? && run.manifestOpen && GatesValid() && HwValid() && monitoring
      modifies this`run, this`state, this`pendingGates, this`runLog, this`hw, this`monitoring,
        this`procedureQueue, this`operationQueue
      ensures LogsGrow()
      ensures GatesOwn()
      ensures RunValid() && GatesValid() && HwValid()
      ensures old(runLog) + [RunLog.Finished(RunLog.Done)] <= runLog
      ensures state.Emergency? <==>
        old(run).IsOperation() && (old(run).fromEmergency || AnyCritical(station.conditions))
      ensures state.Emergency? ==> runLog == old(runLog) + [RunLog.Finished(RunLog.Done)]
      ensures !state.Emergency? ==> Dequeued(old(procedureQueue), old(operationQueue), s)
      ensures state.Emergency? ==> !run.fromEmergency
    {
      hide RunLog.Replay, RunLog.Accept, RunInv, AnyCritical, HwInv, Owned, GatesOk;
      ghost var before := RunLog.Replay(runLog);
      var toEmergency := run.IsOperation() && (run.fromEmergency || AnyCritical(station.conditions));
      EmitRunFinished(RunLog.Done);
      run := run.(procedure := None, claims := None, systemVis := {}, standbyDispatched := false,
                  pauseRequested := false, fromEmergency := false);
      state := if toEmergency then Emergency else Idle;
      RunDone(run, state, |pendingGates|, before);
      if !toEmergency {
        RunQueue(s);
      }
    }

    // ---- one tick ----------------------------------------------------------------------------

    /** The one transition of a tick, the gates included. */
    ghost predicate Transition(was: Position, input: TickInput, now: real)
      reads this`run, this`state, this`pendingGates, this`runLog, this`hw, this`envelope, was.gates, pendingGates
    {
      && MovedOn(was.state, was.run, was.log, state, run, runLog, |pendingGates|, input, now)
      && HwMoved(was.state, was.run, was.hw, hw, envelope, input)
      && (was.state in {InitiationGate, ReadingGate} ==> GatesMoved(was, input, now))
      && (was.state.Ramping? && state in {InitiationGate, ReadingGate} ==> MadeFrom(pendingGates, input.gates))
      && (was.state !in {InitiationGate, ReadingGate, Standby} && state !in {InitiationGate, ReadingGate} ==>
            pendingGates == was.gates)
    }

    method BeginRamping()
      requires RunValid() && state.Initiating?
      modifies this`state
      ensures RunValid() && state.Ramping?
    {
      hide RunLog.Replay;
      state := Ramping;
    }

    /** The branch of the current state. PAUSED, ERROR and EMERGENCY wait for a call. */
    method StepMachine(input: TickInput, now: real) returns (raised: bool)
      requires station.Valid() && RunValid() && GatesValid() && HwValid()
      modifies station`errorCounts, station`conditions, station`history, this`run, this`state, this`pendingGates,
        this`runLog, this`hw,
        this`monitoring, this`procedureQueue, this`operationQueue, pendingGates
      ensures LogsGrow()
      ensures GatesOwn()
      ensures station.Valid() && GatesValid() && HwValid()
      ensures if raised then RunAbortable() && !state.Emergency? else RunValid()
      ensures AnyCritical(station.conditions) == old(AnyCritical(station.conditions))
      ensures old(state).Emergency? ==> state.Emergency?
      ensures !old(run).IsOperation() ==> unchanged(station)
      ensures station.HistoryGrows(now)
      ensures old(state).Idle? ==>
        !raised && state.Idle? && run == old(run) && runLog == old(runLog) && pendingGates == old(pendingGates)
        && hw == old(hw)
      ensures old(state) != Idle && raised ==> Raises(old(state), old(run), envelope, input, old(GatesRaise(input)))
      ensures old(state) != Idle && !raised ==> Transition(old(Standing()), input, now)
      ensures !raised && old(state) != Idle ==>
        !Raises(old(state), old(run), envelope, input, old(GatesRaise(input)))
    {
      hide Extends, Remembers;
      hide RunLog.Replay, AnyCritical, HwValid, RampMoved, GateMoved, StepMoved, ParkMoved, GatesMoved, MadeFrom;
      hide SentOn, Parked;
      hide GatesOk, PhaseFits, ClockFits, PollsOf;
      hide KeysOwned, CommAgrees, SessionsAgree, NamesAgree, Chain;
      NothingAdded(AllLogs());
      RemembersNothing(station.history, now);
      raised := false;
      match state
      case Initiating => BeginRamping();
      case Ramping => raised := RampStep(input, now);
      case InitiationGate => raised := GateStep(input, now);
      case ReadingGate => raised := GateStep(input, now);
      case Measuring => raised := MeasureStep(input);
      case Sweeping => raised := SweepStep(input, now);
      case Standby => raised := StandbyStep(input, now);
      case _ =>
    }

    ghost function Before(): Snapshot
      reads this`state, this`run, this`monitoring, this`holdOverrideUntil, this`guiActionQueue, this`accessLog,
        this`holdLast, this`holdAttempts, this`holdLog, station`conditions
    {
      Snapshot(state, run, monitoring, holdOverrideUntil, guiActionQueue, accessLog, station.conditions, Holds())
    }

    /** The verdict of a tick: `seen` is the registry it was reached on, `held` who was held by it, and
        every held VI was looked after, unless the verdict was EMERGENCY. */
    ghost predicate Judged(was: Snapshot, cut: bool, seen: Registry, held: map<Name, Condition>, input: TickInput,
            now: real)
      reads this`holdLast, this`holdAttempts, this`holdLog, this`holdOverrideUntil, this`envelope, station`vis
    {
      && (was.monitoring ==>
            && Observed(seen, station.vis.Keys, input, was.run.Tolerated()) && HoldMap(seen, held)
            && OnsetsRight(was.conditions, seen, now) && SlicesStand(was.conditions, seen))
      && (!was.monitoring ==> seen == was.conditions)
      && (was.monitoring && !(cut && ToEmergency(seen, input)) ==>
            Tended(held, was.overrides, station.vis.Keys, input.standbyStatus, now, limits.intervalS,
              |was.accessLog|, was.holds, Holds()))
      && (!was.monitoring || (cut && ToEmergency(seen, input)) ==> Holds() == was.holds)
      && holdOverrideUntil == (if !was.monitoring then was.overrides
                               else if cut && ToEmergency(seen, input) then map[] else OpenAt(was.overrides, now))
    }

    /** A critical condition, or an envelope breach. */
    ghost predicate ToEmergency(seen: Registry, input: TickInput)
      reads this`envelope
    {
      AnyCritical(seen) || OutOfBounds(envelope, input.readings)
    }

    /** The verdict ends the run exactly when it must; else every queued action is decided on the facts
        of this moment. */
    ghost predicate Decided(was: Snapshot, course: Course, seen: Registry, held: map<Name, Condition>, input: TickInput,
            now: real)
      reads this`accessLog, this`guiActionQueue, this`envelope
    {
      && (course.Cut? <==>
            was.monitoring && Cuts(was.state, was.run, seen, held, OutOfBounds(envelope, input.readings)))
      && guiActionQueue == (if course.Cut? then was.queue else [])
      && (course.Cut? ==>
            accessLog == was.accessLog
              + if ToEmergency(seen, input) then [AccessLog.EmergencyEntered, AccessLog.StandbyAll] else [])
      && (!course.Cut? ==>
            accessLog == was.accessLog
              + Admissions(was.queue, was.state, was.run, seen, now,
                  AccessLog.Replay(was.accessLog, timeoutS), timeoutS))
    }

    /** Everything a tick does, up to the first exception. */
    method TickBody(input: TickInput, now: real)
      returns (ghost course: Course, ghost seen: Registry, ghost held: map<Name, Condition>, raised: bool)
      requires Valid() && clock == now
      modifies station`errorCounts, station`conditions, station`history, this, pendingGates
      ensures LogsGrow() && GatesOwn() && station.HistoryGrows(now) && raised == course.Raised?
      ensures clock == now && envelope == old(envelope)
      ensures station.Valid() && AccessValid() && HoldsValid() && GatesValid() && HwValid() && AttemptsValid()
      ensures if raised then RunAbortable() && !state.Emergency? else RunValid()
      ensures old(state).Emergency? ==> state.Emergency? && emergencyOverrideUntil == old(emergencyOverrideUntil)
      ensures AnyCritical(station.conditions) == AnyCritical(seen)
      ensures !course.Cut? && old(monitoring) && !old(state).Emergency? ==> !ToEmergency(seen, input)
      ensures !old(run.IsOperation()) ==> station.conditions == seen
      ensures Judged(old(Before()), course.Cut?, seen, held, input, now)
      ensures Decided(old(Before()), course, seen, held, input, now)
      ensures course.Cut? ==> run.procedure.None? && state == if ToEmergency(seen, input) then Emergency else Idle
      ensures course.Cut? ==> pendingGates == [] && monitoring == old(monitoring)
      ensures raised ==> Raises(old(state), old(run), envelope, input, old(GatesRaise(input)))
      ensures course.Completed? ==> Transition(old(Standing()), input, now)
      ensures course.Completed? ==>
        !Raises(old(state), old(run), envelope, input, old(GatesRaise(input)))
    {
      hide RunLog.Replay, AccessLog.Replay, HoldLog.Replay, RunInv, Abortable, AccessInv, HoldInv, HwValid;
      hide AttemptsValid, Raises;
      hide GatesOk, KeysOwned, CommAgrees, SessionsAgree, NamesAgree, Chain, Judged, Cuts, Admissions, Transition;
      hide AnyCritical, Breached, OutOfBounds, Extends, Remembers, Station.Valid, GatesValid, AccessValid, HoldsValid;
      hide PollsOf, ToEmergency, Standing, GatesRaise, AllLogs, Holds;
      hide RunValid, RunAbortable;
      var over;
      over, seen, held := Watch(input, now);
      if over {
        return Cut, seen, held, false;
      }
      ghost var mid, midHistory := AllLogs(), station.history;
      raised := ActAndStep(input, now);
      LogsLast(mid, AllLogs());
      ExtendsOn(old(AllLogs()), mid, AllLogs());
      RemembersOn(old(station.history), midHistory, station.history, now);
      course := if raised then Raised else Completed;
    }

    /** The monitor cycle, while monitoring is on. */
    method Watch(input: TickInput, now: real)
      returns (over: bool, ghost seen: Registry, ghost held: map<Name, Condition>)
      requires Valid() && clock == now
      modifies station`errorCounts, station`conditions, station`history, this`run, this`state, this`pendingGates,
        this`runLog,
        this`hw, this`emergencyOverrideUntil, this`holdOverrideUntil, this`accessLog,
        this`holdLast, this`holdAttempts, this`holdEscalated, this`holdLog
      ensures LogsGrow() && GatesOwn() && station.HistoryGrows(now) && Valid() && station.conditions == seen
      ensures Judged(old(Before()), over, seen, held, input, now)
      ensures over <==>
        old(monitoring) && Cuts(old(state), old(run), seen, held, OutOfBounds(envelope, input.readings))
      ensures over ==> pendingGates == []
      ensures over ==>
        !old(state).Emergency? && run.procedure.None? && state == if ToEmergency(seen, input) then Emergency else Idle
      ensures !over ==>
        state == old(state) && run == old(run) && pendingGates == old(pendingGates) && runLog == old(runLog)
        && hw == old(hw)
      ensures over ==> hw == old(hw) + [HeldRamps(old(run).RampScope())]
      ensures !over && old(monitoring) && !old(state).Emergency? ==> !ToEmergency(seen, input)
      ensures !over ==> emergencyOverrideUntil == old(emergencyOverrideUntil) && accessLog == old(accessLog)
      ensures over ==>
        accessLog == old(accessLog)
        + if ToEmergency(seen, input) then [AccessLog.EmergencyEntered, AccessLog.StandbyAll] else []
    {
      hide RunLog.Replay, AccessLog.Replay, HoldLog.Replay, RunInv, Abortable, AccessInv, HoldInv, HwValid, GatesOk;
      hide Chain;
      hide KeysOwned, CommAgrees, SessionsAgree, NamesAgree, Observed, HoldMap, Tended, Cuts, OnsetsRight;
      hide AttemptsValid;
      hide SlicesStand;
      hide AnyCritical, Breached, OutOfBounds;
      over, seen, held := false, station.conditions, map[];
      RemembersNothing(station.history, now);
      if monitoring {
        over, held := MonitorCycle(input, now);
        seen := station.conditions;
      }
    }

    /** The rest of a tick: queued actions, then the state machine. */
    method ActAndStep(input: TickInput, now: real) returns (raised: bool)
      requires station.Valid() && RunValid() && AccessValid() && GatesValid() && HwValid() && clock == now
      requires HoldsValid() && AttemptsValid()
      modifies station`errorCounts, station`conditions, station`history, this`run, this`state, this`pendingGates,
        this`runLog,
        this`hw, this`monitoring, this`procedureQueue, this`operationQueue, this`guiActionQueue, this`accessLog,
        pendingGates
      ensures LogsGrow() && GatesOwn() && station.HistoryGrows(now)
      ensures station.Valid() && AccessValid() && HoldsValid() && GatesValid() && HwValid() && AttemptsValid()
      ensures if raised then RunAbortable() && !state.Emergency? else RunValid()
      ensures AnyCritical(station.conditions) == old(AnyCritical(station.conditions))
      ensures old(state).Emergency? ==> state.Emergency?
      ensures !old(run).IsOperation() ==> unchanged(station)
      ensures guiActionQueue == []
      ensures accessLog == old(accessLog)
        + Admissions(old(guiActionQueue), old(state), old(run), old(station.conditions), now,
        AccessLog.Replay(old(accessLog), timeoutS), timeoutS)
      ensures raised ==> Raises(old(state), old(run), envelope, input, old(GatesRaise(input)))
      ensures !raised ==> Transition(old(Standing()), input, now)
      ensures !raised ==>
        !Raises(old(state), old(run), envelope, input, old(GatesRaise(input)))
    {
      hide RunLog.Replay, AccessLog.Replay, AccessInv, RunInv, Abortable, AnyCritical, HwValid, Transition, Raises;
      hide GatesOk, KeysOwned, CommAgrees, SessionsAgree, NamesAgree, FactsOf, Admissions, Chain, Remembers;
      hide HoldsValid, AttemptsValid, AllWarranted;
      DrainActions(now);
      raised := AfterActions(input, now);
      RemembersAll(old(station.history), station.history, now);
      AttemptsStand();
    }

    /** The state machine; in IDLE, a drained action may have started a manual ramp. */
    method AfterActions(input: TickInput, now: real) returns (raised: bool)
      requires station.Valid() && RunValid() && GatesValid() && HwValid()
      modifies station`errorCounts, station`conditions, station`history, this`run, this`state, this`pendingGates,
        this`runLog,
        this`hw, this`monitoring, this`procedureQueue, this`operationQueue, pendingGates
      ensures LogsGrow() && GatesOwn() && station.HistoryGrows(now)
      ensures station.Valid() && GatesValid() && HwValid()
      ensures if raised then RunAbortable() && !state.Emergency? else RunValid()
      ensures AnyCritical(station.conditions) == old(AnyCritical(station.conditions))
      ensures old(state).Emergency? ==> state.Emergency?
      ensures !old(run).IsOperation() ==> unchanged(station)
      ensures raised ==> Raises(old(state), old(run), envelope, input, old(GatesRaise(input)))
      ensures !raised ==> Transition(old(Standing()), input, now)
      ensures !raised ==>
        !Raises(old(state), old(run), envelope, input, old(GatesRaise(input)))
    {
      hide RunLog.Replay, AnyCritical, HwValid, StepMoved, GateMoved, GatesMoved, Extends, Remembers;
      hide GatesOk, KeysOwned, CommAgrees, SessionsAgree, NamesAgree, Chain, MadeFrom, Waiting, Passes;
      NothingAdded(AllLogs());
      RemembersNothing(station.history, now);
      raised := false;
      if state.Idle? {
        raised := IdleRampCheck(input);
      }
      if !raised {
        raised := StepMachine(input, now);
      }
    }

    /** A drained action may have started a manual ramp. */
    method IdleRampCheck(input: TickInput) returns (raised: bool)
      requires RunValid() && state.Idle?
      modifies this`state
      ensures RunValid() && raised == input.idleRampFault
      ensures state == if !raised && input.idleRamping != {} then Ramping else Idle
    {
      hide RunLog.Replay;
      if input.idleRampFault {
        return true;
      }
      if input.idleRamping != {} {
        state := Ramping;
      }
      raised := false;
    }

    /** One tick inside the exception boundary: the verdict, the queued actions, the one transition of
        the state machine. Whatever is raised tears the run down and lands in ERROR; nothing leaves
        EMERGENCY. */
    method Tick(input: TickInput, now: real)
      returns (ghost course: Course, ghost seen: Registry, ghost held: map<Name, Condition>)
      requires Valid() && clock <= now
      modifies station`errorCounts, station`conditions, station`history, this, pendingGates
      ensures LogsGrow() && GatesOwn() && station.HistoryGrows(now)
      ensures Valid() && clock == now && envelope == old(envelope)
      ensures old(state).Emergency? ==> state.Emergency? && emergencyOverrideUntil == old(emergencyOverrideUntil)
      ensures old(monitoring) && (AnyCritical(station.conditions) ||
        old(!state.Emergency? && OutOfBounds(envelope, input.readings)))
        ==> state.Emergency? && run.procedure.None?
      ensures !old(run.IsOperation()) ==> station.conditions == seen
      ensures Judged(old(Before()), course.Cut?, seen, held, input, now)
      ensures Decided(old(Before()), course, seen, held, input, now)
      ensures course.Cut? ==> run.procedure.None? && state == if ToEmergency(seen, input) then Emergency else Idle
      ensures course.Cut? ==> pendingGates == [] && monitoring == old(monitoring)
      ensures course.Raised? ==> Raises(old(state), old(run), envelope, input, old(GatesRaise(input))) && state.Error?
      ensures course.Completed? ==> Transition(old(Standing()), input, now)
      ensures course.Completed? ==>
        !Raises(old(state), old(run), envelope, input, old(GatesRaise(input)))
    {
      hide Extends, Remembers;
      hide RunLog.Replay, AccessLog.Replay, HoldLog.Replay, RunInv, AccessInv, HoldInv, AnyCritical;
      hide Breached, OutOfBounds, HwValid;
      hide GatesOk, Abortable, KeysOwned, CommAgrees, SessionsAgree, NamesAgree, Chain, Raises;
      hide Station.Valid, AccessValid, HoldsValid;
      hide Judged, Decided, Transition, AllLogs, Standing, GatesRaise;
      Advance(now);
      var raised;
      course, seen, held, raised := TickBody(input, now);
      if raised {
        ghost var mid := AllLogs();
        Contain();
        ExtendsOn(old(AllLogs()), mid, AllLogs());
      }
      if state.Emergency? {
        AtHome(state, run, |pendingGates|, RunLog.Replay(runLog));
      }
    }

    method Contain()
      requires RunAbortable() && GatesValid() && HwValid() && (state.Emergency? ==> RunValid())
      modifies this`run, this`state, this`pendingGates, this`runLog, this`hw
      ensures RunValid() && GatesValid() && HwValid() && LogsGrow() && GatesOwn()
      ensures state == if old(state).Emergency? then Emergency else Error
      ensures state.Emergency? ==> run == old(run)
    {
      hide RunLog.Replay, RunInv, Abortable, HwValid;
      if state.Emergency? {
        return;
      }
      TearDown(RunLog.Failed, Error);
    }

    // ---- any call at any time ----------------------------------------------------------------

    /** What was asked for has been done, or refused for the reasons there are. */
    twostate predicate Served(request: Request, now: real, was: Position)
      reads this, station, pendingGates, was.gates
    {
      match request
      case DoTick(input) => Ticked(input, now, was)
      case DoAcknowledge(_) | DoViAction(_) | DoStopRamp(_) => Unlocked(request, now)
      case DoConnect(_, _) | DoDisconnect(_) | DoRetry(_, _) => Answered(request)
      case DoPublishTrends(_) | DoAcknowledgeCondition(_) => Answered(request)
      case _ => Steered(request)
    }

    /** One tick was made. */
    twostate predicate Ticked(input: TickInput, now: real, was: Position)
      reads this, station, pendingGates, was.gates
    {
      exists course, seen, held ::
        && Decided(old(Before()), course, seen, held, input, now)
        && Judged(old(Before()), course.Cut?, seen, held, input, now)
        && (course.Raised? ==> state.Error? && Raises(old(state), old(run), envelope, input, old(GatesRaise(input))))
        && (course.Completed? ==> Transition(was, input, now))
    }

    /** Each call about runs does what its own method promises. */
    twostate predicate Steered(request: Request)
      reads this`state, this`run, this`monitoring, this`envelope, this`runLog, this`procedureQueue,
        this`operationQueue, this`guiActionQueue, station`vis
    {
      match request
      case DoMonitoring(on) => monitoring == (on || (old(monitoring) && old(state) !in {Idle, Error}))
      case DoSetEnvelope(bounds) => envelope == bounds
      case DoQueueProcedure(p) => procedureQueue == old(procedureQueue) + [p]
      case DoQueueOperation(op) => operationQueue == old(operationQueue) + [op]
      case _ => Driven(request)
    }

    /** Calls that pause or resume the run, or recover from an error. */
    twostate predicate Driven(request: Request)
      reads this`state, this`run, this`envelope, this`runLog, this`procedureQueue, this`guiActionQueue, station`vis
    {
      match request
      case DoRecover => state == if old(state) == Error then Idle else old(state)
      case DoPause =>
        && state == (if old(run).procedure.Some? && old(state) !in {Measuring, Paused} then Paused else old(state))
        && (run.pauseRequested <==> old(run).procedure.Some? && old(state).Measuring?)
      case DoResume(dispatchOk) => WentOn(dispatchOk)
      case _ => Launched(request)
    }

    /** Back where it was paused, or still paused, if sending the last targets again raised. */
    twostate predicate WentOn(dispatchOk: bool)
      reads this`state, this`run, this`envelope
    {
      var was, targets := old(run).prePauseState, old(run).lastTargets;
      var again := was in {State.Initiating, State.Ramping, State.Standby} && targets != map[];
      && state == (if old(state) != Paused || (again && !(Allowed(envelope, targets) && dispatchOk)) then old(state)
                   else was)
      && !run.pauseRequested
    }

    /** Calls that may start the next run. */
    twostate predicate Launched(request: Request)
      reads this`state, this`run, this`envelope, this`runLog, this`procedureQueue, this`guiActionQueue, station`vis
    {
      match request
      case DoRunProcedure(p, s) =>
        if s.magnetsPersistent then procedureQueue == old(procedureQueue) && state == old(state)
        else if old(state.Idle? || (state.Ramping? && run.procedure.None?)) then StartedOrFailed(p, s)
        else procedureQueue == old(procedureQueue) + [p] && state == old(state)
      case DoRunOperation(op, s, tripped) =>
        if old(if state.Emergency? then tripped <= op.tolerated
               else state.Idle? || (state.Ramping? && run.procedure.None?))
        then StartedOrFailed(op, s) else state == old(state) && runLog == old(runLog)
      case DoRunQueue(s) =>
        if old(state) == Idle then Dequeued(old(procedureQueue), old(operationQueue), s) else state == old(state)
      case DoAbort(s) =>
        if old(state) == Emergency then state == Emergency
        else Dequeued(old(procedureQueue), old(operationQueue), s) && old(runLog) + old(Aborted()) <= runLog
      case DoGlobalAction(standby, s) =>
        && |guiActionQueue| >= |old(guiActionQueue)|
        && (forall v :: v in guiActionQueue[|old(guiActionQueue)|..] <==> v in station.vis)
        && (standby && old(state) !in {Idle, Error, Emergency} ==>
              Dequeued(old(procedureQueue), old(operationQueue), s) && old(runLog) + old(Aborted()) <= runLog)
      case _ => true
    }

    /** An acknowledgement opens windows or leaves EMERGENCY; an action goes ahead as far as admitted. */
    twostate predicate Unlocked(request: Request, now: real)
      reads this, station
    {
      match request
      case DoAcknowledge(readings) =>
        if old(state) == Emergency then
          && state == (if AnyCritical(station.conditions) || OutOfBounds(envelope, readings) then Emergency else Idle)
          && (state == Emergency ==> emergencyOverrideUntil == Some(now + timeoutS))
        else
          exists keys ::
            && HoldKeys(station.conditions, keys)
            && accessLog == old(accessLog) + if keys == {} then [] else [AccessLog.Acknowledged(now, keys)]
      case DoViAction(vi) => guiActionQueue == old(guiActionQueue) + if old(Admissible(vi, now)) then [vi] else []
      case DoStopRamp(vi) => hw == old(hw) + if old(Admissible(vi, now)) then [HeldOne(vi)] else []
      case _ => true
    }

    /** Each call about an instrument or a condition does what its own method promises. */
    twostate predicate Answered(request: Request)
      reads this`state, this`run, station
    {
      match request
      case DoConnect(vi, ans) =>
        var connects :=
          && state == Idle && vi in old(station.offline) && vi in station.viSpecs && ans.constructs && ans.pings
          && forall a :: a in station.viSpecs[vi].aliases && a !in old(station.drivers) ==> ans.opens(a);
        vi in station.vis <==> vi in old(station.vis) || connects
      case DoDisconnect(vi) =>
        if state != Idle || vi !in old(station.vis) then station.vis == old(station.vis)
        else vi !in station.vis && LetGo(station.viSpecs, old(station.vis).Keys, vi, old(station.drivers),
                                         station.drivers, old(station.closed), station.closed)
      case DoRetry(vi, ans) =>
        && (vi in old(station.vis) && !old(station.Gone(vi)) ==> (CommKey(vi) in station.conditions <==> !ans.polls))
        && (vi in old(station.vis) && old(station.Gone(vi)) && !run.Claims(vi) && vi in station.viSpecs
            && ans.constructs && ans.pings && (forall a :: ans.opens(a)) ==>
              && (CommKey(vi) in station.conditions <==> !ans.polls)
              && vi in station.vis
              && Reopened(station.viSpecs, station.vis.Keys, vi, station.vis[vi].sessions, old(station.drivers),
                   station.closed, old(station.nextSerial)))
      case DoPublishTrends(found) =>
        forall k: Key :: k.prefix == Trend ==> (k in station.conditions <==> k in ByKey(found))
      case DoAcknowledgeCondition(key) =>
        key in old(station.conditions) ==> key in station.conditions && station.conditions[key].acknowledged
      case _ => true
    }

    method RunTick(input: TickInput, now: real)
      requires Valid() && clock <= now
      modifies station`errorCounts, station`conditions, station`history, this, pendingGates
      ensures LogsGrow() && GatesOwn() && station.HistoryGrows(now) && Valid() && clock == now
      ensures old(state).Emergency? ==> state.Emergency?
      ensures Ticked(input, now, old(Standing()))
    {
      hide Orchestrator.Valid, LogsGrow, GatesOwn, Before, Standing, GatesRaise, ToEmergency, Judged, Decided;
      hide Transition, Raises, AnyCritical, OutOfBounds, Remembers;
      var course, seen, held := Tick(input, now);
      assert Decided(old(Before()), course, seen, held, input, now);
    }

    /** One call from outside. Whatever it is, the invariant holds afterwards, and EMERGENCY is left
        only in the two ways there are. */
    method Handle(request: Request, now: real)
      requires Valid() && clock <= now && Askable(request, now)
      modifies station, this, pendingGates
      ensures LogsGrow()
      ensures GatesOwn()
      ensures Valid() && clock == now && NamesKept() && station.HistoryGrows(now)
      ensures NamesVi(request) ==> SessionsSpared(request.vi)
      ensures !NamesVi(request) ==> station.TheBench() == old(station.TheBench())
      ensures old(state).Emergency? && !state.Emergency? ==> Releases(request, station.conditions, envelope)
      ensures !old(state).Emergency? && state.Emergency? ==> request.DoTick?
      ensures Served(request, now, old(Standing()))
    {
      hide Ticked, Steered, Answered, Unlocked;
      hide Orchestrator.Valid, RunValid, HwValid, LogsGrow, Station.TheBench, Before, Standing, ToEmergency;
      hide SessionsSpared, NamesKept, Askable;
      hide Extends, Remembers;
      hide RunLog.Replay, AccessLog.Replay, HoldLog.Replay, RunInv, AccessInv, HoldInv, GatesOk, AnyCritical;
      hide Breached, OutOfBounds;
      hide HwValid;
      hide KeysOwned, CommAgrees, SessionsAgree, NamesAgree, Enforced, Observed, HoldMap, MovedOn, OthersKeepSessions;
      hide Releases;
      hide Raises, Judged, Decided, Transition, Chain;
      RemembersNothing(station.history, now);
      if request.DoTick? {
        RunTick(request.input, now);
        NamesStand();
      } else if TouchesStation(request) {
        HandleInstrument(request, now);
      } else if TouchesAccess(request) {
        HandleAccess(request, now);
        NamesStand();
      } else {
        HandleRun(request, now);
        NamesStand();
      }
    }

    predicate TouchesAccess(r: Request) {
      r.DoAcknowledge? || r.DoViAction? || r.DoStopRamp?
    }

    method HandleAccess(request: Request, now: real)
      requires Valid() && clock <= now && TouchesAccess(request)
      modifies this`clock, this`state, this`emergencyOverrideUntil, this`holdOverrideUntil, this`accessLog,
        this`guiActionQueue, this`hw
      ensures LogsGrow()
      ensures Valid() && clock == now
      ensures old(state).Emergency? && !state.Emergency? ==> Releases(request, station.conditions, envelope)
      ensures state.Emergency? ==> old(state).Emergency?
      ensures Unlocked(request, now)
    {
      hide RunLog.Replay, AccessLog.Replay, HoldLog.Replay, RunInv, AccessInv, HoldInv, GatesOk, HwValid;
      hide GatesValid, RunValid, AccessValid, HoldsValid, Extends, Admissible, AttemptsValid;
      NothingAdded(AllLogs());
      hide KeysOwned, CommAgrees, SessionsAgree, NamesAgree, AnyCritical, Breached, OutOfBounds;
      Advance(now);
      match request {
        case DoAcknowledge(readings) => Acknowledge(readings, now);
        case DoViAction(vi) => SubmitViAction(vi, now);
        case DoStopRamp(vi) => StopRamp(vi, now);
      }
      LogsLast(old(AllLogs()), AllLogs());
      AttemptsStand();
    }

    /** The calls that open, close or rebuild sessions, on behalf of one VI. */
    predicate NamesVi(r: Request) {
      r.DoConnect? || r.DoDisconnect? || r.DoRetry?
    }

    predicate TouchesStation(r: Request) {
      NamesVi(r) || r.DoPublishTrends? || r.DoAcknowledgeCondition?
    }

    /** The trend checks publish under their own keys, stamped with the time of the call. */
    predicate Askable(r: Request, now: real) {
      r.DoPublishTrends? ==>
        forall c :: c in r.found ==> c.key.prefix == Trend && c.origin == Trend && c.WellFormed() && c.since == now
    }

    method HandleInstrument(request: Request, now: real)
      requires Valid() && clock <= now && Askable(request, now)
      modifies station, this`clock
      ensures LogsGrow()
      ensures Valid() && clock == now && NamesKept() && station.HistoryGrows(now)
      ensures !NamesVi(request) ==> station.TheBench() == old(station.TheBench())
      ensures NamesVi(request) ==> SessionsSpared(request.vi)
      ensures Answered(request)
    {
      hide Extends, Remembers, OthersKeepSessions, Station.Valid, Station.TheBench, NamesVi, Askable;
      hide RunLog.Replay, AccessLog.Replay, HoldLog.Replay, RunInv, AccessInv, HoldInv, GatesOk, HwValid, AttemptsValid;
      NothingAdded(AllLogs());
      Advance(now);
      AskStation(request, now);
      RemembersAll(old(station.history), station.history, now);
      AttemptsStand();
    }

    method AskStation(request: Request, now: real)
      requires station.Valid() && Askable(request, now)
      modifies station
      ensures station.Valid() && NamesKept() && station.HistoryGrows(now)
      ensures !NamesVi(request) ==> station.TheBench() == old(station.TheBench())
      ensures NamesVi(request) ==> SessionsSpared(request.vi)
      ensures Answered(request)
    {
      hide Remembers, OthersKeepSessions, Station.Valid;
      RemembersNothing(station.history, now);
      match request
      case DoConnect(vi, ans) => var _ := ConnectInstrument(vi, ans);
      case DoDisconnect(vi) => var _ := DisconnectInstrument(vi, now);
      case DoRetry(vi, ans) => var _ := RetryFault(vi, ans, now);
      case DoPublishTrends(found) => var _ := station.PublishTrend(found, now);
      case DoAcknowledgeCondition(key) => var _ := station.AcknowledgeCondition(key, now);
      case _ =>
    }

    method HandleRun(request: Request, now: real)
      requires Valid() && clock <= now
      modifies this`clock, this`run, this`state, this`pendingGates, this`runLog, this`hw, this`monitoring,
        this`envelope,
        this`procedureQueue, this`operationQueue, this`guiActionQueue
      ensures LogsGrow()
      ensures GatesOwn()
      ensures Valid() && clock == now
      ensures old(state).Emergency? && !state.Emergency? ==> Releases(request, station.conditions, envelope)
      ensures state.Emergency? ==> old(state).Emergency?
      ensures Steered(request)
    {
      hide Extends, Remembers;
      hide RunLog.Replay, AccessLog.Replay, HoldLog.Replay, RunInv, AccessInv, HoldInv, GatesOk, HwValid;
      hide KeysOwned, CommAgrees, SessionsAgree, NamesAgree, AnyCritical, Breached, OutOfBounds;
      hide Steered;
      Steer(request, now);
      Advance(now);
    }

    method Steer(request: Request, now: real)
      requires RunValid() && GatesValid() && HwValid()
      modifies this`run, this`state, this`pendingGates, this`runLog, this`hw, this`monitoring, this`envelope,
        this`procedureQueue, this`operationQueue, this`guiActionQueue
      ensures LogsGrow()
      ensures GatesOwn()
      ensures RunValid() && GatesValid() && HwValid()
      ensures old(state).Emergency? && !state.Emergency? ==>
        request.DoRunOperation? && request.tripped <= request.procedure.tolerated
      ensures state.Emergency? ==> old(state).Emergency?
      ensures Steered(request)
    {
      hide Extends, RunLog.Replay, RunInv, HwValid, GatesOk, AllLogs, Driven;
      NothingAdded(AllLogs());
      match request
      case DoMonitoring(on) =>
        if on { StartMonitoring(); } else { var _ := StopMonitoring(); }
      case DoSetEnvelope(bounds) => SetExperimentEnvelope(bounds);
      case DoQueueProcedure(p) => QueueProcedure(p);
      case DoQueueOperation(op) => QueueOperation(op);
      case _ => Drive(request, now);
    }

    method Drive(request: Request, now: real)
      requires RunValid() && GatesValid() && HwValid()
      modifies this`run, this`state, this`pendingGates, this`runLog, this`hw, this`monitoring,
        this`procedureQueue, this`operationQueue, this`guiActionQueue
      ensures LogsGrow()
      ensures GatesOwn()
      ensures RunValid() && GatesValid() && HwValid()
      ensures old(state).Emergency? && !state.Emergency? ==>
        request.DoRunOperation? && request.tripped <= request.procedure.tolerated
      ensures state.Emergency? ==> old(state).Emergency?
      ensures Driven(request)
    {
      hide Extends, RunLog.Replay, RunInv, HwValid, GatesOk, AllLogs, Allowed, Launched, WentOn;
      NothingAdded(AllLogs());
      match request
      case DoRecover => RecoverFromError();
      case DoPause => PauseProcedure(now);
      case DoResume(dispatchOk) => var _ := ResumeProcedure(dispatchOk, now);
      case _ => Launch(request);
    }

    method Launch(request: Request)
      requires RunValid() && GatesValid() && HwValid()
      modifies this`run, this`state, this`pendingGates, this`runLog, this`hw, this`monitoring,
        this`procedureQueue, this`operationQueue, this`guiActionQueue
      ensures LogsGrow()
      ensures GatesOwn()
      ensures RunValid() && GatesValid() && HwValid()
      ensures old(state).Emergency? && !state.Emergency? ==>
        request.DoRunOperation? && request.tripped <= request.procedure.tolerated
      ensures state.Emergency? ==> old(state).Emergency?
      ensures Launched(request)
    {
      hide Extends, RunLog.Replay, RunInv, HwValid, GatesOk, StartsWell;
      NothingAdded(AllLogs());
      match request
      case DoRunProcedure(p, setup) => RunProcedure(p, setup);
      case DoRunOperation(op, setup, tripped) => var _ := RunOperation(op, setup, tripped);
      case DoRunQueue(setup) => RunQueue(setup);
      case DoAbort(setup) => AbortProcedure(setup);
      case DoGlobalAction(standby, setup) => SubmitGlobalAction(standby, setup);
      case _ =>
    }

    /** Any sequence of calls, each no earlier than the one before it. */
    method Play(requests: seq<(real, Request)>)
      requires Valid()
      requires (forall i :: 0 <= i < |requests| ==> clock <= requests[i].0 && Askable(requests[i].1, requests[i].0))
      requires forall i, j :: 0 <= i < j < |requests| ==> requests[i].0 <= requests[j].0
      modifies station, this, pendingGates
      ensures LogsGrow() && old(station.history) <= station.history
      ensures Valid() && NamesKept()
      // a VI that no call names keeps its sessions, whatever happens to the others
      ensures forall v :: NotNamed(v, requests) ==> Keeps(v, old(station.TheBench()), station.TheBench())
    {
      hide RunLog.Replay, AccessLog.Replay, HoldLog.Replay, RunInv, AccessInv, HoldInv, GatesOk, HwValid;
      hide KeysOwned, CommAgrees, SessionsAgree, NamesAgree, Keeps, OthersKeepSessions;
      AllKept(old(station.TheBench()), requests);
      for i := 0 to |requests|
        invariant forall v :: NotNamed(v, requests) ==> Keeps(v, old(station.TheBench()), station.TheBench())
        invariant Valid() && forall j :: i <= j < |requests| ==> clock <= requests[j].0
        invariant GatesOwn() && LogsGrow() && NamesKept() && old(station.history) <= station.history
      {
        assert forall k :: 0 <= k < |pendingGates| ==> pendingGates[k] in old(pendingGates) || fresh(pendingGates[k]);
        ghost var before := station.TheBench();
        Handle(requests[i].1, requests[i].0);
        StillKept(requests, i, old(station.TheBench()), before, station.TheBench());
      }
    }

    ghost predicate NotNamed(v: Name, requests: seq<(real, Request)>) {
      forall i :: 0 <= i < |requests| && NamesVi(requests[i].1) ==> requests[i].1.vi != v
    }

    lemma AllKept(bench: Bench, requests: seq<(real, Request)>)
      ensures forall v :: NotNamed(v, requests) ==> Keeps(v, bench, bench)
    {
    }

    lemma StillKept(requests: seq<(real, Request)>, i: nat, start: Bench, before: Bench, after: Bench)
      requires i < |requests| && forall v :: NotNamed(v, requests) ==> Keeps(v, start, before)
      requires var r := requests[i].1;
        if NamesVi(r) then
          OthersKeepSessions(r.vi, before.vis, after.vis, before.closed, after.closed, before.drivers, after.drivers)
        else after == before
      ensures forall v :: NotNamed(v, requests) ==> Keeps(v, start, after)
    {
      hide Keeps, OthersKeepSessions;
      forall v | NotNamed(v, requests) ensures Keeps(v, start, after) {
        if NamesVi(requests[i].1) {
          OthersAreKept(requests[i].1.vi, v, before, after);
          KeepsOn(v, start, before, after);
        }
      }
    }
  }
}
