/** The values the Orchestrator works on: its states, the record of the active run, what the outside
    world answers, and the invariants that tie them to the logs. */
module Machine {
  import opened Conditions
  import opened Stations
  import G = Gates
  import RunLog
  import AccessLog
  import HoldLog

  datatype State =
    | Idle | Initiating | Ramping | InitiationGate | ReadingGate | Measuring | Sweeping | Standby
    | Paused | Error | Emergency

  /** A procedure or operation, as far as the state machine looks at it. */
  datatype Procedure = Procedure(id: nat, operation: bool, tolerated: set<Name>, claims: Option<set<Name>>)

  // ---- the session envelope -----------------------------------------------------------------

  /** `watched`: the bound also names a live reading. */
  datatype Bound = Bound(lo: Option<real>, hi: Option<real>, watched: bool)

  type Envelope = map<Name, Bound>

  type Targets = map<Name, real>

  predicate Inside(b: Bound, value: real) {
    (b.lo.Some? ==> value >= b.lo.value) && (b.hi.Some? ==> value <= b.hi.value)
  }

  /** check_target() finds nothing to say about any of the targets. */
  predicate Within(envelope: Option<Envelope>, targets: Targets) {
    envelope.Some? ==> forall v :: v in targets && v in envelope.value ==> Inside(envelope.value[v], targets[v])
  }

  /** The bounds that a snapshot of numeric readings violates; a missing reading violates nothing. */
  function Breached(envelope: Option<Envelope>, readings: map<Name, real>): set<Name> {
    if envelope.None? then {}
    else set v | v in envelope.value && envelope.value[v].watched && v in readings
         && !Inside(envelope.value[v], readings[v])
  }

  /** No target is below the lower or above the upper bound of its VI. */
  ghost predicate Allowed(envelope: Option<Envelope>, targets: Targets) {
    envelope.Some? ==>
      forall v :: v in targets && v in envelope.value ==>
        var b := envelope.value[v];
        (b.lo.Some? ==> b.lo.value <= targets[v]) && (b.hi.Some? ==> targets[v] <= b.hi.value)
  }

  /** Some watched reading is below its lower or above its upper bound. */
  ghost predicate OutOfBounds(envelope: Option<Envelope>, readings: map<Name, real>) {
    envelope.Some? && exists v :: (
      && v in envelope.value && v in readings && envelope.value[v].watched
      && var b := envelope.value[v];
         (b.lo.Some? && readings[v] < b.lo.value) || (b.hi.Some? && b.hi.value < readings[v]))
  }

  lemma TargetsAreChecked(envelope: Option<Envelope>, targets: Targets)
    ensures Within(envelope, targets) <==> Allowed(envelope, targets)
  {
  }

  lemma ReadingsAreChecked(envelope: Option<Envelope>, readings: map<Name, real>)
    ensures Breached(envelope, readings) != {} <==> OutOfBounds(envelope, readings)
  {
    if v :| v in Breached(envelope, readings) {
      assert v in envelope.value && v in readings;
    }
    if OutOfBounds(envelope, readings) {
      var v :| v in envelope.value && v in readings && envelope.value[v].watched
        && !Inside(envelope.value[v], readings[v]);
      assert v in Breached(envelope, readings);
    }
  }

  // ---- what the Orchestrator does to hardware -----------------------------------------------

  /** The plan a run starts with, the plans of its steps and the one it parks with; a resume sends the
      newest of them again. */
  datatype Plan = Opening | Stepping | Parking | Resending

  datatype HwEvent =
    | Began                                  // a run starts, and has planned nothing yet
    | Commanded(plan: Plan, targets: Targets, envelope: Option<Envelope>)
    | Refused(plan: Plan, targets: Targets)  // planned, but none of it was sent
    | HeldRamps(scope: Option<set<Name>>)    // a run's ramps are held where they are; None: every ramp
    | HeldOne(vi: Name)                      // the operator holds one ramp
  {
    predicate IsPlan() {
      Commanded? || Refused?
    }

    /** A plan of targets that the run goes on to ramp to: not one that parks, nor one sent again. */
    predicate OnTheWay() {
      IsPlan() && plan in {Opening, Stepping}
    }
  }

  /** No target outside the envelope in force was ever sent. */
  ghost predicate Lawful(hw: seq<HwEvent>) {
    forall i :: 0 <= i < |hw| && hw[i].Commanded? ==> Allowed(hw[i].envelope, hw[i].targets)
  }

  /** The VIs in the opening plan and the steps of the newest run. */
  ghost function Owned(hw: seq<HwEvent>): set<Name> {
    if hw == [] || hw[|hw| - 1].Began? then {}
    else Owned(hw[..|hw| - 1]) + if hw[|hw| - 1].OnTheWay() then hw[|hw| - 1].targets.Keys else {}
  }

  /** No run ever held a ramp but those it owns. */
  ghost predicate HoldsOwn(hw: seq<HwEvent>) {
    forall i :: 0 <= i < |hw| && hw[i].HeldRamps? && hw[i].scope.Some? ==> hw[i].scope.value == Owned(hw[..i])
  }

  ghost predicate HwInv(hw: seq<HwEvent>) {
    Lawful(hw) && HoldsOwn(hw)
  }

  lemma HwGrows(hw: seq<HwEvent>, e: HwEvent)
    requires HwInv(hw) && (e.Commanded? ==> Allowed(e.envelope, e.targets))
    requires e.HeldRamps? && e.scope.Some? ==> e.scope.value == Owned(hw)
    ensures HwInv(hw + [e])
    ensures Owned(hw + [e]) == if e.Began? then {} else Owned(hw) + if e.OnTheWay() then e.targets.Keys else {}
  {
    assert (hw + [e])[..|hw|] == hw;
    forall i | 0 <= i < |hw| ensures (hw + [e])[..i] == hw[..i] {
    }
  }

  /** Where the newest run begins. */
  ghost function Since(hw: seq<HwEvent>): (n: nat)
    ensures n <= |hw|
  {
    if hw == [] || hw[|hw| - 1].Began? then |hw| else Since(hw[..|hw| - 1])
  }

  /** The newest run sent this VI a target. */
  ghost predicate SentTo(hw: seq<HwEvent>, v: Name) {
    exists j :: Since(hw) <= j < |hw| && hw[j].Commanded? && v in hw[j].targets
  }

  lemma {:induction false} OwnedIff(hw: seq<HwEvent>, v: Name)
    ensures v in Owned(hw) <==> exists j :: Since(hw) <= j < |hw| && hw[j].OnTheWay() && v in hw[j].targets
  {
    if hw != [] && !hw[|hw| - 1].Began? {
      var before := hw[..|hw| - 1];
      OwnedIff(before, v);
      assert forall j :: 0 <= j < |before| ==> before[j] == hw[j];
      if v in Owned(before) {
        var j :| Since(before) <= j < |before| && before[j].OnTheWay() && v in before[j].targets;
        assert hw[j] == before[j];
      }
    }
  }

  /** The scope of a run is the VIs it ever sent a target, if and only if no plan that it kept back
      names another one, and neither does a plan it parked with or sent again. */
  lemma ScopeIsWhatWasSent(hw: seq<HwEvent>)
    ensures (forall v :: v in Owned(hw) <==> SentTo(hw, v)) <==>
      && (forall j, v :: Since(hw) <= j < |hw| && hw[j].Refused? && hw[j].OnTheWay() && v in hw[j].targets ==>
            SentTo(hw, v))
      && (forall j, v :: Since(hw) <= j < |hw| && hw[j].Commanded? && !hw[j].OnTheWay() && v in hw[j].targets ==>
            v in Owned(hw))
  {
    hide Owned, Since;
    forall v ensures v in Owned(hw) <==> exists j :: Since(hw) <= j < |hw| && hw[j].OnTheWay() && v in hw[j].targets {
      OwnedIff(hw, v);
    }
  }

  // ---- what the outside world answers -------------------------------------------------------

  /** The start of a run: is a magnet in persistent mode, does initiate() return, and what becomes
      of its claim commands, targets and commands. */
  datatype Setup = Setup(
    magnetsPersistent: bool, initiateOk: bool, claimsOk: bool, targets: Targets, dispatchOk: bool, commandsOk: bool,
    waitS: real)

  /** Nothing in the start of a run raises. */
  ghost predicate StartsWell(s: Setup, envelope: Option<Envelope>) {
    s.initiateOk && s.claimsOk && Allowed(envelope, s.targets) && s.dispatchOk && s.commandsOk
  }

  datatype StepAnswer = NextPoint(targets: Targets, waitS: real, dispatchOk: bool) | NoMorePoints | StepRaises

  datatype ParkAnswer = Parks(targets: Targets, dispatchOk: bool, commandsOk: bool) | ParkRaises

  datatype StandbyStatus = Away | AtOrNearStandby | StatusRaises

  /** Everything one tick may ask of instruments and of the active procedure. */
  datatype TickInput = TickInput(
    polls: Name -> bool, tripped: map<Name, FlagReport>, readings: map<Name, real>,
    standbyStatus: Name -> StandbyStatus, standbyOk: Name -> bool,
    idleRampFault: bool, idleRamping: set<Name>, rampFault: bool, ramping: set<Name>,
    skipRamp: bool, gatesOk: bool, gates: seq<G.GateSpec>, gateActionOk: nat -> bool, gateAnswer: nat -> G.Answer,
    finishRequested: bool, measureOk: bool, progressOk: bool, step: StepAnswer, park: ParkAnswer,
    pollsAfterPark: Name -> bool,
    setup: Setup)

  /** Everything that can be asked of the Orchestrator from outside. */
  datatype Request =
    | DoTick(input: TickInput)
    | DoMonitoring(on: bool)
    | DoSetEnvelope(bounds: Option<Envelope>)
    | DoRunProcedure(procedure: Procedure, setup: Setup)
    | DoRunOperation(procedure: Procedure, setup: Setup, tripped: set<Name>)
    | DoQueueProcedure(procedure: Procedure)
    | DoQueueOperation(procedure: Procedure)
    | DoRunQueue(setup: Setup)
    | DoPause
    | DoResume(dispatchOk: bool)
    | DoAbort(setup: Setup)
    | DoRecover
    | DoAcknowledge(readings: map<Name, real>)
    | DoViAction(vi: Name)
    | DoStopRamp(vi: Name)
    | DoGlobalAction(standby: bool, setup: Setup)
    | DoConnect(vi: Name, answers: Answers)
    | DoDisconnect(vi: Name)
    | DoRetry(vi: Name, answers: Answers)
    | DoPublishTrends(found: seq<Condition>)
    | DoAcknowledgeCondition(key: Key)

  /** The two ways out of EMERGENCY: an acknowledgement with nothing critical and no bound breached,
      or an operation that tolerates every flag that is tripped. */
  ghost predicate Releases(r: Request, conditions: Registry, envelope: Option<Envelope>) {
    || (r.DoAcknowledge? && !AnyCritical(conditions) && !OutOfBounds(envelope, r.readings))
    || (r.DoRunOperation? && r.tripped <= r.procedure.tolerated)
  }

  // ---- conditions, as the Orchestrator reads them -------------------------------------------

  predicate AnyCritical(r: Registry) {
    exists k :: k in r && r[k].severity.Critical?
  }

  /** The hold on `vi` that comes first in key order. */
  ghost predicate IsHold(r: Registry, vi: Name, k: Key) {
    k in r && r[k].Holds(vi) && forall j :: j in r && r[j].Holds(vi) ==> KeyLeq(k, j)
  }

  ghost predicate HoldMap(r: Registry, held: map<Name, Condition>) {
    && (forall vi, k :: k in r && r[k].Holds(vi) ==> vi in held)
    && (forall vi :: vi in held ==> IsHold(r, vi, held[vi].key) && held[vi] == r[held[vi].key])
  }

  ghost predicate Lists(r: Registry, list: seq<Condition>) {
    forall c :: c in list <==> c.key in r && r[c.key] == c
  }

  /** Polling changes comm holds only. */
  lemma PollingLeavesCriticals(r: Registry, r': Registry, live: set<Name>, counts: map<Name, int>,
          counts': map<Name, int>, maxErrors: int, answers: Name -> bool)
    requires CommAgrees(r, live, counts, maxErrors) && CommAgrees(r', live, counts', maxErrors)
    requires PolledSoFar(r, r', counts, counts', live, {}, answers)
    ensures AnyCritical(r') == AnyCritical(r)
  {
    forall k: Key | k.prefix == Comm && k in r ensures r[k].severity.Hold? {
      assert CommKey(k.name) == k;
    }
    forall k: Key | k.prefix == Comm && k in r' ensures r'[k].severity.Hold? {
      assert CommKey(k.name) == k;
    }
    if k :| k in r && r[k].severity.Critical? {
      assert k in r' && r'[k] == r[k];
    }
    if k :| k in r' && r'[k].severity.Critical? {
      assert k in r && r'[k] == r[k];
    }
  }

  /** A poll moves comm conditions only, a safety refresh safety conditions only. */
  lemma PollThenRefresh(r: Registry, mid: Registry, r': Registry, now: real)
    requires KeysOwned(mid) && KeysOwned(r')
    requires OnsetsRight(r, mid, now) && forall k: Key :: k.prefix != Comm ==> (k in mid <==> k in r)
    requires forall k: Key :: k.prefix != Comm && k in mid ==> mid[k] == r[k]
    requires OnsetsRight(mid, r', now) && OthersUntouched(mid, r', Safety)
    ensures OnsetsRight(r, r', now) && (forall v :: CommKey(v) in r' <==> CommKey(v) in mid)
    ensures SlicesStand(r, r')
  {
    forall k | k in r && k in r' ensures r'[k].since == r[k].since {
      assert k in mid;
    }
    forall k | k in r' && k !in r ensures r'[k].since == now {
      assert k in mid ==> mid[k].since == now;
    }
  }

  /** Polling and flags move the comm and the safety slice; what other producers published stands. */
  ghost predicate SlicesStand(before: Registry, after: Registry) {
    && (forall k: Key :: k.prefix != Comm && k.prefix != Safety ==> (k in after <==> k in before))
    && (forall k: Key :: k.prefix != Comm && k.prefix != Safety && k in after ==> after[k] == before[k])
  }

  /** The registry says of this tick's answers and flags what they are. */
  ghost predicate Observed(r: Registry, live: set<Name>, input: TickInput, tolerated: set<Name>) {
    && (forall v :: v in live ==> (CommKey(v) in r <==> !input.polls(v)))
    && (forall f :: Key(Safety, f) in r <==> f in input.tripped && Produces(input.tripped[f], f in tolerated))
    && (forall f :: Key(Safety, f) in r ==> Reports(r[Key(Safety, f)], input.tripped[f]))
  }

  predicate Reports(c: Condition, report: FlagReport) {
    && Some(c.severity) == report.severity
    && c.affected == if c.severity.Hold? then Some(report.concerned) else None
  }

  /** A refresh of the safety slice after a poll of every instrument. */
  lemma PollThenRefreshObserves(mid: Registry, r': Registry, live: set<Name>, input: TickInput, tolerated: set<Name>,
          now: real)
    requires forall v :: v in live ==> (CommKey(v) in mid <==> !input.polls(v))
    requires forall v :: CommKey(v) in r' <==> CommKey(v) in mid
    requires forall f :: Key(Safety, f) in r' <==> f in input.tripped && Produces(input.tripped[f], f in tolerated)
    requires forall f :: f in input.tripped && Produces(input.tripped[f], f in tolerated) ==>
      r'[Key(Safety, f)] == Upserted(mid, SafetyCondition(f, input.tripped[f], now))
    ensures Observed(r', live, input, tolerated)
  {
  }

  /** What the tick's conditions, registry and envelope breaches together, decide. */
  ghost predicate Verdicted(r: Registry, breached: bool, s: State, run: ActiveRun, v: Verdict) {
    && HoldMap(r, v.held)
    && (v.emergency != [] <==> AnyCritical(r) || breached)
    && match v.runFailure {
         case None => !FailsRun(s, run, v.held)
         case Some((vi, c)) =>
           && DependsOn(s, run, vi) && vi in v.held && c == v.held[vi]
           && forall w :: w in v.held && DependsOn(s, run, w) ==> NameLeq(vi, w)
       }
  }

  /** A run that is on its way depends on the VIs it has sent targets to and on those it claims by
      name; claiming everything adds none. */
  ghost predicate DependsOn(s: State, r: ActiveRun, vi: Name) {
    && s in {Initiating, Ramping, InitiationGate, ReadingGate, Measuring, Sweeping, State.Standby}
    && (vi in r.systemVis || (r.claims.Some? && vi in r.claims.value))
  }

  ghost predicate FailsRun(s: State, r: ActiveRun, held: map<Name, Condition>) {
    exists vi :: vi in held && DependsOn(s, r, vi)
  }

  lemma WatchedIsDependedOn(s: State, r: ActiveRun, vi: Name)
    ensures Active(s) && vi in r.Watched() <==> DependsOn(s, r, vi)
  {
  }

  lemma HeldByRegistry(r: Registry, list: seq<Condition>, more: seq<Condition>, held: map<Name, Condition>)
    requires KeysOwned(r) && Lists(r, list) && HeldExactly(list + more, held)
    requires forall c :: c in more ==> c.severity.Critical?
    ensures HoldMap(r, held)
  {
    forall vi, k | k in r && r[k].Holds(vi) ensures vi in held {
      assert r[k] in list + more;
    }
    forall vi | vi in held ensures IsHold(r, vi, held[vi].key) && held[vi] == r[held[vi].key] {
      assert LeastHold(list + more, vi, held[vi]);
      assert held[vi] in list;
      forall j | j in r && r[j].Holds(vi) ensures KeyLeq(held[vi].key, j) {
        assert r[j] in list + more;
      }
    }
  }

  lemma CriticalByRegistry(r: Registry, list: seq<Condition>, more: seq<Condition>, emergency: seq<Condition>)
    requires KeysOwned(r) && Lists(r, list) && CriticalExactly(list + more, emergency)
    requires forall c :: c in more ==> c.severity.Critical?
    ensures emergency != [] <==> AnyCritical(r) || more != []
  {
    EmergencyIffCritical(list + more, emergency);
    if k :| k in r && r[k].severity.Critical? {
      assert r[k] in list + more;
    }
    if more != [] {
      assert more[0] in list + more;
    }
  }

  /** The key of that hold, if there is any. */
  ghost function HoldOf(r: Registry, vi: Name): Option<Key> {
    if exists k :: IsHold(r, vi, k) then
      var k :| IsHold(r, vi, k);
      Some(k)
    else None
  }

  lemma HoldOfHeld(r: Registry, held: map<Name, Condition>, vi: Name)
    requires HoldMap(r, held)
    ensures HoldOf(r, vi) == if vi in held then Some(held[vi].key) else None
  {
    HoldIsUnique(r, held, vi);
  }

  /** The keys of the holds in force, one for each held VI. */
  ghost predicate HoldKeys(r: Registry, keys: set<Key>) {
    forall k :: k in keys <==> exists vi :: IsHold(r, vi, k)
  }

  lemma HoldIsUnique(r: Registry, held: map<Name, Condition>, vi: Name)
    requires HoldMap(r, held)
    ensures forall k :: IsHold(r, vi, k) <==> vi in held && k == held[vi].key
  {
    forall k | IsHold(r, vi, k) ensures vi in held && k == held[vi].key {
      KeyLeqTotal(k, held[vi].key);
    }
  }

  lemma HoldKeysOf(r: Registry, held: map<Name, Condition>, keys: set<Key>)
    requires HoldMap(r, held) && keys == set vi | vi in held :: held[vi].key
    ensures HoldKeys(r, keys)
  {
    forall k | exists vi :: IsHold(r, vi, k) ensures k in keys {
      var vi :| IsHold(r, vi, k);
      HoldIsUnique(r, held, vi);
    }
  }

  /** A comm fault holds its own instrument, and comes first in key order. */
  lemma CommFaultHoldsFirst(r: Registry, live: set<Name>, counts: map<Name, int>, maxErrors: int, vi: Name, k: Key)
    requires KeysOwned(r) && CommAgrees(r, live, counts, maxErrors) && CommKey(vi) in r && IsHold(r, vi, k)
    ensures k == CommKey(vi)
  {
    assert r[CommKey(vi)].Holds(vi);
    assert KeyLeq(k, CommKey(vi));
    assert k.prefix == Comm;
    assert CommKey(k.name) == k;
    assert CommShape(r[k], k.name);
  }

  // ---- the active run -----------------------------------------------------------------------

  datatype ActiveRun = ActiveRun(
    procedure: Option<Procedure>, systemVis: set<Name>, claims: Option<set<Name>>,
    waitStarted: bool, waitStartTime: real, waitTime: real,
    standbyDispatched: bool, firstMeasurement: bool, fromEmergency: bool, manifestOpen: bool,
    prePauseState: State, pausedWaitElapsed: real, pauseRequested: bool, lastTargets: Targets)
  {
    predicate IsOperation() {
      procedure.Some? && procedure.value.operation
    }

    /** The VIs whose ramps the run owns; None asks the whole-station question. */
    function RampScope(): Option<set<Name>> {
      if procedure.None? then None else Some(systemVis)
    }

    /** check_ramps(), given the VIs that are still ramping. */
    predicate RampsDone(ramping: set<Name>) {
      if procedure.None? then ramping == {} else ramping * systemVis == {}
    }

    /** None of the ramps that the run waits for is still moving; without a run, none at all is. */
    ghost predicate Landed(ramping: set<Name>) {
      forall v :: v in ramping ==> procedure.Some? && v !in systemVis
    }

    /** A run that names no claims claims everything. */
    predicate Claims(vi: Name): (claimed: bool)
      ensures procedure.None? ==> !claimed
      ensures procedure.Some? && claims.None? ==> claimed
      ensures procedure.Some? && claims.Some? ==> (claimed <==> vi in claims.value)
    {
      procedure.Some? && (claims.None? || vi in claims.value)
    }

    /** The hold of a pause made the hardware forget the ramp that these states wait for. */
    predicate Resends() {
      prePauseState in {State.Initiating, State.Ramping, State.Standby} && lastTargets != map[]
    }

    /** How long the point has been settling; a clock not yet started starts now. */
    function Waited(now: real): real {
      if waitStarted then now - waitStartTime else 0.0
    }

    /** The start of a procedure, once nothing in it has raised. */
    function StartedOn(p: Procedure, s: Setup): ActiveRun {
      this.(procedure := Some(p), claims := p.claims, systemVis := s.targets.Keys, lastTargets := s.targets,
            standbyDispatched := false, waitStarted := false, firstMeasurement := true, pauseRequested := false,
            waitTime := s.waitS, manifestOpen := true)
    }

    /** One more tick of settling: the clock runs, or it has run long enough. */
    function Settling(now: real): ActiveRun {
      if Waited(now) >= waitTime
      then this.(waitStarted := false, firstMeasurement := false,
                 waitStartTime := if waitStarted then waitStartTime else now)
      else if waitStarted then this else this.(waitStarted := true, waitStartTime := now)
    }

    /** On the way to the next point: the run owns the ramps of its VIs too. */
    function Stepped(targets: Targets, waitS: real): ActiveRun {
      this.(systemVis := systemVis + targets.Keys, lastTargets := targets, waitTime := waitS)
    }

    /** Paused in state `s`, with the time its point has settled so far. */
    function PausedFrom(s: State, now: real): ActiveRun {
      this.(pauseRequested := false, prePauseState := s,
            pausedWaitElapsed := if waitStarted then now - waitStartTime else pausedWaitElapsed)
    }

    /** Resumed: the clock goes on from where it was frozen. */
    function ResumedAt(now: real): ActiveRun {
      if waitStarted then this.(waitStartTime := now - pausedWaitElapsed) else this
    }

    /** The VIs whose holds fail the run: those it has sent targets to and those it claims by name. */
    function Watched(): set<Name> {
      systemVis + if claims.Some? then claims.value else {}
    }

    ghost function Tolerated(): set<Name> {
      if IsOperation() then procedure.value.tolerated else {}
    }

    /** Nothing of a run is left. */
    predicate Vacant() {
      procedure.None? && claims.None? && systemVis == {} && !standbyDispatched && !pauseRequested && !manifestOpen
    }
  }

  /** What change_sweep_step() answers: an operation that was asked to finish has no next point. */
  ghost function StepFor(r: ActiveRun, input: TickInput): StepAnswer {
    if r.IsOperation() && input.finishRequested then NoMorePoints else input.step
  }

  function AnswerOf(a: StepAnswer): RunLog.Answer {
    match a
    case NextPoint(_, _, _) => RunLog.More
    case NoMorePoints => RunLog.NoMore
    case StepRaises => RunLog.Raised
  }

  const NO_RUN := ActiveRun(None, {}, None, false, 0.0, 0.0, false, true, false, false, Idle, 0.0, false, map[])

  function Effective(s: State, r: ActiveRun): State {
    if s.Paused? then r.prePauseState else s
  }

  /** A run can be torn down from here, whatever step it is in the middle of. */
  ghost predicate Abortable(r: ActiveRun, l: RunLog.Ledger) {
    && l.Ledger?
    && if r.procedure.None? then r.Vacant() && l.phase == RunLog.NoRun
       else l.operation == r.IsOperation() && if r.manifestOpen then RunLog.InRun(l.phase) else l.phase == RunLog.Setup
  }

  /** State, run record and log agree: what holds at every boundary between two calls. */
  ghost predicate RunInv(s: State, r: ActiveRun, gates: nat, l: RunLog.Ledger) {
    && l.Ledger?
    && if r.procedure.None? then r.Vacant() && l.phase == RunLog.NoRun && s in {Idle, Error, Emergency, Ramping}
       else
         && s !in {Idle, Error, Emergency} && r.manifestOpen && l.operation == r.IsOperation()
         && (r.pauseRequested ==> s in {Measuring, Sweeping})
         && PhaseFits(s, r, gates, l) && ClockFits(s, r, l)
  }

  ghost predicate PhaseFits(s: State, r: ActiveRun, gates: nat, l: RunLog.Ledger)
    requires l.Ledger?
  {
    && l.paused == s.Paused?
    && (r.standbyDispatched ==> Effective(s, r).Standby?)
    && match Effective(s, r) {
         case Initiating => l.phase == RunLog.Ramping
         case Ramping => l.phase == RunLog.Ramping
         case InitiationGate => gates > 0 && l.phase == RunLog.Gating(gates)
         case ReadingGate => gates > 0 && l.phase == RunLog.Gating(gates)
         case Measuring => l.phase == RunLog.Cleared && !s.Paused?
         case Sweeping => l.phase == RunLog.Measured
         case Standby => if r.standbyDispatched then l.phase == RunLog.Parked && !l.operation
           else l.phase == RunLog.Exhausted
         case _ => false
       }
  }

  /** The phase of a run with so many gates still to pass. */
  function GatePhase(left: nat): RunLog.Phase {
    if left == 0 then RunLog.Cleared else RunLog.Gating(left)
  }

  ghost predicate ClockFits(s: State, r: ActiveRun, l: RunLog.Ledger)
    requires l.Ledger?
  {
    match l.clock
    case Off => !r.waitStarted
    case Running(since, banked) => r.waitStarted && !s.Paused? && r.waitStartTime == since - banked
    case Frozen(banked) => r.waitStarted && s.Paused? && r.pausedWaitElapsed == banked
  }

  // ---- what one tick does -------------------------------------------------------------------

  /** How a tick went: its verdict ended the run, something in it raised, or it ran through. */
  datatype Course = Cut | Raised | Completed

  /** A state whose run a held instrument can fail. */
  predicate Active(s: State) {
    s !in {Idle, State.Paused, Error, Emergency}
  }

  /** The verdict ends the run: EMERGENCY, or an active run depends on a held VI. In EMERGENCY there
      is nothing to end. */
  ghost predicate Cuts(s: State, r: ActiveRun, seen: Registry, held: map<Name, Condition>, breached: bool) {
    && !s.Emergency?
    && (AnyCritical(seen) || breached || FailsRun(s, r, held))
  }

  /** Exactly what it takes for the state machine to raise; `gatesRaise`: a pending gate does. */
  ghost predicate Raises(s: State, r: ActiveRun, envelope: Option<Envelope>, input: TickInput, gatesRaise: bool) {
    match s
    case Idle => input.idleRampFault || (input.idleRamping != {} && input.rampFault)
    case Ramping => input.rampFault || (r.procedure.Some? && r.Landed(input.ramping) && !input.gatesOk)
    case InitiationGate => input.rampFault || (gatesRaise && !(r.IsOperation() && input.finishRequested))
    case ReadingGate => input.rampFault || (gatesRaise && !(r.IsOperation() && input.finishRequested))
    case Measuring => input.rampFault || !input.measureOk || !input.progressOk
    case Sweeping => input.rampFault || (!r.pauseRequested && StepCallRaises(StepFor(r, input), envelope))
    case Standby => ParkCallRaises(r, envelope, input)
    case _ => false
  }

  /** What a tick that runs through sends to the hardware, and whose ramps it holds. */
  ghost predicate HwMoved(s: State, r: ActiveRun, hw: seq<HwEvent>, hw': seq<HwEvent>, envelope: Option<Envelope>,
          input: TickInput)
  {
    match s
    case Ramping =>
      hw' == hw + if r.IsOperation() && input.skipRamp then [HeldRamps(Some(r.systemVis))] else []
    case Sweeping =>
      hw' == hw + if r.pauseRequested then [HeldRamps(Some(r.systemVis))] else SentOn(r, envelope, input)
    case Standby =>
      if r.IsOperation() || (r.Landed(input.ramping) && r.standbyDispatched) then hw + Parked(r, envelope, input) <= hw'
      else hw' == hw + if r.Landed(input.ramping) then Parked(r, envelope, input) else []
    case _ => hw' == hw
  }

  /** The plan of the next point, if there is one. */
  ghost function SentOn(r: ActiveRun, envelope: Option<Envelope>, input: TickInput): seq<HwEvent> {
    var step := StepFor(r, input);
    if step.NextPoint? then [Commanded(Stepping, step.targets, envelope)] else []
  }

  /** The plan that parks, unless the run has parked already. */
  ghost function Parked(r: ActiveRun, envelope: Option<Envelope>, input: TickInput): seq<HwEvent> {
    if !r.standbyDispatched && input.park.Parks? then [Commanded(Parking, input.park.targets, envelope)] else []
  }

  /** An operation that raises in standby() still finishes; only what its plan sends may raise. */
  ghost predicate ParkCallRaises(r: ActiveRun, envelope: Option<Envelope>, input: TickInput) {
    if r.IsOperation() then input.park.Parks? && !Sent(input.park, envelope)
    else input.rampFault || (r.Landed(input.ramping) && !r.standbyDispatched && !Sent(input.park, envelope))
  }

  /** standby() returns, and everything it asks for is sent. */
  ghost predicate Sent(park: ParkAnswer, envelope: Option<Envelope>) {
    park.Parks? && Allowed(envelope, park.targets) && park.dispatchOk && park.commandsOk
  }

  ghost predicate StepCallRaises(a: StepAnswer, envelope: Option<Envelope>) {
    a.StepRaises? || (a.NextPoint? && !(Allowed(envelope, a.targets) && a.dispatchOk))
  }

  /** The one transition of a tick that runs through, state by state; `left` gates are still pending
      after it. What a gate state adds to the log is said of the gates themselves. */
  ghost predicate MovedOn(s: State, r: ActiveRun, log: seq<RunLog.Event>, s': State, r': ActiveRun,
          log': seq<RunLog.Event>, left: nat, input: TickInput, now: real)
  {
    match s
    case Idle => s' == (if input.idleRamping == {} || input.ramping == {} then Idle else Ramping)
      && r' == r && log' == log
    case Initiating => s' == Ramping && r' == r && log' == log
    case Ramping => RampMoved(r, log, s', r', log', left, input, now)
    case InitiationGate => GateMoved(s, r, log, s', r', log', left, input)
    case ReadingGate => GateMoved(s, r, log, s', r', log', left, input)
    case Measuring => s' == Sweeping && r' == r && log' == log + [RunLog.Measure(true)]
    case Sweeping => StepMoved(r, log, s', r', log', input, now)
    case Standby => ParkMoved(r, log, s', r', log', input)
    case _ => s' == s && r' == r && log' == log
  }

  ghost predicate RampMoved(r: ActiveRun, log: seq<RunLog.Event>, s': State, r': ActiveRun, log': seq<RunLog.Event>,
          left: nat, input: TickInput, now: real)
  {
    if !r.Landed(input.ramping) then s' == Ramping && r' == r && log' == log
    else if r.procedure.None? then s' == Idle && r' == r && log' == log
    else if input.gates != [] then
      && s' == (if r.firstMeasurement then InitiationGate else ReadingGate)
      && r' == r && log' == log + [RunLog.GatesOpened(|input.gates|)] && left == |input.gates|
    else
      && s' == (if r.Waited(now) >= r.waitTime then Measuring else Ramping)
      && r' == r.Settling(now)
      && log' == log + (if r.waitStarted then [] else [RunLog.WaitStarted(now)])
                     + (if s'.Measuring? then [RunLog.Settled(now, r.waitTime)] else [])
  }

  ghost predicate GateMoved(s: State, r: ActiveRun, log: seq<RunLog.Event>, s': State, r': ActiveRun,
          log': seq<RunLog.Event>, left: nat, input: TickInput)
  {
    if r.IsOperation() && input.finishRequested
    then s' == Standby && r' == r && log' == log + [RunLog.GatesAbandoned]
    else
      && s' == (if left == 0 then Measuring else s)
      && r' == (if left == 0 then r.(firstMeasurement := false) else r)
  }

  ghost predicate StepMoved(r: ActiveRun, log: seq<RunLog.Event>, s': State, r': ActiveRun, log': seq<RunLog.Event>,
          input: TickInput, now: real)
  {
    if r.pauseRequested then
      s' == State.Paused && r' == r.PausedFrom(Sweeping, now) && log' == log + [RunLog.Paused(now)]
    else
      var step := StepFor(r, input);
      && s' == (if step.NextPoint? then Ramping else Standby)
      && r' == (if step.NextPoint? then r.Stepped(step.targets, step.waitS) else r)
      && log' == log + [RunLog.Step(AnswerOf(step))]
  }

  /** A procedure waits for its ramps, calls standby() once, waits again and ends; an operation parks
      and ends at once, in EMERGENCY if it came from there. Where a run ends, the next one may start. */
  ghost predicate ParkMoved(r: ActiveRun, log: seq<RunLog.Event>, s': State, r': ActiveRun, log': seq<RunLog.Event>,
          input: TickInput)
  {
    if r.IsOperation() then
      && log + [RunLog.Standby, RunLog.Finished(RunLog.Done)] <= log'
      && s' in {Idle, Initiating, Error, Emergency} && (r.fromEmergency ==> s' == Emergency)
    else if !r.Landed(input.ramping) then s' == State.Standby && r' == r && log' == log
    else if !r.standbyDispatched then
      && s' == State.Standby && log' == log + [RunLog.Standby]
      && input.park.Parks? && r' == r.(standbyDispatched := true, lastTargets := input.park.targets)
    else log + [RunLog.Finished(RunLog.Done)] <= log' && s' in {Idle, Initiating, Error}
  }

  /** A run ends once its own ramps are done. The ramps that its parking plan started are then done
      too, whatever else is moving, if and only if that plan names no VI outside the run's scope. */
  lemma ParkingIsWaitedForIff(r: ActiveRun)
    requires r.procedure.Some?
    ensures (forall ramping: set<Name> :: r.Landed(ramping) ==> ramping !! r.lastTargets.Keys) <==>
      r.lastTargets.Keys <= r.systemVis
  {
    var strays := r.lastTargets.Keys - r.systemVis;
    assert r.Landed(strays);
    if v :| v in r.lastTargets && v !in r.systemVis {
      assert v in strays && v in r.lastTargets.Keys;
    } else {
      forall ramping: set<Name>, v | r.Landed(ramping) && v in ramping ensures v !in r.lastTargets {
        assert v in r.systemVis ==> v in ramping * r.systemVis;
      }
    }
  }

  lemma LandedMeansDone(r: ActiveRun, ramping: set<Name>)
    ensures r.Landed(ramping) <==> r.RampsDone(ramping)
  {
    if v :| v in ramping && !(r.procedure.Some? && v !in r.systemVis) {
      assert v in ramping && (r.procedure.Some? ==> v in ramping * r.systemVis);
    }
  }

  lemma RunInvIsAbortable(s: State, r: ActiveRun, gates: nat, l: RunLog.Ledger)
    requires RunInv(s, r, gates, l)
    ensures Abortable(r, l)
  {
  }

  lemma AtHome(s: State, r: ActiveRun, gates: nat, l: RunLog.Ledger)
    requires RunInv(s, r, gates, l) && s in {Idle, Error, Emergency}
    ensures r.procedure.None?
  {
  }

  lemma InFlight(s: State, r: ActiveRun, gates: nat, l: RunLog.Ledger)
    requires RunInv(s, r, gates, l) && s !in {Idle, Error, Emergency, Ramping}
    ensures r.procedure.Some? && r.manifestOpen && l.Ledger?
  {
  }

  /** initiate() was called; the run is reported started once all of its plan is out. */
  lemma SetupTaken(r: ActiveRun, l: RunLog.Ledger)
    requires r.procedure.Some? && l == RunLog.Ledger(RunLog.Setup, r.IsOperation(), false, RunLog.Off)
    requires !r.pauseRequested && !r.standbyDispatched && !r.waitStarted
    ensures r.manifestOpen ==> RunInv(Initiating, r, 0, RunLog.Accept(l, RunLog.Started))
    ensures !r.manifestOpen ==> Abortable(r, l)
  {
  }

  /** A step was called; whatever its plan then raises, the run can be torn down. */
  lemma StepTaken(r: ActiveRun, r': ActiveRun, gates: nat, l: RunLog.Ledger)
    requires RunInv(Sweeping, r, gates, l) && !r.pauseRequested
    requires r' == r.(systemVis := r'.systemVis, lastTargets := r'.lastTargets, waitTime := r'.waitTime)
    ensures var after := RunLog.Accept(l, RunLog.Step(RunLog.More));
      Abortable(r', after) && RunInv(Ramping, r', gates, after)
  {
  }

  /** standby() was called. */
  lemma StandbyTaken(r: ActiveRun, r': ActiveRun, gates: nat, l: RunLog.Ledger)
    requires RunInv(State.Standby, r, gates, l) && (r.IsOperation() || !r.standbyDispatched)
    requires r' == r.(standbyDispatched := r'.standbyDispatched, lastTargets := r'.lastTargets)
    ensures var after := RunLog.Accept(l, RunLog.Standby);
      && Abortable(r', after) && after.phase == RunLog.Parked && !after.paused
      && (r'.standbyDispatched && !r'.IsOperation() ==> RunInv(State.Standby, r', gates, after))
  {
  }

  /** change_sweep_step() found no next point, or raised. */
  lemma SweepEnds(r: ActiveRun, gates: nat, l: RunLog.Ledger)
    requires RunInv(Sweeping, r, gates, l) && !r.pauseRequested
    ensures RunInv(State.Standby, r, gates, RunLog.Accept(l, RunLog.Step(RunLog.NoMore)))
    ensures Abortable(r, RunLog.Accept(l, RunLog.Step(RunLog.Raised)))
  {
  }

  /** The gates were polled, and so many are left. */
  lemma GatesTaken(s: State, r: ActiveRun, gates: nat, l: RunLog.Ledger)
    requires RunInv(s, r, gates, l) && s in {InitiationGate, ReadingGate}
    ensures gates > 0 && r.procedure.Some? && l.Ledger? && !l.paused && l.phase == GatePhase(gates)
    ensures forall left: nat :: Abortable(r, l.(phase := GatePhase(left)))
    ensures forall left: nat :: left > 0 ==> RunInv(s, r, left, l.(phase := GatePhase(left)))
    ensures RunInv(Measuring, r.(firstMeasurement := false), 0, l.(phase := GatePhase(0)))
  {
  }

  /** A parked run is reported done. */
  lemma RunDone(r: ActiveRun, s: State, gates: nat, l: RunLog.Ledger)
    requires l.Ledger? && l.phase == RunLog.Parked && !l.paused && r.Vacant() && s in {Idle, Emergency}
    ensures RunInv(s, r, gates, RunLog.Accept(l, RunLog.Finished(RunLog.Done)))
  {
  }

  /** A pending pause, and the targets to send again, may be forgotten. */
  lemma PauseForgotten(s: State, r: ActiveRun, gates: nat, l: RunLog.Ledger)
    requires RunInv(s, r, gates, l)
    ensures RunInv(s, r.(pauseRequested := false), gates, l)
    ensures forall targets :: RunInv(s, r.(lastTargets := targets), gates, l) || r.procedure.None?
    ensures s.Paused? ==> !r.pauseRequested && r.procedure.Some? && r.prePauseState != Emergency
    ensures r.procedure.Some? ==> s != Emergency
  {
  }

  lemma PauseTaken(s: State, r: ActiveRun, gates: nat, l: RunLog.Ledger, now: real)
    requires RunInv(s, r, gates, l) && r.procedure.Some? && s !in {Measuring, State.Paused}
    ensures RunInv(State.Paused, r.PausedFrom(s, now), gates, RunLog.Accept(l, RunLog.Paused(now)))
  {
  }

  // ---- the override windows -----------------------------------------------------------------

  /** The override windows are exactly the acknowledgements that are still live. */
  ghost predicate AccessInv(emergencyUntil: Option<real>, holdUntil: map<Key, real>, l: AccessLog.Ledger, clock: real,
          timeout: real)
  {
    && l.Ledger? && !l.shutdownDue
    && (emergencyUntil.Some? <==> l.emergencyAck.Some?)
    && (emergencyUntil.Some? ==> emergencyUntil.value == l.emergencyAck.value + timeout)
    && (forall k :: k in holdUntil ==> k in l.keyAcks && holdUntil[k] == l.keyAcks[k] + timeout)
    && (forall k :: k in l.keyAcks && clock < l.keyAcks[k] + timeout ==> k in holdUntil)
    && (l.emergencyAck.Some? ==> l.emergencyAck.value <= clock)
    && (forall k :: k in l.keyAcks ==> l.keyAcks[k] <= clock)
  }

  /** The windows that have not run out. */
  ghost function OpenAt(untils: map<Key, real>, now: real): map<Key, real> {
    map k | k in untils && now < untils[k] :: untils[k]
  }

  /** Windows that have run out may be forgotten; nothing that is open is. */
  lemma PruningKeepsWindows(emergencyUntil: Option<real>, holdUntil: map<Key, real>, pruned: map<Key, real>,
          l: AccessLog.Ledger, clock: real, timeout: real)
    requires AccessInv(emergencyUntil, holdUntil, l, clock, timeout)
    requires pruned == map k | k in holdUntil && clock < holdUntil[k] :: holdUntil[k]
    ensures AccessInv(emergencyUntil, pruned, l, clock, timeout)
    ensures forall k :: KeyStillOpen(pruned, k, clock) <==> KeyStillOpen(holdUntil, k, clock)
  {
  }

  lemma AcknowledgementOpensWindows(emergencyUntil: Option<real>, holdUntil: map<Key, real>, l: AccessLog.Ledger,
          clock: real, timeout: real, keys: set<Key>)
    requires AccessInv(emergencyUntil, holdUntil, l, clock, timeout)
    ensures AccessInv(emergencyUntil, holdUntil + map k | k in keys :: clock + timeout,
                      AccessLog.Accept(l, AccessLog.Acknowledged(clock, keys), timeout), clock, timeout)
  {
  }

  predicate StillOpen(until: Option<real>, now: real) {
    until.Some? && now < until.value
  }

  predicate KeyStillOpen(untils: map<Key, real>, k: Key, now: real) {
    k in untils && now < untils[k]
  }

  function ModeOf(s: State, r: ActiveRun): AccessLog.Mode {
    match s
    case Idle => AccessLog.Quiet
    case Emergency => AccessLog.InEmergency
    case Error => AccessLog.InError
    case _ => if s.Ramping? && r.procedure.None? then AccessLog.Quiet else AccessLog.Running
  }

  /** The facts an admission is judged on. */
  ghost function FactsOf(s: State, r: ActiveRun, conditions: Registry, vi: Name): AccessLog.Facts {
    AccessLog.Facts(ModeOf(s, r), CommKey(vi) in conditions, HoldOf(conditions, vi), r.Claims(vi))
  }

  /** The records of those queued actions that are admitted, in order. */
  ghost function Admissions(queue: seq<Name>, s: State, r: ActiveRun, conditions: Registry, now: real,
          l: AccessLog.Ledger, timeout: real): seq<AccessLog.Event>
  {
    if queue == [] then []
    else
      var vi := queue[|queue| - 1];
      var facts := FactsOf(s, r, conditions, vi);
      Admissions(queue[..|queue| - 1], s, r, conditions, now, l, timeout)
      + if AccessLog.Justified(l, now, facts, timeout) then [AccessLog.Admitted(vi, now, facts)] else []
  }

  /** A VI that is not held does not have a comm fault either. */
  lemma NotHeldResponds(conditions: Registry, held: map<Name, Condition>, live: set<Name>, counts: map<Name, int>,
          maxErrors: int, vi: Name)
    requires HoldMap(conditions, held) && CommAgrees(conditions, live, counts, maxErrors) && vi !in held
    ensures CommKey(vi) !in conditions && HoldOf(conditions, vi).None?
  {
    HoldOfHeld(conditions, held, vi);
    assert forall v :: CommKey(v) in conditions ==> conditions[CommKey(v)].Holds(v);
  }

  /** During a run, and with none of them held, no queued action is admitted if and only if the run
      claims every VI that is asked for. */
  lemma {:induction false} ClaimsDecide(queue: seq<Name>, s: State, r: ActiveRun, conditions: Registry,
          held: map<Name, Condition>, live: set<Name>, counts: map<Name, int>, maxErrors: int, now: real,
          l: AccessLog.Ledger, timeout: real)
    requires r.procedure.Some? && s !in {Idle, Error, Emergency} && forall vi :: vi in queue ==> vi !in held
    requires HoldMap(conditions, held) && CommAgrees(conditions, live, counts, maxErrors)
    ensures Admissions(queue, s, r, conditions, now, l, timeout) == [] <==> forall vi :: vi in queue ==> r.Claims(vi)
  {
    hide HoldOf, HoldMap, CommAgrees;
    if queue != [] {
      var before, vi := queue[..|queue| - 1], queue[|queue| - 1];
      ClaimsDecide(before, s, r, conditions, held, live, counts, maxErrors, now, l, timeout);
      NotHeldResponds(conditions, held, live, counts, maxErrors, vi);
      assert queue == before + [vi];
    }
  }

  // ---- hold enforcement ---------------------------------------------------------------------

  ghost predicate HoldInv(last: map<Name, real>, attempts: map<Name, nat>, escalated: set<Name>, l: HoldLog.Ledger,
          clock: real)
  {
    && l == HoldLog.Ledger(last, attempts, escalated)
    && escalated <= attempts.Keys && attempts.Keys <= last.Keys
    && forall v :: v in last ==> last[v] <= clock
  }

  /** The instrument was last sent to standby less than an interval ago, or just now. */
  predicate RecentlyEnforced(last: map<Name, real>, vi: Name, now: real, intervalS: real) {
    vi in last && (now - last[vi] < intervalS || last[vi] == now)
  }

  predicate MustBeStandby(hold: Key, live: bool, overrides: map<Key, real>, status: StandbyStatus, now: real) {
    live && !KeyStillOpen(overrides, hold, now) && !status.AtOrNearStandby?
  }

  /** Of the given held instruments, each that is registered, not overridden and away from standby
      has been recently enforced; records exist for held instruments only. */
  ghost predicate Enforced(held: map<Name, Condition>, done: set<Name>, overrides: map<Key, real>, live: set<Name>,
          status: Name -> StandbyStatus, last: map<Name, real>, now: real, intervalS: real)
  {
    && last.Keys <= held.Keys
    && (forall vi :: vi in done && vi in held && MustBeStandby(held[vi].key, vi in live, overrides, status(vi), now) ==>
          RecentlyEnforced(last, vi, now, intervalS))
  }

  /** What is known of the instruments that are being sent to standby, and what was noted of them. */
  datatype HoldRecord = HoldRecord(last: map<Name, real>, attempts: map<Name, nat>, log: seq<HoldLog.Event>)

  /** A held instrument that is not to be touched: it is not live, or its hold was acknowledged and the
      window is still open. */
  ghost predicate OutOfReach(held: map<Name, Condition>, overrides: map<Key, real>, live: set<Name>, now: real,
          vi: Name)
  {
    vi in held && (vi !in live || (held[vi].key in overrides && now < overrides[held[vi].key]))
  }

  ghost predicate SameRecord(before: HoldRecord, after: HoldRecord, vi: Name) {
    && (vi in after.last <==> vi in before.last) && (vi in before.last ==> after.last[vi] == before.last[vi])
    && (vi in after.attempts <==> vi in before.attempts)
    && (vi in before.attempts ==> after.attempts[vi] == before.attempts[vi])
  }

  /** Instruments out of reach are left alone: their records stand, and nothing is noted of them.
      Whatever is attempted is attempted now, on a held instrument. */
  ghost predicate LeftAlone(held: map<Name, Condition>, overrides: map<Key, real>, live: set<Name>, now: real,
          acks: nat, before: HoldRecord, after: HoldRecord)
  {
    && before.log <= after.log
    && (forall vi :: OutOfReach(held, overrides, live, now, vi) ==> SameRecord(before, after, vi))
    && (forall i :: |before.log| <= i < |after.log| ==> !OutOfReach(held, overrides, live, now, after.log[i].vi))
    && (forall i :: |before.log| <= i < |after.log| && after.log[i].Attempt? ==>
          var e := after.log[i]; e.at == now && e.acks == acks && e.vi in held && e.hold == held[e.vi].key)
  }

  /** Every held instrument was looked after, and those out of reach were left alone. */
  ghost predicate Tended(held: map<Name, Condition>, overrides: map<Key, real>, live: set<Name>,
          status: Name -> StandbyStatus, now: real, intervalS: real, acks: nat, before: HoldRecord, after: HoldRecord)
  {
    && Enforced(held, held.Keys, overrides, live, status, after.last, now, intervalS)
    && LeftAlone(held, overrides, live, now, acks, before, after)
  }

  /** Expired windows make no difference. */
  lemma TendedUnder(held: map<Name, Condition>, overrides: map<Key, real>, pruned: map<Key, real>, live: set<Name>,
          status: Name -> StandbyStatus, now: real, intervalS: real, acks: nat, before: HoldRecord, after: HoldRecord)
    requires forall k :: KeyStillOpen(pruned, k, now) <==> KeyStillOpen(overrides, k, now)
    requires Tended(held, pruned, live, status, now, intervalS, acks, before, after)
    ensures Tended(held, overrides, live, status, now, intervalS, acks, before, after)
  {
    hide SameRecord, RecentlyEnforced;
    forall vi ensures OutOfReach(held, overrides, live, now, vi) <==> OutOfReach(held, pruned, live, now, vi) {
      assert vi in held ==>
        (KeyStillOpen(pruned, held[vi].key, now) <==> KeyStillOpen(overrides, held[vi].key, now));
    }
  }

  lemma NobodyTended(held: map<Name, Condition>, overrides: map<Key, real>, live: set<Name>, now: real, acks: nat,
          r: HoldRecord)
    ensures LeftAlone(held, overrides, live, now, acks, r, r)
  {
  }

  /** One more instrument was visited, and only its own record changed. */
  lemma OneMoreTended(held: map<Name, Condition>, overrides: map<Key, real>, live: set<Name>, now: real, acks: nat,
          before: HoldRecord, mid: HoldRecord, after: HoldRecord, vi: Name)
    requires LeftAlone(held, overrides, live, now, acks, before, mid) && !OutOfReach(held, overrides, live, now, vi)
    requires mid.log <= after.log && forall i :: |mid.log| <= i < |after.log| ==> after.log[i].vi == vi
    requires after.last - {vi} == mid.last - {vi} && after.attempts - {vi} == mid.attempts - {vi}
    requires forall i :: |mid.log| <= i < |after.log| && after.log[i].Attempt? ==>
      after.log[i].at == now && after.log[i].acks == acks && vi in held && after.log[i].hold == held[vi].key
    ensures LeftAlone(held, overrides, live, now, acks, before, after)
  {
    forall w | OutOfReach(held, overrides, live, now, w) ensures SameRecord(before, after, w) {
      assert SameRecord(before, mid, w);
      assert w in after.last - {vi} <==> w in mid.last - {vi};
      assert w in after.attempts - {vi} <==> w in mid.attempts - {vi};
    }
    forall i | |before.log| <= i < |after.log|
      ensures !OutOfReach(held, overrides, live, now, after.log[i].vi)
      ensures after.log[i].Attempt? ==>
        var e := after.log[i]; e.at == now && e.acks == acks && e.vi in held && e.hold == held[e.vi].key
    {
      if i < |mid.log| {
        assert after.log[i] == mid.log[i];
      }
    }
  }

  /** The attempt enforced the least-key hold of its instrument, by the conditions of that moment, and
      that hold was not acknowledged then, or no longer. */
  ghost predicate Warranted(e: HoldLog.Event, access: seq<AccessLog.Event>, history: seq<Moment>, timeout: real)
    requires e.Attempt?
  {
    && e.acks <= |access| && 0 < e.moment <= |history|
    && history[e.moment - 1].at == e.at && IsHold(history[e.moment - 1].registry, e.vi, e.hold)
    && AccessLog.Lapsed(AccessLog.Replay(access[..e.acks], timeout), e.hold, e.at, timeout)
  }

  ghost predicate AllWarranted(log: seq<HoldLog.Event>, access: seq<AccessLog.Event>, history: seq<Moment>,
          timeout: real)
  {
    forall i :: 0 <= i < |log| && log[i].Attempt? ==> Warranted(log[i], access, history, timeout)
  }

  /** What was warranted stays so while the other logs grow. */
  lemma WarrantsStand(log: seq<HoldLog.Event>, access: seq<AccessLog.Event>, access': seq<AccessLog.Event>,
          history: seq<Moment>, history': seq<Moment>, timeout: real)
    requires AllWarranted(log, access, history, timeout) && access <= access' && history <= history'
    ensures AllWarranted(log, access', history', timeout)
  {
    hide IsHold, AccessLog.Lapsed, AccessLog.Replay;
    forall i | 0 <= i < |log| && log[i].Attempt? ensures Warranted(log[i], access', history', timeout) {
      assert Warranted(log[i], access, history, timeout);
      assert access'[..log[i].acks] == access[..log[i].acks];
    }
  }

  lemma WarrantedNow(vi: Name, at: real, hold: Key, access: seq<AccessLog.Event>, history: seq<Moment>, timeout: real)
    requires history != [] && history[|history| - 1].at == at && IsHold(history[|history| - 1].registry, vi, hold)
    requires AccessLog.Lapsed(AccessLog.Replay(access, timeout), hold, at, timeout)
    ensures Warranted(HoldLog.Attempt(vi, at, hold, |access|, |history|), access, history, timeout)
  {
    assert access[..|access|] == access;
  }

  /** Outside an open window, no acknowledgement of the condition is live. */
  lemma ClosedIsLapsed(emergencyUntil: Option<real>, holdUntil: map<Key, real>, l: AccessLog.Ledger, clock: real,
          timeout: real, key: Key)
    requires AccessInv(emergencyUntil, holdUntil, l, clock, timeout) && !KeyStillOpen(holdUntil, key, clock)
    ensures AccessLog.Lapsed(l, key, clock, timeout)
  {
  }

  lemma NoneDone(held: map<Name, Condition>, overrides: map<Key, real>, live: set<Name>, status: Name -> StandbyStatus,
          last: map<Name, real>, now: real, intervalS: real)
    requires last.Keys <= held.Keys
    ensures Enforced(held, held.Keys - held.Keys, overrides, live, status, last, now, intervalS)
  {
  }

  lemma OneMoreEnforced(held: map<Name, Condition>, done: set<Name>, overrides: map<Key, real>, live: set<Name>,
          status: Name -> StandbyStatus, before: map<Name, real>, last: map<Name, real>, now: real, intervalS: real,
          vi: Name)
    requires Enforced(held, done, overrides, live, status, before, now, intervalS)
    requires vi in held && last - {vi} == before - {vi}
    requires MustBeStandby(held[vi].key, vi in live, overrides, status(vi), now) ==>
      RecentlyEnforced(last, vi, now, intervalS)
    ensures Enforced(held, done + {vi}, overrides, live, status, last, now, intervalS)
  {
    forall w | w in last ensures w in held {
      assert w != vi ==> w in (last - {vi});
    }
    forall w | w in before && w != vi ensures w in last && last[w] == before[w] {
      assert w in (before - {vi});
    }
  }
}
