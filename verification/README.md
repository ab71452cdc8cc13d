# CryoSoft control core, modelled in Dafny

CryoSoft controls a cryostat: magnets, temperature controllers and measurement instruments, each
behind a virtual instrument (VI). This project models the parts of `cryosoft/core` on which the safety
of the hardware and the correctness of the recorded data rest, and proves what they guarantee over
every history of calls, every file and every input.

`dafny verify dfyconfig.toml` checks the whole project.

## How to read it

* `Conditions`, `Station` — the System-Condition standard: one registry of conditions with three
  producers, reduced to a verdict; per-VI error counters; the sessions that instruments share.
* `Gates` — stability gates polled once a tick.
* `RunLog`, `AccessLog`, `HoldLog` — three referees. Each is a small automaton over a log of events
  that knows nothing of the Orchestrator's fields, with lemmas that say what an accepted log means in
  plain terms (which calls a run made, who was admitted and why, how often a held VI was sent home).
* `Machine`, `Orchestrator` — the 11-state machine as one class. Its methods append to ghost logs, and
  `Valid()` says that the referees accept them. `Handle` is any one call at any time, `Play` any
  sequence of them. `Tick` says which of the three ways a tick can go, when it must be cut short, and
  the one transition it makes otherwise. Everything an instrument or a procedure may answer (a poll, an
  exception, a standby status, a ramp still moving) is an input of the call, free to be anything. A
  fourth log records what was sent to the hardware, what was kept back and whose ramps were held.
* `Histories` — what therefore holds of every Orchestrator after any sequence of calls, and histories,
  tick by tick, in which the code does what its description rules out.
* `Statistics`, `TrendLogger`, `TrendReader`, `TrendSummary` — the trend store: buckets, backward
  reading, recombination; exact reals, with the variance standing for the square of the written std.
* `Recorder` — the decimating in-memory recording of operations.
* `SweepBuilder`, `Schema`, `DataFile`, `SweepRun`, `EndToEnd` — sweep arrays, the datapoint contract,
  the data file, the reading loop, and a whole run of the Orchestrator carried out on a sweep and its
  file: which rows the file holds afterwards, and what is in them.

The Orchestrator's run-scoped attributes are fields of one record, `ActiveRun`, held in one class
field; its other attributes are class fields of their own.

## Where the code and its own description part company

Each of these is a member of the project, with the exact condition under which the description holds.

* The admission rules say that ERROR always refuses. `Histories.HeldInstrumentIsAdmittedInError` is a
  history that ends in ERROR with an action admitted: the EMERGENCY override stays open through
  `run_operation()` and a failed setup. `AccessLog.ErrorAdmitsExactly` is the rule that holds.
* "Standby all" aborts a run in flight so that the standby actions run in IDLE; but the abort starts
  what is queued next. They run in IDLE if and only if no operation is queued, and no procedure either
  or a persistent magnet blocks it (`Orchestration.Orchestrator.SubmitGlobalAction`). If a queued
  procedure starts, then with none of the VIs held every action is refused if and only if it claims
  all of them (`Histories.GlobalStandbyMeetsTheQueue`, `Machine.ClaimsDecide`).
* The ramp scope is described as precisely the VIs the run has ever sent a setpoint to. It is, at any
  hold of a run's ramps, if and only if no plan that was kept back names another VI and neither does one
  that parks or is sent again (`Histories.EveryHoldIsOfItsOwnRamps`). `Histories.RefusedPlanIsHeld` is a history in
  which the ramp of a VI is stopped that was sent nothing.
* A run is described as waiting for the ramps that its standby() started. It does, whatever else is
  moving, if and only if they are all in its scope (`Machine.ParkingIsWaitedForIff`); in
  `Histories.ParkingIsNotWaitedFor` a run is done while its magnet is still on the way.
* With `max_vi_errors` set to 1, a stale or rebuilt instrument whose retry poll fails is recorded as
  stale at the disconnect threshold: `Stations.Station.RetryFault` and `Stations.Station.PollAfresh`
  prove that kind and counter agree then if and only if the threshold is above 1.
* `publish_conditions()` promises to leave other origins alone; it checks the origin of what it is
  given but not its key. `Stations.RefreshIsScopedIffNoCollision` is the exact condition.
* The wait clock of a point was started for that point if and only if no gate opened since it started
  (`RunLog.ClockBelongsToPoint`). `Histories.OldClockClearsNextPoint` is a history, tick by tick, in
  which a point that asks for 5 s of settling is read after one.
* A gate says it stays satisfied once it is. It does from one poll to the next if and only if its check
  still holds (`Gates.SatisfactionLasts`); but a gate that was passed is not polled again while others
  are waited for. When a point is read, the checks of all its gates were found holding at that moment
  if and only if every gate with a check was passed at that moment
  (`RunLog.HeldTogetherIffPassedTogether`); `Histories.EarlyGateIsNotAskedAgain` is a history in which
  one was passed earlier.
* A gate's window is wall-clock: it is served if and only if that much time has passed since the streak
  of holding polls began, polled or not (`Gates.WindowIsWallClock`); in
  `Histories.PauseServesTheWindow` nine of ten seconds of it are a pause of the run.
* A key is reported as never persisted if and only if no line within the newest 500 has it, whatever the
  window holds (`TrendSummary.NeverPersistedMeansNotRecently`); in
  `TrendSummary.PersistedKeyReportedNeverPersisted` a file holds a reading of the key inside the window.
* The recording's channels stay in step with its time axis, except when points without any channel
  came first: `Recorder.OperationRecording.RecordSample` has the exact condition,
  `Recorder.LateChannelIsOutOfStep` two samples that do it.
* A sweep segment's spacing may exceed the requested step, by less than half of it;
  `SweepBuilder.SpacingIsBounded` says exactly when it does not.
* The backward line reader misses an empty first line, and nothing else
  (`TrendReader.OnlyAnEmptyFirstLineIsMissed`).
* Reading a tier backwards with an early stop equals the forward filter if and only if no record of the
  window lies before an older one (`TrendReader.EarlyStopIsExact`).
* A queued procedure has left the queue and is lost if and only if a persistent-mode magnet blocks it
  (`Orchestration.Orchestrator.RunQueue`: the queue is shorter and the machine still idle).
* A file is trimmed to its saved rows if and only if it has any and fewer than all
  (`DataFile.DataManager.Close`).

## Model

| member | source | states |
|---|---|---|
| Conditions.Decide | cryosoft/core/conditions.py:158-213 | every held VI and no other is mapped to its least-key hold; the emergency list is every critical condition as often as given, in key order; the run failure is the first watched VI that is held |
| Conditions.VerdictIgnoresOrder | cryosoft/core/conditions.py:164-170 | any two arrangements of conditions with distinct keys get equal verdicts |
| Conditions.EmergencyIffCritical | cryosoft/core/conditions.py:196 | the emergency list is non-empty exactly when some condition is critical |
| Conditions.EnvelopeConditions | cryosoft/core/conditions.py:216-249 | one well-formed, critical, station-wide condition per breach, in order |
| Conditions.NameLeqIsStringOrder | cryosoft/core/conditions.py:179-196 | the order of names is the order of strings: a beginning comes first, else the first letter that differs decides |
| Conditions.KeyLeqIsTextOrder | cryosoft/core/conditions.py:179-196 | the order of keys is the string order of their whole texts, prefix included |
| Gates.Gate.Step | cryosoft/core/gates.py:68-91 | satisfied exactly when the action has run once and the check held at every poll over at least the window; a raising action leaves the gate as it was |
| Gates.Gate.CheckOnce | cryosoft/core/gates.py:93-114 | the action at most once, the check read once without its window |
| Gates.StreakIsLongest | cryosoft/core/gates.py:84-91 | the streak a window is measured on is the longest run of holding polls up to now |
| Gates.SatisfactionLasts | cryosoft/core/gates.py:71-91 | a satisfied gate is satisfied at its next poll if and only if its check holds there |
| Gates.WindowIsWallClock | cryosoft/core/gates.py:88-91 | a holding poll satisfies the gate if and only if the window has passed since the streak began, whether or not it was polled in between |
| Gates.HeldForIsThroughout | cryosoft/core/gates.py:84-91 | the window test of the gate is: from some poll at least the window ago, every poll held |
| RunLog.CallsFollowTheProtocol | cryosoft/core/orchestrator.py:2245-2401 | in every accepted log the calls of a run are a stage of initiate (measure step)* standby, with at most one abort, last; pauses change nothing of it |
| RunLog.DoneMeansWholeSweep | cryosoft/core/orchestrator.py:2595-2637 | a run reported done made every call of a whole sweep, no abort |
| RunLog.OtherwiseCutByOneAbort | cryosoft/core/orchestrator.py:2421-2465 | a run reported otherwise was ended by exactly one abort |
| RunLog.StartsAndFinishesAlternate | cryosoft/core/orchestrator.py:1713-1753 | at most one run is open at any moment; each start has exactly one finish before the next |
| RunLog.PausedTimeDoesNotCount | cryosoft/core/orchestrator.py:793-829 | the wait clock is the unpaused time since it started, whatever pauses came in between |
| RunLog.SettleIsServedInFull | cryosoft/core/orchestrator.py:2278-2289 | a point is cleared without gates only once the wait clock that is on has run its settle time, pauses not counted; whose clock that is, says RunLog.ClockBelongsToPoint |
| RunLog.ReadingsAreCleared | cryosoft/core/orchestrator.py:2262-2314 | a reading follows at once on its point's settle, or on the last gate, with every gate that was opened for the point passed |
| RunLog.GatesPassWhenHeld | cryosoft/core/orchestrator.py:2290-2314 | a gate is passed only if its check held at every poll over its window, up to a poll of that moment, with its action run exactly once |
| RunLog.HeldTogetherIffPassedTogether | cryosoft/core/orchestrator.py:2290-2314 | when a point is read, the newest poll of every gate passed for it is of that moment and holding, if and only if every gate with a check was passed at that moment |
| RunLog.ClockBelongsToPoint | cryosoft/core/orchestrator.py:2278-2289 | while a point settles, the running wait clock was started for it if and only if no gate opened since it started |
| AccessLog.EveryAdmissionIsJustified | cryosoft/core/orchestrator.py:1233-1354 | over a whole history: no comm-faulted VI admitted; a held one only under an acknowledgement less than the timeout old that no later EMERGENCY, nor the end of one, has closed; in EMERGENCY only one made since it began; a claimed VI only if it is held |
| AccessLog.ErrorAdmitsExactly | cryosoft/core/orchestrator.py:1303-1340 | in ERROR exactly the held, responding VIs under an open EMERGENCY override are admitted |
| AccessLog.OneShutdownPerEmergency | cryosoft/core/orchestrator.py:2693-2743 | every EMERGENCY entry is followed at once by its one standby for all, and there is no other |
| HoldLog.AttemptsAreSpaced | cryosoft/core/orchestrator.py:2935-2938 | any two standby attempts on one VI in one episode are at least the interval apart |
| HoldLog.EscalatesOncePerEpisode | cryosoft/core/orchestrator.py:2940-2956 | an escalation needs the allowed number of failures in the episode and happens once in it |
| HoldLog.FailuresAreCounted | cryosoft/core/orchestrator.py:2946-2947 | the failure count is the number of raising standbys since the last release |
| Stations.Station.UpsertCondition | cryosoft/core/station.py:859-886 | a known incident keeps its onset and acknowledgement, everything else is the newest report |
| Stations.Station.PublishConditions | cryosoft/core/station.py:917-964 | refused whole when a condition of another origin is given; else the origin's slice is exactly what was given |
| Stations.RefreshIsScopedIffNoCollision | cryosoft/core/station.py:953-964 | other origins are untouched if and only if no given key is theirs |
| Stations.SinceIsOnset | cryosoft/core/station.py:880-886 | in every history of a registry, since is the time of the step at which the present, unbroken presence of the condition began |
| Stations.Station.PublishTrend | cryosoft/core/station.py:917-964 | the trend producer moves the trend slice only, keeps onsets and stamps what is new |
| Stations.Station.AcknowledgeCondition | cryosoft/core/station.py:997-1023 | marks exactly the named condition, if there is one |
| Stations.Station.UpdateConditions | cryosoft/core/station.py:1512-1622 | the safety slice is exactly the conditions that this tick's flags, severities, concerns and tolerances call for; onsets are kept and new ones are now |
| Stations.Station.GetState | cryosoft/core/station.py:807-857 | after polling all: each VI has a comm condition exactly if it did not answer, a new one since now, an old one since its onset; its count is one more or zero; other conditions stand |
| Stations.Station.PollOne | cryosoft/core/station.py:819-851 | one poll: the condition is disconnected exactly from the threshold on |
| Stations.Station.OpenDrivers | cryosoft/core/station.py:484-510 | opens exactly what is missing, in order, up to the first alias that fails, keeps what is open, and loses track of no session |
| Stations.Station.Build | cryosoft/core/station.py:484-540 | a build that fails at any stage closes no session another live VI holds; a failed ping closes and forgets exactly the sessions that no other recipe names |
| Stations.Station.ReleaseDrivers | cryosoft/core/station.py:613-642 | closes exactly the sessions that the driver map has for the given aliases; spares other VIs whose recipes do not name them; no session leaks |
| Stations.Station.ConnectInstrument | cryosoft/core/station.py:451-543 | succeeds exactly when every stage does; names stay split between live and offline; other VIs keep their sessions |
| Stations.Station.DisconnectInstrument | cryosoft/core/station.py:545-611 | the VI goes offline and its comm condition is gone; of its open sessions exactly those that no other live VI's recipe names are closed and leave the driver map, the others stay as they are |
| Stations.Station.RetryFault | cryosoft/core/station.py:1076-1124 | stale: one poll with a fresh counter; disconnected: a rebuild that spares every other VI; kind and counter agree afterwards exactly when the threshold exceeds one error |
| Stations.Station.PollAfresh | cryosoft/core/station.py:1111-1124 | one poll with a fresh counter: recovered, or stale with one error, kind and counter agreeing exactly when the threshold exceeds one |
| Stations.Station.RetryDisconnected | cryosoft/core/station.py:1126-1199 | a rebuild either runs on open sessions, new ones wherever no other live VI's recipe names them, with the old ones closed, or leaves the VI with its disconnected condition |
| Stations.Station.FailDisconnectedRetry | cryosoft/core/station.py:1201-1219 | the VI stands at the threshold with its disconnected condition |
| Machine.CommFaultHoldsFirst | cryosoft/core/orchestrator.py:1301-1310 | the hold of a comm-faulted VI is its comm condition |
| Orchestration.Orchestrator.constructor | cryosoft/core/orchestrator.py:173-358 | a fresh machine is valid, idle, unmonitored, with empty logs |
| Orchestration.Orchestrator.StopMonitoring | cryosoft/core/orchestrator.py:394-426 | refused outside IDLE and ERROR |
| Orchestration.Orchestrator.DispatchTargets | cryosoft/core/orchestrator.py:659-675 | a plan is refused if and only if some target is below the lower or above the upper bound of its VI; then none of it is sent, and it is not remembered for a resume |
| Orchestration.Orchestrator.AbortActiveProcedure | cryosoft/core/orchestrator.py:2421-2465 | one abort call, the run's own ramps held, nothing of the run left |
| Orchestration.Orchestrator.TearDown | cryosoft/core/orchestrator.py:2639-2691 | abort, then one run_finished if and only if the run had been reported started |
| Orchestration.Orchestrator.EnterEmergency | cryosoft/core/orchestrator.py:2693-2743 | both override windows closed, the run torn down, one standby for all |
| Orchestration.Orchestrator.StartRun | cryosoft/core/orchestrator.py:586-640 | INITIATING with a fresh run record and reported started exactly when nothing in the setup raises; else aborted into ERROR, unreported, with the ramps held of what it had planned |
| Orchestration.Orchestrator.RunProcedure | cryosoft/core/orchestrator.py:464-505 | blocked by a persistent magnet, queued when busy, started otherwise |
| Orchestration.Orchestrator.RunOperation | cryosoft/core/orchestrator.py:507-584 | accepted from IDLE, a manual ramp, or EMERGENCY with every tripped flag tolerated; refused without effect otherwise |
| Orchestration.Orchestrator.RunQueue | cryosoft/core/orchestrator.py:717-728 | operations before procedures, only from IDLE; exactly a procedure that a magnet blocks is lost from the queue |
| Orchestration.Orchestrator.PauseProcedure | cryosoft/core/orchestrator.py:743-781 | pauses at once except mid-datapoint, where it is deferred; holds exactly the run's ramps |
| Orchestration.Orchestrator.ResumeProcedure | cryosoft/core/orchestrator.py:801-831 | back to the state it came from with the wait clock going on; a pause taken in INITIATING, RAMPING or STANDBY sends the last targets again, if there are any, and stays paused exactly if that raises |
| Orchestration.Orchestrator.AbortProcedure | cryosoft/core/orchestrator.py:833-848 | ignored in EMERGENCY; otherwise the run is aborted and reported, the ramps in its scope held first, and what is queued started |
| Orchestration.Orchestrator.RecoverFromError | cryosoft/core/orchestrator.py:1046-1054 | ERROR to IDLE, no queued run started |
| Orchestration.Orchestrator.ManualActionAdmissible | cryosoft/core/orchestrator.py:1233-1354 | admits exactly what the acknowledgements so far justify, judged on the state, the claims, the comm fault and the least-key hold as they are |
| Orchestration.Orchestrator.OverrideActive | cryosoft/core/orchestrator.py:1139-1156 | active exactly when the VI's least-key hold has an open window |
| Orchestration.Orchestrator.SubmitViAction | cryosoft/core/orchestrator.py:1356-1376 | queued, and the admission on record, exactly when the VI is admissible |
| Orchestration.Orchestrator.StopRamp | cryosoft/core/orchestrator.py:866-909 | holds that one VI's ramp exactly when the VI is admissible |
| Orchestration.Orchestrator.SubmitGlobalAction | cryosoft/core/orchestrator.py:1378-1409 | one action per live VI; a standby for all aborts and reports a run in flight first, and starts what is queued; it ends in IDLE exactly when nothing is queued that can start |
| Orchestration.Orchestrator.Acknowledge | cryosoft/core/orchestrator.py:1056-1133 | leaves EMERGENCY exactly when nothing critical is active and no live reading is below its lower or above its upper bound; elsewhere opens a window for exactly the holds in force |
| Orchestration.Orchestrator.ConnectInstrument | cryosoft/core/orchestrator.py:1411-1453 | only in IDLE, and then exactly when every stage succeeds; names kept, other VIs' sessions spared |
| Orchestration.Orchestrator.DisconnectInstrument | cryosoft/core/orchestrator.py:1455-1498 | only in IDLE; closes and forgets exactly those open sessions of the VI that no other live VI's recipe names; names kept |
| Orchestration.Orchestrator.RetryFault | cryosoft/core/orchestrator.py:1564-1627 | a session is never rebuilt under a VI the active run claims; else a rebuild closes the old sessions of the VI that it shares with no live VI and runs on new ones |
| Orchestration.Orchestrator.EnforceOne | cryosoft/core/orchestrator.py:2910-2969 | exactly what one visit puts on record: away: an attempt, unless the last one is within the interval, and a failure if it raised, reported once there are enough; at or near standby: its record is forgotten |
| Orchestration.Orchestrator.CountFailure | cryosoft/core/orchestrator.py:2940-2956 | one more failure, escalated from the limit on |
| Orchestration.Orchestrator.EnforceSafetyHolds | cryosoft/core/orchestrator.py:2844-2969 | every held, live VI without an open acknowledgement that is away has been sent to standby within the interval; a held VI that is acknowledged or not live is left alone: its record stands and nothing is noted of it; every attempt is made now, on the least-key hold of its VI; records exist for held VIs only |
| Orchestration.Orchestrator.Observe | cryosoft/core/orchestrator.py:2037-2108 | the registry says of this tick's answers and flags what they are; onsets are kept |
| Orchestration.Orchestrator.Judge | cryosoft/core/orchestrator.py:2110-2145 | the verdict over registry and envelope breaches: who is held and by which condition, whether there is an emergency, and the first held VI that the run depends on, in whose states and by which fields is written out |
| Orchestration.Orchestrator.PruneOverrides | cryosoft/core/orchestrator.py:2147-2161 | exactly the open windows are left, as they were |
| Orchestration.Orchestrator.MonitorCycle | cryosoft/core/orchestrator.py:2033-2201 | ends the run if and only if there is a critical condition, a live reading out of bounds, or, in a state on its way, a held VI that the run has sent targets to or claims by name, and then into EMERGENCY or IDLE with its own ramps held; otherwise the held VIs are looked after, and acknowledged ones left alone |
| Orchestration.Orchestrator.DrainActions | cryosoft/core/orchestrator.py:2203-2239 | empties the queue; the actions let through are exactly the queued ones that are admissible on the facts of this moment, in order |
| Orchestration.Orchestrator.RampStep | cryosoft/core/orchestrator.py:2250-2289 | waits for the run's own ramps only; then gates, or the settle time in full; a manual ramp ends in IDLE |
| Orchestration.Orchestrator.Settle | cryosoft/core/orchestrator.py:2276-2289 | MEASURING exactly when the wait clock has run the settle time |
| Orchestration.Orchestrator.GateStep | cryosoft/core/orchestrator.py:2290-2314 | every gate polled once; MEASURING exactly when none still waits; raises exactly if the ramp question, or the action or the check of some pending gate does; a finishing operation abandons its gates |
| Orchestration.Orchestrator.StepGates | cryosoft/core/orchestrator.py:2311 | keeps exactly the gates that still wait, in order; each of the others is on record with the polls that satisfied it; every check is polled once |
| Orchestration.Orchestrator.MeasureStep | cryosoft/core/orchestrator.py:2315-2340 | one measure call, then SWEEPING; raises exactly if the call or the progress report after it does, and the record says which |
| Orchestration.Orchestrator.SweepStep | cryosoft/core/orchestrator.py:2341-2364 | the pause boundary, else the next point with its ramps added to the run's own, else STANDBY |
| Orchestration.Orchestrator.Park | cryosoft/core/orchestrator.py:2374-2395 | one standby call and its plan, sent or kept back whole; raises exactly when the call or what it sends raises |
| Orchestration.Orchestrator.StandbyOperationImmediate | cryosoft/core/orchestrator.py:2505-2555 | an operation parks and finishes in one tick, into EMERGENCY when it came from there or a critical condition is active |
| Orchestration.Orchestrator.StandbyStep | cryosoft/core/orchestrator.py:2365-2401 | a procedure waits for its ramps, calls standby once, waits again and finishes; an operation parks and finishes at once; each case with its state, run record and log |
| Orchestration.Orchestrator.FinishRun | cryosoft/core/orchestrator.py:2595-2637 | reports done and goes home: EMERGENCY, or IDLE and exactly what is queued next |
| Orchestration.Orchestrator.StepMachine | cryosoft/core/orchestrator.py:2245-2409 | the branch of each state, STANDBY included, with the run record and the log entries it must leave; the waiting states do nothing |
| Orchestration.Orchestrator.TickBody | cryosoft/core/orchestrator.py:2020-2415 | the verdict cuts the run exactly when it must; else the queued actions are decided on the facts of the moment and the machine makes its one transition and sends what belongs to it, or raises, exactly when something that it reaches does; held VIs are enforced, and acknowledged ones left alone, on every tick whose verdict is not EMERGENCY, in EMERGENCY too |
| Orchestration.Orchestrator.Tick | cryosoft/core/orchestrator.py:2003-2018 | the same for the whole tick including its exception boundary: what raises ends in ERROR, nothing leaves EMERGENCY, no run is left in it |
| Orchestration.Orchestrator.Handle | cryosoft/core/orchestrator.py:2163-2174 | any one call keeps the invariant and does what was asked, or refuses it for the reasons there are; EMERGENCY is entered by ticks only and left only by an acknowledgement with nothing active or an operation tolerating every tripped flag; connect, disconnect and retry spare the sessions of other VIs, every other call leaves VIs, drivers and sessions as they are |
| Orchestration.Orchestrator.Play | cryosoft/core/orchestrator.py:2003-2018 | the invariant and the set of configured names survive every sequence of calls with a clock that does not run backwards, and a VI that no connect, disconnect or retry names keeps its sessions open and in the driver map |
| Histories.RunOwnership | cryosoft/core/orchestrator.py:2610-2637 | in every reachable state: a run exists exactly while its manifest is open; IDLE, ERROR and EMERGENCY own nothing; runs are monitored; a pause is pending only in MEASURING or SWEEPING |
| Histories.CallsOfEveryRun | cryosoft/core/orchestrator.py:2245-2401 | at every moment of every history the calls follow the protocol and at most one run is open |
| Histories.EveryFinishedRun | cryosoft/core/orchestrator.py:1713-1753 | done means the whole sweep, anything else one abort |
| Histories.EverySettleIsServed | cryosoft/core/orchestrator.py:2278-2289 | in every history, every ungated point was read only once the wait clock had run its settle time, and that clock was started for the point if and only if no gate opened since |
| Histories.EveryReadingIsCleared | cryosoft/core/orchestrator.py:2262-2314 | in every history, every reading came after its point's settle or the last of the gates opened for it, and every gate was passed by polls that held over its window |
| Histories.EverySinceIsOnset | cryosoft/core/station.py:859-886 | in every reachable state, every condition's since is the time of the step at which its present, unbroken presence began |
| Histories.EveryAdmission | cryosoft/core/orchestrator.py:1297-1354 | every admission of a held VI, or in EMERGENCY or ERROR, is justified by an acknowledgement in that history, less than the timeout old and not closed since |
| Histories.EveryEnforcement | cryosoft/core/orchestrator.py:2893-2969 | in every history: any two attempts of an episode are the interval apart, and it escalates once, after enough failures |
| Histories.EveryAttemptIsUnacknowledged | cryosoft/core/orchestrator.py:2902-2938 | in every history, every standby sent to a held VI enforced the hold on it that came first in key order at that moment, and that hold had not been acknowledged less than the timeout before, unless an EMERGENCY came in between |
| Histories.EveryCommandIsInBounds | cryosoft/core/orchestrator.py:659-675 | in every history, no target below the lower or above the upper bound in force was ever sent |
| Histories.HeldInstrumentIsAdmittedInError | cryosoft/core/orchestrator.py:1297-1340 | a history of calls and ticks, with an operation that tolerates low helium only, in which ERROR admits a held VI |
| Histories.OldClockClearsNextPoint | cryosoft/core/orchestrator.py:2262-2289 | a history, tick by tick, in which the wait clock of one point clears the next |
| Histories.PauseServesTheWindow | cryosoft/core/gates.py:84-91 | a history, tick by tick, in which a pause serves nearly all of a gate's window |
| Histories.EarlyGateIsNotAskedAgain | cryosoft/core/orchestrator.py:2290-2314 | a history, tick by tick, in which a point is read a second after the check of one of its gates was polled for the last time |
| Histories.GlobalStandbyMeetsTheQueue | cryosoft/core/orchestrator.py:1378-1409 | every history in which a standby for all meets a queued procedure: with none of the VIs held, no action is admitted if and only if that run claims all of them |
| Histories.EveryHoldIsOfItsOwnRamps | cryosoft/core/orchestrator.py:677-703 | in every history, whenever a run's ramps are held: they are those of the VIs in its opening plan and its steps; these are the VIs it has sent a target if and only if no plan kept back, parking or sent again names another |
| Histories.RefusedPlanIsHeld | cryosoft/core/orchestrator.py:615-631 | a history in which the ramp of a VI is stopped that the run has sent nothing |
| Histories.ParkingIsNotWaitedFor | cryosoft/core/orchestrator.py:2396-2401 | a history, tick by tick, in which a run is reported done while a ramp that its standby() started is still moving |
| Machine.ParkingIsWaitedForIff | cryosoft/core/orchestrator.py:2396-2401 | whatever else is moving, a run ends only after the ramps its parking plan started, if and only if all of them are in its scope |
| Machine.ScopeIsWhatWasSent | cryosoft/core/orchestrator.py:677-703 | for every record of what was sent: the scope is the VIs ever sent a target if and only if no plan kept back, parking or sent again names another |
| Machine.ClaimsDecide | cryosoft/core/orchestrator.py:1341-1354 | under a run, with none of the VIs held, no queued action is admitted if and only if the run claims all of them |
| Statistics.VarianceByMoments | cryosoft/core/trend_history.py:551-555 | the mean of squares less the square of the mean is the variance, and is not negative |
| Statistics.SquareOfSumIsBounded | cryosoft/core/tiered_trend_logger.py:98-101 | n times the sum of squares is at least the square of the sum |
| TrendLogger.BucketAccumulator.Add | cryosoft/core/tiered_trend_logger.py:59-84 | the running statistics are those of all samples of the pending bucket |
| TrendLogger.BucketAccumulator.FlushPayload | cryosoft/core/tiered_trend_logger.py:86-109 | the line holds the minimum, maximum, mean, variance and count computed directly from the samples |
| TrendLogger.BucketHoldsItsTimes | cryosoft/core/tiered_trend_logger.py:44-57 | a bucket starts a whole number of intervals after the epoch, and a time lies in its bucket's half-open interval |
| TrendLogger.TieredTrendLogger.Record | cryosoft/core/tiered_trend_logger.py:199-229 | both tiers hold every sample exactly once, with strictly ascending bucket starts over times that do not run backwards; the raw tier is throttled |
| TrendLogger.TieredTrendLogger.RecordRaw | cryosoft/core/tiered_trend_logger.py:231-258 | a line exactly when the throttle interval has passed |
| TrendLogger.TieredTrendLogger.RecordBucket | cryosoft/core/tiered_trend_logger.py:260-284 | a line exactly when the sample falls into another bucket |
| TrendLogger.RawTimesAreOrdered | cryosoft/core/tiered_trend_logger.py:242-258 | raw times are in order whenever the throttle interval is not negative, even if the clock ran backwards |
| TrendLogger.SamplesAreConserved | cryosoft/core/tiered_trend_logger.py:275-284 | per key, flushed counts and the pending count add up to the samples recorded |
| TrendReader.SplitIsExact | cryosoft/core/trend_history.py:244 | the parts join back to the bytes and hold no newline |
| TrendReader.IterLinesReverse | cryosoft/core/trend_history.py:204-263 | for every file and chunk size: the lines seen, newest first |
| TrendReader.OnlyAnEmptyFirstLineIsMissed | cryosoft/core/trend_history.py:245-259 | the lines seen are all lines, except an empty first one |
| TrendReader.ReadTier | cryosoft/core/trend_history.py:293-372 | the window's records after the last one that is too old, oldest first; unusable lines stop nothing |
| TrendReader.EarlyStopIsExact | cryosoft/core/trend_history.py:301-317 | that equals the forward filter if and only if nothing of the window is hidden; always on append-ordered tiers |
| TrendSummary.SummarizeRaw | cryosoft/core/trend_history.py:471-489 | the statistics of the readings by their definitions |
| TrendSummary.SummarizeAggregate | cryosoft/core/trend_history.py:492-567 | the totals over the usable buckets, and no data without any |
| TrendSummary.RecombinationIsExact | cryosoft/core/trend_history.py:550-555 | recombined count, minimum, maximum, mean and variance are those of all readings together; the clamp changes nothing |
| TrendSummary.BucketsSummarizeTheirSamples | cryosoft/core/trend_history.py:492-567 | any run of flushed buckets is summarized exactly as the samples in them |
| TrendSummary.WindowIsOneRun | cryosoft/core/trend_history.py:350-366 | over ascending times a window is one run of rows |
| TrendSummary.RawWindowIsExact | cryosoft/core/trend_history.py:301-317 | the raw readings of any window, read backwards, are exactly those written within it, whatever the clock did, if the throttle interval is not negative |
| TrendSummary.EveryWindowIsExact | cryosoft/core/trend_history.py:492-567 | the summary of any window, read backwards, of what a logger flushed is the statistics by definition of the samples in its buckets |
| TrendSummary.PersistedKeys | cryosoft/core/trend_history.py:375-429 | the keys of the newest lines of the tier, up to the cap, malformed lines counted |
| TrendSummary.NeverPersistedMeansNotRecently | cryosoft/core/trend_history.py:375-429 | a key is reported never persisted if and only if every line that has it lies behind the cap |
| TrendSummary.PersistedKeyReportedNeverPersisted | cryosoft/core/trend_history.py:417-420 | a file with a reading of the key inside the window, for which the summary says that it was never persisted |
| TrendSummary.Summarize | cryosoft/core/trend_history.py:570-606 | no summary exactly for keys not persisted recently; else the raw or recombined statistics of the window of the tier that its length picks |
| TrendSummary.PickTier | cryosoft/core/trend_history.py:131-149 | up to a day the raw tier, up to a week the three-minute one, beyond that the hourly one |
| TrendSummary.SummarizeRecorded | cryosoft/core/trend_history.py:570-606 | end to end from recorded samples to what is handed out, for every window and every recently persisted key: up to a day the statistics of the readings written within the window, beyond it those of all the samples in the buckets of the window |
| TrendSummary.FindCrossings | cryosoft/core/trend_history.py:609-658 | of the points there are to plot, a reading or the mean of a bucket, row by row in order: the times of exactly those that lie across the threshold from the one before, by direction |
| TrendSummary.EveryCrossingOnce | cryosoft/core/trend_history.py:636-658 | those times are of exactly the samples just after a crossing, each once, in order |
| Recorder.OperationRecording.RecordSample | cryosoft/core/operation.py:838-879 | never more points than the cap, first point kept, gaps at most the stride; the channels stay in step exactly unless they start late |
| Recorder.LateChannelIsOutOfStep | cryosoft/core/operation.py:861-873 | two samples after which a channel is one value short of the time axis |
| Recorder.OperationRecording.Decimate | cryosoft/core/operation.py:874-879 | every other point of every channel, twice the stride, still bounded |
| Recorder.SpreadBounds | cryosoft/core/operation.py:856-879 | the unrecorded tail is shorter than the stride, and stride times cap is at most twice the samples offered |
| SweepBuilder.BuildPiecewiseSweep | cryosoft/core/sweep_builder.py:35-79 | an error names the first segment that does not fit; else each segment is cut evenly into the whole number of steps nearest to its span over the requested step, the even one of two equally near, at least one, and the last end comes last |
| SweepBuilder.SweepRunsThrough | cryosoft/core/sweep_builder.py:64-79 | the sweep runs through every segment's points, ends included, each junction once |
| SweepBuilder.SegmentsAreMonotone | cryosoft/core/sweep_builder.py:76-77 | within a segment the points run one way |
| SweepBuilder.SpacingIsBounded | cryosoft/core/sweep_builder.py:74-76 | the spacing is below one and a half steps, and within the step exactly when the count was not rounded down |
| SweepBuilder.StepsAreNearest | cryosoft/core/sweep_builder.py:74-76 | the number of steps of a segment is the whole number nearest to its span over the requested step, the even one of two equally near, and at least one |
| SweepBuilder.HysteresisIsAPalindrome | cryosoft/core/sweep_builder.py:136-138 | 2n - 1 points, the same both ways, the turning point once |
| SweepBuilder.BuildAxisSweep | cryosoft/core/sweep_builder.py:235-285 | the points of the linear, piecewise and file shapes in place, evenly cut, then the way back if it is asked for; an error names the first segment that does not fit |
| Schema.NestedShapeLeaves | cryosoft/core/plan.py:562-582 | leaves exactly for values nested as the shape says, in order |
| Schema.LeavesFillTheShape | cryosoft/core/plan.py:562-582 | as many leaves as the product of the shape |
| Schema.Validate | cryosoft/core/plan.py:677-782 | reports exactly the problems there are; none means that the datapoint conforms |
| Schema.ConformsIffNoProblem | cryosoft/core/plan.py:707-782 | conforming and free of problems are the same |
| DataFile.DataManager.SaveDatapoint | cryosoft/core/data_manager.py:278-404 | saves under an unused index in range exactly when every value fits, None among the numbers included; a value nested to the loop shape with another last axis fits, and is cut or padded to the declared length; touches no other row; a failure does not count as saved |
| DataFile.DataManager.WriteColumns | cryosoft/core/data_manager.py:319-391 | every value where its name says, fitted ones and unknown names tallied |
| DataFile.StoreLands | cryosoft/core/data_manager.py:319-391 | a value is stored exactly as far as its form suits its column, and what is stored is the value as given, or cut or padded along its last axis |
| DataFile.DataManager.Close | cryosoft/core/data_manager.py:435-463 | cut to the rows saved, if there are any, with every row kept as it is |
| DataFile.ValidatedIsStoredWhole | cryosoft/core/data_manager.py:319-391 | a numeric datapoint that validates is stored as it is: no shape error, nothing padded or skipped |
| SweepRun.ReadRow | cryosoft/core/procedure.py:1623-1633 | one row of cells, each read with axis 2 at its value, up to the first reading that raises or cannot be placed |
| SweepRun.ReadGrid | cryosoft/core/procedure.py:1620-1633 | every cell holds its own reading, taken while both axes stood at the cell's values, and no other reading is taken; it fails exactly at the first reading that raises or cannot be placed |
| SweepRun.DeclaredReadingsConform | cryosoft/core/procedure.py:1441-1460 | when the VI returns what it declared, the assembled datapoint validates |
| SweepRun.DeclaredReadingsAreStorable | cryosoft/core/procedure.py:1441-1460 | when the VI returns what it declared, numbers throughout, the assembled datapoint validates and is stored whole |
| SweepRun.SweepMeasure.Initiate | cryosoft/core/procedure.py:1503-1530 | a new file of empty rows for a sweep with points; without any, the start raises and nothing changes |
| SweepRun.SweepMeasure.Measure | cryosoft/core/procedure.py:1557-1647 | saves the assembled grid under the current index, or nothing; what is well formed is saved; a reading that raises mid-grid leaves the file as it was |
| SweepRun.SweepMeasure.Save | cryosoft/core/procedure.py:345-379 | every row saved so far holds its datapoint |
| SweepRun.SweepMeasure.ChangeSweepStep | cryosoft/core/procedure.py:1543-1555 | one further, and whether there is a point there |
| SweepRun.SweepMeasure.CloseFile | cryosoft/core/procedure.py:1649-1658 | the file is closed with its rows, and a second close finds none |
| EndToEnd.Perform | cryosoft/core/procedure.py:1543-1658 | what each call does to a run and its file, and exactly when the run answers as the record says |
| EndToEnd.DeliveredIsReadable | cryosoft/core/procedure.py:1557-1647 | if each reading of a point brings the declared columns with the declared types and sizes, every reading can be placed and what they add up to is stored |
| EndToEnd.SavedInOrder | cryosoft/core/orchestrator.py:2315-2401 | at any moment of any run over n points the indices saved are 0 to k-1, each once, in order |
| EndToEnd.PerformAll | cryosoft/core/procedure.py:1543-1658 | all the calls of a run: its progress is that of the record, the record is one over its points, and the file it closed holds its rows; it does answer so where the instruments deliver what they declared at the points saved and fail at the one that was not |
| EndToEnd.DoneRunSavedEveryPoint | cryosoft/core/orchestrator.py:2595-2637 | a run reported done has saved 0 to n-1, each once, in order |
| EndToEnd.CutRunKeepsItsPoints | cryosoft/core/orchestrator.py:2639-2691 | any finished run has saved the first k points, each once, in order, and its file is closed |
| EndToEnd.RunLeavesItsFile | cryosoft/core/data_manager.py:435-463 | for every finished procedure run of every Orchestrator, carried out on a sweep: the closed file has exactly the k rows saved (all its empty ones if k is 0), row t is the grid of readings of point t, and k is the whole sweep if the run was reported done |

## Left out

- Orchestration.Orchestrator.Tick: one reading of the clock per call, where the source reads it several times within one call.
- Orchestration.Orchestrator.StandbyOperationImmediate: the names of unmet postcondition gates are part of the manifest text and not of the model; the gates' one-shot reading is Gates.Gate.CheckOnce.
- Orchestration.Orchestrator.EnforceSafetyHolds: the held VIs are visited in any order, where the source visits them by name.
- Stations.Station.GetState: exceptions other than communication errors are assumed not to come out of a poll.
- Stations.Station.UpdateConditions: who reports and who is concerned by a flag is an input; the declarations on the VI classes are not part of this model.
- Schema.Validate: a scalar column with several bad leaves is reported once, where the source has one message per leaf.
- SweepRun.SweepMeasure.Measure: the per-channel row means of raw blocks come with the reading, and NaN counts as a number like any other.
- DataFile.DataManager.SaveDatapoint: booleans and numeric strings, which the float conversion accepts, are not told apart from other values that are not numbers.
- TrendReader.ReadTier: parsing a line is any function of its bytes that finds nothing in a blank line; file names and their ordering by date are not part of this model.
- TrendSummary.Summarize: the order of the files by date and by time of change are two inputs.
- TrendSummary.SummarizeAggregate: counts are whole numbers; the square root of the variance is not taken.
- Conditions.Decide: condition messages and display texts.
- The names of the VI registry and the instruments are one map, from name to type and sessions.
- The operator-step sequence of an operation (confirm, skip, summary): first-outcome-wins bookkeeping, easy members.
- The fault-onset warnings, status lines, progress and ramp-tracker records: reporting that no decision reads.
- Drivers, bus sessions' bytes, HDF5, JSON, file rotation, Qt signals and timers, configuration loading: I/O or glue, represented by free answers.
- Floating-point rounding: arithmetic is over exact reals.
