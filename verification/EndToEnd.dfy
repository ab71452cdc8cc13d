/** From the Orchestrator's schedule to the rows of the file: which points a run has saved, at any
    moment and at its end. */
module EndToEnd {
  import opened Conditions
  import opened SweepRun
  import opened DataFile
  import Schema
  import RunLog
  import Orchestration

  /** What one event of a run does to its sweep. */
  function Next(p: Progress, e: RunLog.Event): Progress {
    match e
    case Measure(saved) => if saved then p.(saved := p.saved + [p.index]) else p
    case Step(_) => p.(index := p.index + 1)
    case Standby => p.(isOpen := false)
    case Abort => p.(isOpen := false)
    case _ => p
  }

  /** The progress of the newest run in the log. */
  function ProgressOf(log: seq<RunLog.Event>): Progress {
    if log == [] then Progress(0, [], false)
    else if log[|log| - 1].Initiate? then Progress(0, [], true)
    else Next(ProgressOf(log[..|log| - 1]), log[|log| - 1])
  }

  /** The newest run sweeps `n` points: change_sweep_step() found a next point exactly while there was one. */
  ghost predicate Sweeps(log: seq<RunLog.Event>, n: nat) {
    log == [] || log[|log| - 1].Initiate? || (
      var before, e := log[..|log| - 1], log[|log| - 1];
      Sweeps(before, n) && Answers(ProgressOf(before), e, n))
  }

  /** A step's answer says whether there was a next point. */
  ghost predicate Answers(p: Progress, e: RunLog.Event, n: nat) {
    (e == RunLog.Step(RunLog.More) ==> p.index + 1 < n) && (e == RunLog.Step(RunLog.NoMore) ==> p.index + 1 >= n)
  }

  /** The row was assembled from these readings, taken in order. */
  ghost predicate Assembled(schema: Schema.DataSchema, d: Schema.Datapoint, reading: Readings, base: Schema.Datapoint) {
    exists cells :: IsGrid(cells, reading, schema.loop1, schema.loop2) && d == Assemble(schema, cells, base)
  }

  /** A closed file of a run over n points, and what it was closed with. */
  ghost predicate FileOf(m: DataManager, run: SweepMeasure)
    reads m, run
  {
    && m.Valid() && m.closed && m.points == run.points && m.schema == run.schema
    && FileAgrees(m.lastSavedIndex, m.snapshots, run.saved)
    && RowsHold(run.schema, m.columns, run.saved, run.data, run.spoiled)
  }

  /** Every reading comes, and what they add up to is stored. */
  ghost predicate Readable(run: SweepMeasure, reading: Readings, base: Schema.Datapoint) {
    run.AllUsable(reading)
    && forall cells :: IsGrid(cells, reading, run.schema.loop1, run.schema.loop2) ==>
         Storable(run.schema, Assemble(run.schema, cells, base))
  }

  /** A reading of the declared columns and no others, each of its declared type and size, and numbers
      throughout. */
  ghost predicate Delivered(s: Schema.DataSchema, r: Option<Reading>) {
    r.Some? && r.value.Keys <= Measured(s) && AsDeclared(s, r.value) && AllNumbers(s, r.value)
  }

  /** The instruments of a point deliver what they declared, and so do the columns every point has. */
  ghost predicate Delivers(s: Schema.DataSchema, reading: Readings, base: Schema.Datapoint) {
    BaseAsDeclared(s, base) && forall k: nat :: k < s.loop1 * s.loop2 ==> Delivered(s, reading(k))
  }

  lemma CellIsInRange(i: nat, j: nat, n1: nat, n2: nat)
    requires i < n1 && j < n2
    ensures 0 <= Before(i, n2) + j < n1 * n2
  {
    NextRow(i, n1, n2);
  }

  /** What instruments deliver as they declared it can be read, and stored. */
  lemma DeliveredIsReadable(run: SweepMeasure, reading: Readings, base: Schema.Datapoint)
    requires run.schema.WellFormed() && DistinctNames(run.schema) && Delivers(run.schema, reading, base)
    ensures Readable(run, reading, base)
  {
    hide AsDeclared, AllNumbers, Assemble, Storable, Before, BaseAsDeclared;
    var s := run.schema;
    forall k: nat | k < s.loop1 * s.loop2 ensures Usable(reading(k), Measured(s), s.blocks.Keys) {
      DeliveredIsUsable(s, reading(k));
    }
    forall cells | IsGrid(cells, reading, s.loop1, s.loop2) ensures Storable(s, Assemble(s, cells, base)) {
      forall i, j | 0 <= i < |cells| && 0 <= j < |cells[i]|
        ensures AsDeclared(s, cells[i][j]) && AllNumbers(s, cells[i][j])
      {
        CellIsInRange(i, j, s.loop1, s.loop2);
        assert Delivered(s, reading(Before(i, s.loop2) + j));
      }
      DeclaredReadingsAreStorable(s, cells, base);
    }
  }

  lemma DeliveredIsUsable(s: Schema.DataSchema, r: Option<Reading>)
    requires Delivered(s, r)
    ensures Usable(r, Measured(s), s.blocks.Keys)
  {
    hide AllNumbers;
  }

  /** Carry out the call that an event stands for. If the run answers as the event says, its progress
      is what Next computes, and a step's answer tells whether there was a next point. A run starts on
      a procedure that has not run before, on a new file; standby and abort close it. */
  method Perform(run: SweepMeasure, e: RunLog.Event, reading: Readings, base: Schema.Datapoint) returns (agreed: bool)
    requires run.Valid()
    modifies run, if run.manager.Some? then {run.manager.value} else {}
    ensures run.Valid()
    ensures agreed ==> run.Now() == if e.Initiate? then Progress(0, [], true) else Next(old(run.Now()), e)
    ensures e.Step? ==> agreed == Answers(old(run.Now()), e, run.points)
    ensures e.Measure? ==> agreed == (e.saved <==> run.saved != old(run.saved))
    ensures e == RunLog.Measure(true) && old(run.manager.Some? && run.index < run.points && run.index !in run.saved) ==>
      Readable(run, reading, base) ==> agreed
    ensures e == RunLog.Measure(false) && !run.AllUsable(reading) ==> agreed
    ensures e.Initiate? ==> agreed == (run.points >= 1 && old(run.index) == 0)
    ensures e.Initiate? && agreed ==> fresh(run.manager.value) && run.data == [] && run.spoiled == {}
    ensures !e.Initiate? ==> run.manager == old(run.manager) || run.manager.None?
    ensures e == RunLog.Measure(true) && agreed ==>
      old(run.manager).Some? && run.data[..|run.data| - 1] == old(run.data) && |run.data| == |old(run.data)| + 1
      && Assembled(run.schema, run.data[|old(run.data)|], reading, base)
    ensures !e.Initiate? && agreed && e != RunLog.Measure(true) ==> run.data == old(run.data)
    ensures !e.Initiate? && (e.Measure? ==> old(run.index) !in old(run.saved)) ==> run.spoiled == old(run.spoiled)
    ensures (e.Standby? || e.Abort?) && old(run.manager).Some? ==> FileOf(old(run.manager).value, run)
    ensures !e.Measure? && !e.Step? && !e.Initiate? ==> agreed
  {
    hide RowsHold, IsGrid, Assemble, FileAgrees, Storable;
    agreed := true;
    match e
    case Initiate(_) =>
      var ok := run.Initiate();
      agreed := ok && run.index == 0;
    case Measure(saved) =>
      var ok, _, _ := run.Measure(reading, base);
      agreed := ok == saved;
    case Step(answer) =>
      var more := run.ChangeSweepStep();
      agreed := answer == RunLog.Raised || (answer == RunLog.More) == more;
    case Standby => run.CloseFile();
    case Abort => run.CloseFile();
    case _ =>
  }

  function Upto(k: nat): seq<nat> {
    seq(k, i requires 0 <= i < k => i)
  }

  /** The indices saved so far are 0, 1, 2, ..., the run stands where it should, and its file is open
      until it parks or is aborted. */
  ghost predicate InOrder(phase: RunLog.Phase, p: Progress, n: nat) {
    && |p.saved| <= n && p.saved == Upto(|p.saved|)
    && match phase
       case Setup => p.index == 0 && p.saved == [] && p.isOpen
       case Ramping => p.index == |p.saved| < n && p.isOpen
       case Gating(_) => p.index == |p.saved| < n && p.isOpen
       case Cleared => p.index == |p.saved| < n && p.isOpen
       case Measured => p.index + 1 == |p.saved| && p.isOpen
       case Exhausted => p.index == |p.saved| == n && p.isOpen
       case Parked => p.index == |p.saved| == n && !p.isOpen
       case Aborting => !p.isOpen
       case _ => true
  }

  lemma NextIndex(k: nat)
    ensures Upto(k) + [k] == Upto(k + 1)
  {
  }

  lemma StaysInOrder(l: RunLog.Ledger, p: Progress, e: RunLog.Event, n: nat)
    requires n >= 1 && l.Ledger? && RunLog.Accept(l, e).Ledger? && !RunLog.Accept(l, e).operation
    requires e.Initiate? || InOrder(l.phase, p, n)
    requires Answers(p, e, n)
    ensures InOrder(RunLog.Accept(l, e).phase, if e.Initiate? then Progress(0, [], true) else Next(p, e), n)
  {
    assert Upto(0) == [];
    hide Upto;
    NextIndex(|p.saved|);
  }

  /** At any moment of an accepted run over n points, the indices saved are 0 .. k-1, each once and
      in order, whatever pauses, gates and failures came in between. */
  lemma {:induction false} SavedInOrder(log: seq<RunLog.Event>, n: nat)
    requires n >= 1 && RunLog.Replay(log).Ledger? && !RunLog.Replay(log).operation && Sweeps(log, n)
    ensures InOrder(RunLog.Replay(log).phase, ProgressOf(log), n)
  {
    if log == [] {
      assert Upto(0) == [];
    } else {
      var before, e := log[..|log| - 1], log[|log| - 1];
      if !e.Initiate? {
        SameRunKind(RunLog.Replay(before), e);
        SavedInOrder(before, n);
      }
      StaysInOrder(RunLog.Replay(before), ProgressOf(before), e, n);
    }
  }

  lemma SameRunKind(l: RunLog.Ledger, e: RunLog.Event)
    requires RunLog.Accept(l, e).Ledger? && !e.Initiate?
    ensures l.Ledger? && RunLog.Accept(l, e).operation == l.operation
  {
  }

  // ---- a whole run on its file --------------------------------------------------------------

  /** One run: it starts with its initiate, and no other one follows. */
  ghost predicate OneRun(log: seq<RunLog.Event>) {
    log != [] && log[0] == RunLog.Initiate(false) && forall i :: 0 < i < |log| ==> !log[i].Initiate?
  }

  /** The t-th row was assembled from the readings of the t-th point. */
  ghost predicate Recorded(schema: Schema.DataSchema, data: seq<Schema.Datapoint>, readings: nat -> Readings,
          bases: nat -> Schema.Datapoint)
  {
    forall t :: 0 <= t < |data| ==> Assembled(schema, data[t], readings(t), bases(t))
  }

  lemma NothingRecorded(schema: Schema.DataSchema, readings: nat -> Readings, bases: nat -> Schema.Datapoint)
    ensures Recorded(schema, [], readings, bases)
  {
  }

  lemma RecordedOneMore(schema: Schema.DataSchema, before: seq<Schema.Datapoint>, after: seq<Schema.Datapoint>,
          readings: nat -> Readings, bases: nat -> Schema.Datapoint)
    requires Recorded(schema, before, readings, bases) && |after| == |before| + 1 && after[..|before|] == before
    requires Assembled(schema, after[|before|], readings(|before|), bases(|before|))
    ensures Recorded(schema, after, readings, bases)
  {
    hide Assembled;
    forall t | 0 <= t < |after| ensures Assembled(schema, after[t], readings(t), bases(t)) {
      assert t < |before| ==> after[t] == before[t];
    }
  }

  lemma ProgressAppend(log: seq<RunLog.Event>, e: RunLog.Event, n: nat)
    ensures ProgressOf(log + [e]) == if e.Initiate? then Progress(0, [], true) else Next(ProgressOf(log), e)
    ensures !e.Initiate? ==> (Sweeps(log + [e], n) <==> Sweeps(log, n) && Answers(ProgressOf(log), e, n))
  {
    assert (log + [e])[..|log|] == log;
  }

  /** Nothing that was saved is ever saved again: before a reading the index is a new one. */
  lemma FreshIndex(before: seq<RunLog.Event>, e: RunLog.Event, n: nat)
    requires n >= 1 && RunLog.Replay(before + [e]).Ledger? && !RunLog.Replay(before).operation && Sweeps(before, n)
    requires e.Measure?
    ensures RunLog.Replay(before).Ledger?
    ensures var p := ProgressOf(before); p.isOpen && p.index == |p.saved| < n && p.index !in p.saved
  {
    RunLog.ReplayAppend(before, e);
    SavedInOrder(before, n);
    var p := ProgressOf(before);
    forall i | 0 <= i < |p.saved| ensures p.saved[i] < p.index {
      assert Upto(|p.saved|)[i] == i;
    }
  }

  /** Carry out all the calls of a run. If the run answers every call as the log says, its progress is
      that of the log, the log is one over its points, and the file it closed holds the rows saved. */
  method PerformAll(run: SweepMeasure, log: seq<RunLog.Event>, readings: nat -> Readings,
          bases: nat -> Schema.Datapoint)
    returns (agreed: bool, file: Option<DataManager>)
    requires run.Valid() && run.index == 0 && run.manager.None? && OneRun(log) && RunLog.Replay(log).Ledger?
    modifies run
    ensures run.Valid()
    ensures agreed ==> run.points >= 1 && run.Now() == ProgressOf(log) && Sweeps(log, run.points)
    ensures agreed ==> Recorded(run.schema, run.data, readings, bases) && |run.data| == |run.saved| && run.spoiled == {}
    ensures agreed ==> run.manager.Some? || file.Some?
    ensures file.Some? ==> fresh(file.value) && (agreed ==> FileOf(file.value, run))
    ensures Cooperates(run, log, readings, bases) ==> agreed
  {
    hide RowsHold, FileAgrees, Assembled, RunLog.Replay, ProgressOf, Sweeps, Upto, Readable, Delivers, Recorded;
    hide RunLog.Accept, SweepMeasure.AllUsable;
    agreed := Perform(run, log[0], readings(0), bases(0));
    NothingRecorded(run.schema, readings, bases);
    file := None;
    StartOfRun(log, run.points);
    var i := 1;
    while agreed && i < |log|
      invariant 1 <= i <= |log| && run.Valid()
      invariant run.manager.Some? ==> fresh(run.manager.value)
      invariant file.Some? ==> fresh(file.value)
      invariant Cooperates(run, log, readings, bases) ==> agreed
      invariant agreed ==> file.Some? ==> run.manager.None? && FileOf(file.value, run)
      invariant agreed ==> run.manager.Some? || file.Some?
      invariant agreed ==> run.points >= 1 && run.Now() == ProgressOf(log[..i]) && Sweeps(log[..i], run.points)
      invariant agreed ==>
        Recorded(run.schema, run.data, readings, bases) && |run.data| == |run.saved| && run.spoiled == {}
    {
      var e := log[i];
      assert log[..i + 1] == log[..i] + [e];
      ProgressAppend(log[..i], e, run.points);
      NotMeasuredTwice(log, i, run.points);
      if Cooperates(run, log, readings, bases) {
        SweepsPrefix(log, run.points, i + 1);
        if e.Measure? && e.saved {
          DeliveredIsReadable(run, readings(run.index), bases(run.index));
        }
      }
      ghost var before := run.data;
      var open := run.manager;
      agreed := Perform(run, e, readings(run.index), bases(run.index));
      if agreed && e == RunLog.Measure(true) {
        RecordedOneMore(run.schema, before, run.data, readings, bases);
      }
      if open.Some? && (e.Standby? || e.Abort?) {
        file := open;
      }
      i := i + 1;
    }
    assert log[..|log|] == log;
  }

  /** The log is one over the points of this run, on a well-formed layout; and at each point where a
      row was saved the instruments deliver what they declared, where none was saved some reading
      raises or cannot be placed. */
  ghost predicate Cooperates(run: SweepMeasure, log: seq<RunLog.Event>, readings: nat -> Readings,
          bases: nat -> Schema.Datapoint)
  {
    && run.points >= 1 && Sweeps(log, run.points) && run.schema.WellFormed() && DistinctNames(run.schema)
    && forall i :: 0 <= i < |log| && log[i].Measure? ==>
         var t := ProgressOf(log[..i]).index;
         if log[i].saved then Delivers(run.schema, readings(t), bases(t)) else !run.AllUsable(readings(t))
  }

  lemma {:induction false} SweepsPrefix(log: seq<RunLog.Event>, n: nat, i: nat)
    requires OneRun(log) && Sweeps(log, n) && 0 < i <= |log|
    ensures Sweeps(log[..i], n)
  {
    if i < |log| {
      assert log[..|log| - 1][..i] == log[..i];
      SweepsPrefix(log[..|log| - 1], n, i);
    } else {
      assert log[..i] == log;
    }
  }

  lemma StartOfRun(log: seq<RunLog.Event>, n: nat)
    requires OneRun(log)
    ensures ProgressOf(log[..1]) == Progress(0, [], true) && Sweeps(log[..1], n)
  {
  }

  lemma NotMeasuredTwice(log: seq<RunLog.Event>, i: nat, n: nat)
    requires OneRun(log) && RunLog.Replay(log).Ledger? && 0 < i < |log| && n >= 1 && Sweeps(log[..i], n)
    ensures log[i].Measure? ==> (
      var p := ProgressOf(log[..i]); p.isOpen && p.index == |p.saved| < n && p.index !in p.saved)
  {
    hide ProgressOf, Sweeps, RunLog.Accept;
    RunLog.PrefixesAccepted(log, i + 1);
    assert log[..i + 1] == log[..i] + [log[i]];
    if log[i].Measure? {
      ProcedureRun(log, i);
      FreshIndex(log[..i], log[i], n);
    }
  }

  /** A run that was started as a procedure is one to its end. */
  lemma {:induction false} ProcedureRun(log: seq<RunLog.Event>, i: nat)
    requires OneRun(log) && RunLog.Replay(log).Ledger? && 0 < i <= |log|
    ensures RunLog.Replay(log[..i]).Ledger? && !RunLog.Replay(log[..i]).operation
  {
    RunLog.PrefixesAccepted(log, i);
    assert log[..i] == log[..i - 1] + [log[i - 1]];
    RunLog.ReplayAppend(log[..i - 1], log[i - 1]);
    if i > 1 {
      ProcedureRun(log, i - 1);
      SameRunKind(RunLog.Replay(log[..i - 1]), log[i - 1]);
    } else {
      assert log[..0] == [];
    }
  }

  // ---- the runs of an Orchestrator ----------------------------------------------------------

  /** The events of one procedure run that was reported finished, its report left off. */
  ghost predicate RunOf(o: Orchestration.Orchestrator, from: nat, at: nat)
    reads o
  {
    from < at < |o.runLog| && OneRun(o.runLog[from..at]) && o.runLog[at].Finished?
  }

  /** A run is accepted on a log only where a fresh log would accept it. */
  lemma StartsAfresh(l: RunLog.Ledger, operation: bool)
    requires RunLog.Accept(l, RunLog.Initiate(operation)).Ledger?
    ensures RunLog.Accept(l, RunLog.Initiate(operation)) == RunLog.Accept(RunLog.Replay([]), RunLog.Initiate(operation))
  {
  }

  /** A run starts over: what was before it makes no difference to what is accepted. */
  lemma {:induction false} RunStandsAlone(log: seq<RunLog.Event>, from: nat, at: nat)
    requires RunLog.Replay(log).Ledger? && from < at <= |log| && OneRun(log[from..at])
    ensures RunLog.Replay(log[..at]) == RunLog.Replay(log[from..at])
  {
    hide RunLog.Replay, RunLog.Accept;
    RunLog.PrefixesAccepted(log, at);
    var part, before, e := log[from..at], log[from..at - 1], log[at - 1];
    assert log[..at] == log[..at - 1] + [e] && part == before + [e];
    RunLog.ReplayAppend(log[..at - 1], e);
    RunLog.ReplayAppend(before, e);
    if from + 1 < at {
      assert forall i :: 0 <= i < |before| ==> before[i] == part[i];
      RunStandsAlone(log, from, at - 1);
    } else {
      assert before == [] && e == part[0];
      StartsAfresh(RunLog.Replay(log[..at - 1]), false);
    }
  }

  /** Every row saved is one row of the file, and holds what was saved. */
  lemma RowsOfFile(m: DataManager, run: SweepMeasure)
    requires run.points >= 1 && FileOf(m, run) && |run.saved| <= run.points && run.saved == Upto(|run.saved|)
    ensures m.Rows() == if run.saved == [] then run.points else |run.saved|
    ensures forall i :: i in m.snapshots <==> 0 <= i < |run.saved|
  {
    hide RowsHold;
    forall i: int ensures i >= 0 && i in run.saved <==> 0 <= i < |run.saved| {
      if 0 <= i < |run.saved| {
        assert run.saved[i] == i;
      }
    }
  }

  /** Row t of the file holds the t-th datapoint, in every column that the datapoint has. */
  ghost predicate RowsAreData(m: DataManager, data: seq<Schema.Datapoint>)
    reads m
  {
    forall t, c :: 0 <= t < |data| && c in m.columns && c in data[t] && t < |m.columns[c]| ==>
      RowHolds(m.schema, c, m.columns[c], t, data[t])
  }

  lemma RowsInOrder(m: DataManager, run: SweepMeasure)
    requires FileOf(m, run) && run.saved == Upto(|run.saved|) && run.spoiled == {}
    ensures RowsAreData(m, run.data)
  {
    hide FileAgrees;
    forall t, c | 0 <= t < |run.data| && c in m.columns && c in run.data[t] && t < |m.columns[c]|
      ensures RowHolds(m.schema, c, m.columns[c], t, run.data[t])
    {
      assert run.saved[t] == t;
    }
  }

  /** A procedure run that was reported finished has saved the first k points of its sweep, each once
      and in order, and its file is closed. */
  lemma CutRunKeepsItsPoints(o: Orchestration.Orchestrator, from: nat, at: nat, n: nat)
    requires o.Valid() && RunOf(o, from, at) && n >= 1 && Sweeps(o.runLog[from..at], n)
    ensures var p := ProgressOf(o.runLog[from..at]); !p.isOpen && |p.saved| <= n && p.saved == Upto(|p.saved|)
  {
    hide RunLog.Replay, ProgressOf, Sweeps, Upto, RunLog.Accept;
    var log := o.runLog[from..at];
    RunIsOver(o.runLog, from, at);
    ProcedureRun(log, |log|);
    assert log[..|log|] == log;
    SavedInOrder(log, n);
  }

  /** ... and if it was reported done, every point. */
  lemma DoneRunSavedEveryPoint(o: Orchestration.Orchestrator, from: nat, at: nat, n: nat)
    requires o.Valid() && RunOf(o, from, at) && o.runLog[at].status.Done? && n >= 1 && Sweeps(o.runLog[from..at], n)
    ensures var saved := ProgressOf(o.runLog[from..at]).saved; |saved| == n && saved == Upto(n)
  {
    hide RunLog.Replay, ProgressOf, Sweeps, Upto, RunLog.Accept;
    var log := o.runLog[from..at];
    RunIsOver(o.runLog, from, at);
    ProcedureRun(log, |log|);
    assert log[..|log|] == log;
    SavedInOrder(log, n);
  }

  /** Take any procedure run of any Orchestrator that was reported finished, and let a sweep answer its
      calls as they were answered. However it was paused, gated or cut short, it has saved the first k
      points of its sweep, each once and in order; its file is closed and holds exactly those k rows,
      row t the grid of readings of point t (a file without any point keeps its empty rows); and if it
      was reported done, k is the whole sweep. */
  method RunLeavesItsFile(ghost o: Orchestration.Orchestrator, ghost from: nat, ghost at: nat, log: seq<RunLog.Event>,
          run: SweepMeasure, readings: nat -> Readings, bases: nat -> Schema.Datapoint)
    returns (agreed: bool, file: Option<DataManager>)
    requires o.Valid() && RunOf(o, from, at) && log == o.runLog[from..at]
    requires run.Valid() && run.index == 0 && run.manager.None?
    modifies run
    ensures Cooperates(run, log, readings, bases) ==> agreed
    ensures agreed ==>
      file.Some? && run.saved == Upto(|run.saved|) && |run.saved| <= run.points && |run.data| == |run.saved|
    ensures agreed && o.runLog[at].status.Done? ==> |run.saved| == run.points
    ensures agreed ==> (
      var m := file.value;
      && m.closed && m.Rows() == (if run.saved == [] then run.points else |run.saved|)
      && (forall i :: i in m.snapshots <==> 0 <= i < |run.saved|)
      && RowsAreData(m, run.data) && Recorded(run.schema, run.data, readings, bases))
  {
    hide RowsHold, FileAgrees, Assembled, RunLog.Replay, ProgressOf, Sweeps, Upto, RunLog.Accept, Recorded, RowsAreData;
    hide Cooperates;
    RunIsOver(o.runLog, from, at);
    agreed, file := PerformAll(run, log, readings, bases);
    if agreed {
      CutRunKeepsItsPoints(o, from, at, run.points);
      if o.runLog[at].status.Done? {
        DoneRunSavedEveryPoint(o, from, at, run.points);
      }
      RowsOfFile(file.value, run);
      RowsInOrder(file.value, run);
    }
  }

  lemma FinishedFrom(l: RunLog.Ledger, status: RunLog.Status)
    requires RunLog.Accept(l, RunLog.Finished(status)).Ledger?
    ensures l.Ledger? && l.phase == if status.Done? then RunLog.Parked else RunLog.Aborting
  {
  }

  /** A finished run has parked, if it is done, or has been aborted. */
  lemma RunIsOver(log: seq<RunLog.Event>, from: nat, at: nat)
    requires RunLog.Replay(log).Ledger? && from < at < |log| && OneRun(log[from..at]) && log[at].Finished?
    ensures RunLog.Replay(log[from..at]).Ledger?
    ensures RunLog.Replay(log[from..at]).phase == if log[at].status.Done? then RunLog.Parked else RunLog.Aborting
  {
    hide RunLog.Replay, RunLog.Accept, OneRun;
    RunStandsAlone(log, from, at);
    RunLog.PrefixesAccepted(log, at + 1);
    assert log[..at + 1] == log[..at] + [log[at]];
    RunLog.ReplayAppend(log[..at], log[at]);
    FinishedFrom(RunLog.Replay(log[..at]), log[at].status);
  }
}
