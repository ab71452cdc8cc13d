/** A measurement sweep: the grid of readings of one point, and the run that saves one row a point. */
module SweepRun {
  import opened Conditions
  import opened Schema
  import opened DataFile

  type Reading = map<Name, Datum>

  /** What comes of the k-th reading of a point: a reading, or an exception out of it or out of the
      dispatch before it. */
  type Readings = nat -> Option<Reading>

  /** A reading can be placed in the grid: no key but the columns of the point, and every block. */
  ghost predicate Usable(r: Option<Reading>, columns: set<Name>, blocks: set<Name>) {
    r.Some? && r.value.Keys <= columns && blocks <= r.value.Keys
  }

  /** Readings `from` up to `to` can be placed. */
  ghost predicate UsableFrom(reading: Readings, from: nat, to: nat, columns: set<Name>, blocks: set<Name>) {
    forall k: nat :: from <= k < to ==> Usable(reading(k), columns, blocks)
  }

  // ---- the reading loop ---------------------------------------------------------------------

  datatype LoopEvent = Dispatched(axis: nat, value: real) | Taken(k: nat)

  /** The value last dispatched on an axis. */
  function LastOn(trace: seq<LoopEvent>, axis: nat): Option<real> {
    if trace == [] then None
    else if trace[|trace| - 1].Dispatched? && trace[|trace| - 1].axis == axis then Some(trace[|trace| - 1].value)
    else LastOn(trace[..|trace| - 1], axis)
  }

  /** What an axis must stand at for position `i`: its i-th value, if it loops at all. */
  function ValueAt(axis: Option<seq<real>>, i: nat): Option<real>
    requires axis.Some? ==> i < |axis.value|
  {
    if axis.Some? then Some(axis.value[i]) else None
  }

  /** The k-th reading was taken while the axes stood at the values of its cell. */
  ghost predicate TakenAt(trace: seq<LoopEvent>, pos: nat, k: nat, v1: Option<real>, v2: Option<real>) {
    && pos < |trace| && trace[pos] == Taken(k)
    && LastOn(trace[..pos], 1) == v1 && LastOn(trace[..pos], 2) == v2
  }

  /** The readings taken before row `i` begins. */
  function Before(i: nat, n2: nat): nat { i * n2 }

  function Takes(trace: seq<LoopEvent>): nat {
    if trace == [] then 0 else Takes(trace[..|trace| - 1]) + if trace[|trace| - 1].Taken? then 1 else 0
  }

  lemma TraceGrows(trace: seq<LoopEvent>, e: LoopEvent)
    ensures Takes(trace + [e]) == Takes(trace) + if e.Taken? then 1 else 0
    ensures forall axis ::
      LastOn(trace + [e], axis) == if e.Dispatched? && e.axis == axis then Some(e.value) else LastOn(trace, axis)
  {
    assert (trace + [e])[..|trace|] == trace;
  }

  lemma TakenStays(trace: seq<LoopEvent>, more: seq<LoopEvent>, pos: nat, k: nat, v1: Option<real>, v2: Option<real>)
    requires TakenAt(trace, pos, k, v1, v2)
    ensures TakenAt(trace + more, pos, k, v1, v2)
  {
    assert (trace + more)[..pos] == trace[..pos];
  }

  /** The readings of one row were taken in order, each while the axes stood at the values of its cell. */
  ghost predicate RowTaken(trace: seq<LoopEvent>, at: seq<nat>, base: nat, axis1: Option<seq<real>>,
          axis2: Option<seq<real>>, i1: nat)
    requires (axis1.Some? ==> i1 < |axis1.value|) && (axis2.Some? ==> |at| <= |axis2.value|)
  {
    forall j :: 0 <= j < |at| ==> TakenAt(trace, at[j], base + j, ValueAt(axis1, i1), ValueAt(axis2, j))
  }

  /** One inner row: each cell (i1, i2) takes the next reading after axis 2 was set to its value, up to
      the first reading that raises or cannot be placed. */
  method ReadRow(i1: nat, n2: nat, axis1: Option<seq<real>>, axis2: Option<seq<real>>, reading: Readings,
          columns: set<Name>, blocks: set<Name>, grid: array2<Reading>, ghost before: seq<LoopEvent>)
    returns (ok: bool, ghost trace: seq<LoopEvent>, ghost at: seq<nat>)
    requires grid.Length1 == n2 && i1 < grid.Length0
    requires axis1.Some? ==> |axis1.value| == grid.Length0
    requires axis2.Some? ==> |axis2.value| == n2
    requires LastOn(before, 1) == ValueAt(axis1, i1) && (axis2.None? ==> LastOn(before, 2) == None)
    requires Takes(before) == Before(i1, n2)
    modifies grid
    ensures before <= trace && Takes(trace) == Before(i1, n2) + |at|
    ensures |at| <= n2 && ok == (|at| == n2) && UsableFrom(reading, Before(i1, n2), Takes(trace), columns, blocks)
    ensures !ok ==> !Usable(reading(Takes(trace)), columns, blocks)
    ensures RowTaken(trace, at, Before(i1, n2), axis1, axis2, i1)
    ensures forall j :: 0 <= j < |at| ==> Some(grid[i1, j]) == reading(Before(i1, n2) + j)
    ensures forall i, j :: 0 <= i < grid.Length0 && 0 <= j < n2 && i != i1 ==> grid[i, j] == old(grid[i, j])
    ensures LastOn(trace, 1) == ValueAt(axis1, i1) && (axis2.None? ==> LastOn(trace, 2) == None)
  {
    hide LastOn, Takes, TakenAt, Before, Usable;
    ok, trace, at := true, before, [];
    for i2 := 0 to n2
      invariant ok && before <= trace && |at| == i2 && Takes(trace) == Before(i1, n2) + i2
      invariant UsableFrom(reading, Before(i1, n2), Takes(trace), columns, blocks)
      invariant LastOn(trace, 1) == ValueAt(axis1, i1) && (axis2.None? ==> LastOn(trace, 2) == None)
      invariant RowTaken(trace, at, Before(i1, n2), axis1, axis2, i1)
      invariant forall j :: 0 <= j < i2 ==> Some(grid[i1, j]) == reading(Before(i1, n2) + j)
      invariant forall i, j :: 0 <= i < grid.Length0 && 0 <= j < n2 && i != i1 ==> grid[i, j] == old(grid[i, j])
    {
      ghost var done := trace;
      if axis2.Some? {
        TraceGrows(trace, Dispatched(2, axis2.value[i2]));
        trace := trace + [Dispatched(2, axis2.value[i2])];
      }
      var k := Before(i1, n2) + i2;
      var taken := reading(k);
      UsableMeans(taken, columns, blocks);
      if taken.None? || !(taken.value.Keys <= columns) || !(blocks <= taken.value.Keys) {
        RowStaysTaken(done, trace, at, Before(i1, n2), axis1, axis2, i1);
        return false, trace, at;
      }
      grid[i1, i2] := taken.value;
      TraceGrows(trace, Taken(k));
      TakenNow(trace, k);
      RowStaysTaken(done, trace + [Taken(k)], at, Before(i1, n2), axis1, axis2, i1);
      at := at + [|trace|];
      trace := trace + [Taken(k)];
    }
  }

  lemma UsableMeans(r: Option<Reading>, columns: set<Name>, blocks: set<Name>)
    ensures Usable(r, columns, blocks) <==> r.Some? && r.value.Keys <= columns && blocks <= r.value.Keys
  {
  }

  lemma TakenNow(trace: seq<LoopEvent>, k: nat)
    ensures TakenAt(trace + [Taken(k)], |trace|, k, LastOn(trace, 1), LastOn(trace, 2))
  {
    assert (trace + [Taken(k)])[..|trace|] == trace;
  }

  lemma RowStaysTaken(before: seq<LoopEvent>, after: seq<LoopEvent>, at: seq<nat>, base: nat, axis1: Option<seq<real>>,
          axis2: Option<seq<real>>, i1: nat)
    requires before <= after && (axis1.Some? ==> i1 < |axis1.value|) && (axis2.Some? ==> |at| <= |axis2.value|)
    requires RowTaken(before, at, base, axis1, axis2, i1)
    ensures RowTaken(after, at, base, axis1, axis2, i1)
  {
    forall j | 0 <= j < |at| ensures TakenAt(after, at[j], base + j, ValueAt(axis1, i1), ValueAt(axis2, j)) {
      TakenStays(before, after[|before|..], at[j], base + j, ValueAt(axis1, i1), ValueAt(axis2, j));
      assert before + after[|before|..] == after;
    }
  }

  /** The whole grid: every cell holds its own reading, taken while both axes stood at the cell's
      values, and no other reading is taken. The first reading that raises or cannot be placed ends
      the loop. */
  method ReadGrid(n1: nat, n2: nat, axis1: Option<seq<real>>, axis2: Option<seq<real>>, reading: Readings,
          columns: set<Name>, blocks: set<Name>)
    returns (ok: bool, grid: array2<Reading>, ghost trace: seq<LoopEvent>, ghost at: seq<seq<nat>>)
    requires axis1.Some? ==> |axis1.value| == n1
    requires axis2.Some? ==> |axis2.value| == n2
    ensures fresh(grid) && grid.Length0 == n1 && grid.Length1 == n2
    ensures ok <==> UsableFrom(reading, 0, n1 * n2, columns, blocks)
    ensures ok ==> Takes(trace) == n1 * n2 && |at| == n1
    ensures ok ==> forall i :: 0 <= i < n1 ==> |at[i]| == n2 && RowTaken(trace, at[i], Before(i, n2), axis1, axis2, i)
    ensures ok ==> forall i, j :: 0 <= i < n1 && 0 <= j < n2 ==> Some(grid[i, j]) == reading(Before(i, n2) + j)
    ensures !ok ==>
      && Takes(trace) < n1 * n2 && !Usable(reading(Takes(trace)), columns, blocks)
      && UsableFrom(reading, 0, Takes(trace), columns, blocks)
  {
    hide LastOn, Takes, TakenAt, RowTaken, Before, Usable;
    EmptyTrace(n1, n2);
    grid := new Reading[n1, n2]((_, _) => map[]);
    ok, trace, at := true, [], [];
    for i1 := 0 to n1
      invariant ok && |at| == i1 && Takes(trace) == Before(i1, n2)
      invariant UsableFrom(reading, 0, Takes(trace), columns, blocks)
      invariant (axis1.None? ==> LastOn(trace, 1) == None) && (axis2.None? ==> LastOn(trace, 2) == None)
      invariant forall i :: 0 <= i < i1 ==> |at[i]| == n2 && RowTaken(trace, at[i], Before(i, n2), axis1, axis2, i)
      invariant forall i, j :: 0 <= i < i1 && 0 <= j < n2 ==> Some(grid[i, j]) == reading(Before(i, n2) + j)
    {
      ghost var done := trace;
      if axis1.Some? {
        TraceGrows(trace, Dispatched(1, axis1.value[i1]));
        trace := trace + [Dispatched(1, axis1.value[i1])];
      }
      ghost var row;
      ok, trace, row := ReadRow(i1, n2, axis1, axis2, reading, columns, blocks, grid, trace);
      NextRow(i1, n1, n2);
      if !ok {
        return;
      }
      forall i | 0 <= i < i1 ensures RowTaken(trace, at[i], Before(i, n2), axis1, axis2, i) {
        RowStaysTaken(done, trace, at[i], Before(i, n2), axis1, axis2, i);
      }
      at := at + [row];
    }
  }

  lemma EmptyTrace(n1: nat, n2: nat)
    ensures Takes([]) == Before(0, n2) == 0 && LastOn([], 1) == None
    ensures LastOn([], 2) == None && Before(n1, n2) == n1 * n2
  {
  }

  lemma NextRow(i: nat, n1: nat, n2: nat)
    requires i < n1
    ensures Before(i + 1, n2) == Before(i, n2) + n2 <= n1 * n2
  {
    assert (i + 1) * n2 <= n1 * n2;
  }

  // ---- one datapoint ------------------------------------------------------------------------

  function Cells(grid: array2<Reading>): seq<seq<Reading>>
    reads grid
  {
    seq(grid.Length0, i requires 0 <= i < grid.Length0 reads grid =>
      seq(grid.Length1, j requires 0 <= j < grid.Length1 reads grid => grid[i, j]))
  }

  function CellValue(r: Reading, key: Name): Datum {
    if key in r then r[key] else Nothing
  }

  /** One column of the datapoint: the grid of that key's values. */
  function GridOf(cells: seq<seq<Reading>>, key: Name): Datum {
    List(seq(|cells|, i requires 0 <= i < |cells| =>
      List(seq(|cells[i]|, j requires 0 <= j < |cells[i]| => CellValue(cells[i][j], key)))))
  }

  /** Scalars and arrays always carry the loop axes; a block drops them when there is no loop. */
  function ColumnOf(s: DataSchema, cells: seq<seq<Reading>>, key: Name): Datum {
    if key in s.blocks && s.loop1 == 1 && s.loop2 == 1 && |cells| > 0 && |cells[0]| > 0
    then CellValue(cells[0][0], key)
    else GridOf(cells, key)
  }

  function Measured(s: DataSchema): set<Name> {
    s.scalars.Keys + s.arrays.Keys + s.blocks.Keys
  }

  /** The measured columns on top of the columns that every point has (time, system state, axis). */
  function Assemble(s: DataSchema, cells: seq<seq<Reading>>, base: Datapoint): Datapoint {
    base + map key | key in Measured(s) :: ColumnOf(s, cells, key)
  }

  /** The instrument returned every declared key with its declared type and length. */
  ghost predicate AsDeclared(s: DataSchema, r: Reading) {
    && (forall k :: k in s.scalars ==> k in r && IsReal(r[k], s.scalars[k]))
    && (forall k :: k in s.arrays ==> k in r && Shaped(r[k], [s.arrays[k]]))
    && (forall k :: k in s.blocks ==> k in r && Shaped(r[k], [s.blocks[k].0, s.blocks[k].1]))
  }

  ghost predicate AllAsDeclared(s: DataSchema, cells: seq<seq<Reading>>) {
    && |cells| == s.loop1
    && (forall i :: 0 <= i < |cells| ==> |cells[i]| == s.loop2)
    && (forall i, j :: 0 <= i < |cells| && 0 <= j < |cells[i]| ==> AsDeclared(s, cells[i][j]))
  }

  ghost predicate DistinctNames(s: DataSchema) {
    && s.sweepColumns.Keys !! s.scalars.Keys !! s.arrays.Keys !! s.blocks.Keys
  }

  lemma NestedShape(v: Datum, n: nat, shape: seq<nat>)
    requires v.List? && |v.items| == n && forall i :: 0 <= i < n ==> Shaped(v.items[i], shape)
    ensures Shaped(v, [n] + shape)
  {
    assert ([n] + shape)[1..] == shape;
  }

  lemma GridShape(s: DataSchema, cells: seq<seq<Reading>>, key: Name, shape: seq<nat>)
    requires AllAsDeclared(s, cells)
    requires forall i, j :: 0 <= i < |cells| && 0 <= j < |cells[i]| ==> Shaped(CellValue(cells[i][j], key), shape)
    ensures Shaped(GridOf(cells, key), [s.loop1] + ([s.loop2] + shape))
  {
    var grid := GridOf(cells, key);
    forall i | 0 <= i < |cells| ensures Shaped(grid.items[i], [s.loop2] + shape) {
      NestedShape(grid.items[i], s.loop2, shape);
    }
    NestedShape(grid, s.loop1, [s.loop2] + shape);
  }

  lemma {:induction false} AllLeavesReal(items: seq<Datum>, shape: seq<nat>, dtype: DType)
    requires forall i :: 0 <= i < |items| ==> RealLeaves(items[i], shape, dtype)
    ensures forall i :: 0 <= i < |items| ==> Shaped(items[i], shape)
    ensures forall j :: 0 <= j < |LeavesOfAll(items, shape)| ==> IsReal(LeavesOfAll(items, shape)[j], dtype)
    decreases |items|
  {
    if items != [] {
      AllLeavesReal(items[..|items| - 1], shape, dtype);
    }
  }

  lemma NestedReal(v: Datum, n: nat, shape: seq<nat>, dtype: DType)
    requires v.List? && |v.items| == n && forall i :: 0 <= i < n ==> RealLeaves(v.items[i], shape, dtype)
    ensures RealLeaves(v, [n] + shape, dtype)
  {
    NestedShape(v, n, shape);
    AllLeavesReal(v.items, shape, dtype);
    assert ([n] + shape)[1..] == shape;
  }

  lemma GridReal(s: DataSchema, cells: seq<seq<Reading>>, key: Name)
    requires AllAsDeclared(s, cells) && key in s.scalars
    ensures RealLeaves(GridOf(cells, key), s.LoopShape(), s.scalars[key])
  {
    var grid, dtype := GridOf(cells, key), s.scalars[key];
    forall i | 0 <= i < |cells| ensures RealLeaves(grid.items[i], [s.loop2], dtype) {
      forall j | 0 <= j < |cells[i]| ensures RealLeaves(grid.items[i].items[j], [], dtype) {
        assert AsDeclared(s, cells[i][j]);
      }
      NestedReal(grid.items[i], s.loop2, [], dtype);
      assert [s.loop2] + [] == [s.loop2];
    }
    NestedReal(grid, s.loop1, [s.loop2], dtype);
    assert [s.loop1] + [s.loop2] == s.LoopShape();
  }

  /** When the instrument returns what it declared, the assembled datapoint validates. */
  lemma DeclaredReadingsConform(s: DataSchema, cells: seq<seq<Reading>>, base: Datapoint)
    requires s.WellFormed() && DistinctNames(s) && AllAsDeclared(s, cells) && BaseAsDeclared(s, base)
    ensures Conforms(s, Assemble(s, cells, base))
  {
    hide Shaped, RealLeaves;
    var d := Assemble(s, cells, base);
    forall k | k in s.scalars ensures RealLeaves(d[k], s.LoopShape(), s.scalars[k]) {
      GridReal(s, cells, k);
    }
    forall k | k in s.arrays ensures Shaped(d[k], s.ArrayShape(s.arrays[k])) {
      ArrayColumn(s, cells, k);
    }
    forall k | k in s.blocks ensures Shaped(d[k], s.BlockShape(s.blocks[k])) {
      BlockColumn(s, cells, k);
    }
  }

  lemma ArrayColumn(s: DataSchema, cells: seq<seq<Reading>>, key: Name)
    requires AllAsDeclared(s, cells) && key in s.arrays && key !in s.blocks
    ensures Shaped(ColumnOf(s, cells, key), s.ArrayShape(s.arrays[key]))
  {
    hide Shaped;
    forall i, j | 0 <= i < |cells| && 0 <= j < |cells[i]| ensures Shaped(CellValue(cells[i][j], key), [s.arrays[key]]) {
      assert AsDeclared(s, cells[i][j]);
    }
    GridShape(s, cells, key, [s.arrays[key]]);
    assert [s.loop1] + ([s.loop2] + [s.arrays[key]]) == s.ArrayShape(s.arrays[key]);
  }

  lemma BlockColumn(s: DataSchema, cells: seq<seq<Reading>>, key: Name)
    requires s.WellFormed() && AllAsDeclared(s, cells) && key in s.blocks
    ensures Shaped(ColumnOf(s, cells, key), s.BlockShape(s.blocks[key]))
  {
    hide Shaped;
    var size := [s.blocks[key].0, s.blocks[key].1];
    forall i, j | 0 <= i < |cells| && 0 <= j < |cells[i]| ensures Shaped(CellValue(cells[i][j], key), size) {
      assert AsDeclared(s, cells[i][j]);
    }
    if !(s.loop1 == 1 && s.loop2 == 1) {
      GridShape(s, cells, key, size);
      assert [s.loop1] + ([s.loop2] + size) == s.BlockShape(s.blocks[key]);
    }
  }

  /** Nested as the shape says, down to numbers. */
  ghost predicate NumbersOf(v: Datum, shape: seq<nat>) {
    Shaped(v, shape) && LeavesAreNumbers(v, shape)
  }

  lemma {:induction false} NumbersAreNumeric(v: Datum, shape: seq<nat>)
    requires NumbersOf(v, shape)
    ensures Numeric(v)
    decreases shape
  {
    if shape != [] {
      forall i | 0 <= i < |v.items| ensures Numeric(v.items[i]) {
        NumbersAreNumeric(v.items[i], shape[1..]);
      }
    }
  }

  lemma NestedNumbers(v: Datum, n: nat, shape: seq<nat>)
    requires v.List? && |v.items| == n && forall i :: 0 <= i < n ==> NumbersOf(v.items[i], shape)
    ensures NumbersOf(v, [n] + shape)
  {
    assert forall i :: 0 <= i < n ==> NumbersOf(v.items[i], shape);
    NestedShape(v, n, shape);
    assert ([n] + shape)[1..] == shape;
  }

  lemma GridNumbers(s: DataSchema, cells: seq<seq<Reading>>, key: Name, shape: seq<nat>)
    requires AllAsDeclared(s, cells)
    requires forall i, j :: 0 <= i < |cells| && 0 <= j < |cells[i]| ==> NumbersOf(CellValue(cells[i][j], key), shape)
    ensures NumbersOf(GridOf(cells, key), [s.loop1] + ([s.loop2] + shape))
  {
    hide NumbersOf;
    var grid := GridOf(cells, key);
    forall i | 0 <= i < |cells| ensures NumbersOf(grid.items[i], [s.loop2] + shape) {
      NestedNumbers(grid.items[i], s.loop2, shape);
    }
    NestedNumbers(grid, s.loop1, [s.loop2] + shape);
  }

  /** The arrays and blocks of a reading are of the declared size, and hold numbers. */
  ghost predicate AllNumbers(s: DataSchema, r: Reading) {
    && (forall k :: k in s.arrays ==> k in r && NumbersOf(r[k], [s.arrays[k]]))
    && (forall k :: k in s.blocks ==> k in r && NumbersOf(r[k], [s.blocks[k].0, s.blocks[k].1]))
  }

  lemma ArrayNumbers(s: DataSchema, cells: seq<seq<Reading>>, key: Name)
    requires AllAsDeclared(s, cells) && key in s.arrays && key !in s.blocks
    requires forall i, j :: 0 <= i < |cells| && 0 <= j < |cells[i]| ==> AllNumbers(s, cells[i][j])
    ensures NumbersOf(ColumnOf(s, cells, key), s.ArrayShape(s.arrays[key]))
  {
    hide NumbersOf;
    forall i, j | 0 <= i < |cells| && 0 <= j < |cells[i]|
      ensures NumbersOf(CellValue(cells[i][j], key), [s.arrays[key]])
    {
      assert AllNumbers(s, cells[i][j]);
    }
    GridNumbers(s, cells, key, [s.arrays[key]]);
    assert [s.loop1] + ([s.loop2] + [s.arrays[key]]) == s.ArrayShape(s.arrays[key]);
  }

  lemma BlockNumbers(s: DataSchema, cells: seq<seq<Reading>>, key: Name)
    requires s.WellFormed() && AllAsDeclared(s, cells) && key in s.blocks
    requires forall i, j :: 0 <= i < |cells| && 0 <= j < |cells[i]| ==> AllNumbers(s, cells[i][j])
    ensures NumbersOf(ColumnOf(s, cells, key), s.BlockShape(s.blocks[key]))
  {
    hide NumbersOf;
    var size := [s.blocks[key].0, s.blocks[key].1];
    forall i, j | 0 <= i < |cells| && 0 <= j < |cells[i]| ensures NumbersOf(CellValue(cells[i][j], key), size) {
      assert AllNumbers(s, cells[i][j]);
    }
    if !(s.loop1 == 1 && s.loop2 == 1) {
      GridNumbers(s, cells, key, size);
      assert [s.loop1] + ([s.loop2] + size) == s.BlockShape(s.blocks[key]);
    }
  }

  lemma ScalarNumbers(s: DataSchema, cells: seq<seq<Reading>>, key: Name)
    requires AllAsDeclared(s, cells) && key in s.scalars
    ensures NumbersOf(GridOf(cells, key), s.LoopShape())
  {
    GridReal(s, cells, key);
    LeavesOfScalar(GridOf(cells, key), s.LoopShape(), s.scalars[key]);
  }

  ghost predicate BaseAsDeclared(s: DataSchema, base: Datapoint) {
    base.Keys == s.sweepColumns.Keys && forall k :: k in base ==> IsReal(base[k], s.sweepColumns[k])
  }

  /** When the instrument returns what it declared, and numbers, what is assembled validates and is
      stored. */
  lemma DeclaredReadingsAreStorable(s: DataSchema, cells: seq<seq<Reading>>, base: Datapoint)
    requires s.WellFormed() && DistinctNames(s) && AllAsDeclared(s, cells) && BaseAsDeclared(s, base)
    requires forall i, j :: 0 <= i < |cells| && 0 <= j < |cells[i]| ==> AllNumbers(s, cells[i][j])
    ensures Storable(s, Assemble(s, cells, base))
  {
    DeclaredReadingsConform(s, cells, base);
    hide Conforms, NumbersOf, AllAsDeclared, AllNumbers, GridOf;
    var d := Assemble(s, cells, base);
    forall k | k in d ensures Numeric(d[k]) {
      if k in s.scalars {
        ScalarNumbers(s, cells, k);
        NumbersAreNumeric(d[k], s.LoopShape());
      } else if k in s.arrays {
        ArrayNumbers(s, cells, k);
        NumbersAreNumeric(d[k], s.ArrayShape(s.arrays[k]));
      } else if k in s.blocks {
        BlockNumbers(s, cells, k);
        NumbersAreNumeric(d[k], s.BlockShape(s.blocks[k]));
      }
    }
    StoredLeaves(s, cells, base);
  }

  lemma StoredLeaves(s: DataSchema, cells: seq<seq<Reading>>, base: Datapoint)
    requires s.WellFormed() && DistinctNames(s) && AllAsDeclared(s, cells) && BaseAsDeclared(s, base)
    requires forall i, j :: 0 <= i < |cells| && 0 <= j < |cells[i]| ==> AllNumbers(s, cells[i][j])
    ensures var d := Assemble(s, cells, base);
      && (forall k :: k in s.arrays ==> k in d && NumbersOf(d[k], s.ArrayShape(s.arrays[k])))
      && (forall k :: k in s.blocks ==> k in d && NumbersOf(d[k], s.BlockShape(s.blocks[k])))
  {
    hide NumbersOf, AllAsDeclared, AllNumbers, GridOf;
    var d := Assemble(s, cells, base);
    forall k | k in s.arrays ensures NumbersOf(d[k], s.ArrayShape(s.arrays[k])) {
      ArrayNumbers(s, cells, k);
    }
    forall k | k in s.blocks ensures NumbersOf(d[k], s.BlockShape(s.blocks[k])) {
      BlockNumbers(s, cells, k);
    }
  }

  // ---- the run ------------------------------------------------------------------------------

  /** How far a run has come: the index it stands at, the indices saved, and whether its file is open. */
  datatype Progress = Progress(index: nat, saved: seq<nat>, isOpen: bool)

  ghost predicate FileAgrees(lastSaved: int, snapshots: set<int>, saved: seq<nat>) {
    && lastSaved == (if saved == [] then -1 else saved[|saved| - 1])
    && forall i :: i in snapshots <==> i >= 0 && i in saved
  }

  /** Row by row, the readings in the order they were taken. */
  ghost predicate IsGrid(cells: seq<seq<Reading>>, reading: Readings, n1: nat, n2: nat) {
    && |cells| == n1 && (forall i :: 0 <= i < n1 ==> |cells[i]| == n2)
    && forall i, j :: 0 <= i < n1 && 0 <= j < n2 ==> Some(cells[i][j]) == reading(Before(i, n2) + j)
  }

  ghost predicate Storable(s: DataSchema, d: Datapoint) {
    s.WellFormed() && Conforms(s, d) && NumericDatapoint(s, d)
  }

  /** The row of each index saved holds the datapoint it was saved with, unless a second attempt to
      save that index got part of the way. */
  ghost predicate RowsHold(s: DataSchema, columns: map<Name, seq<Cell>>, saved: seq<nat>, data: seq<Datapoint>,
          spoiled: set<nat>) {
    && |data| == |saved|
    && forall t, c ::
         (0 <= t < |saved| && saved[t] !in spoiled && c in columns && c in data[t] && saved[t] < |columns[c]|) ==>
         RowHolds(s, c, columns[c], saved[t], data[t])
  }

  ghost predicate RowHolds(s: DataSchema, c: Name, column: seq<Cell>, i: nat, d: Datapoint)
    requires c in d && i < |column|
  {
    Put(column[i]) == Store(s, c, d[c])
  }

  lemma NewRowHolds(s: DataSchema, before: map<Name, seq<Cell>>, after: map<Name, seq<Cell>>, saved: seq<nat>,
          data: seq<Datapoint>, spoiled: set<nat>, index: nat, d: Datapoint)
    requires RowsHold(s, before, saved, data, spoiled) && Written(s, d, before, after, index, d.Keys) && index !in saved
    ensures RowsHold(s, after, saved + [index], data + [d], spoiled)
  {
    hide Store;
    var saved', data' := saved + [index], data + [d];
    forall t, c | 0 <= t < |saved'| && saved'[t] !in spoiled && c in after && c in data'[t] && saved'[t] < |after[c]|
      ensures RowHolds(s, c, after[c], saved'[t], data'[t])
    {
      assert ColumnWritten(s, d, c, before[c], after[c], index, c in d.Keys);
      if t < |saved| {
        assert saved[t] != index;
        assert RowHolds(s, c, before[c], saved[t], data[t]);
      }
    }
  }

  /** A failed save leaves every row alone but its own. */
  lemma SpoiledRow(s: DataSchema, before: map<Name, seq<Cell>>, after: map<Name, seq<Cell>>, saved: seq<nat>,
          data: seq<Datapoint>, spoiled: set<nat>, index: nat, d: Datapoint)
    requires RowsHold(s, before, saved, data, spoiled) && Written(s, d, before, after, index, {})
    ensures RowsHold(s, after, saved, data, if index in saved then spoiled + {index} else spoiled)
  {
    hide Store;
    forall t, c | 0 <= t < |saved| && saved[t] !in spoiled && saved[t] != index
      && c in after && c in data[t] && saved[t] < |after[c]|
      ensures RowHolds(s, c, after[c], saved[t], data[t])
    {
      assert ColumnWritten(s, d, c, before[c], after[c], index, false);
      assert RowHolds(s, c, before[c], saved[t], data[t]);
    }
  }

  lemma RowsHoldTrimmed(s: DataSchema, before: map<Name, seq<Cell>>, after: map<Name, seq<Cell>>, saved: seq<nat>,
          data: seq<Datapoint>, spoiled: set<nat>)
    requires RowsHold(s, before, saved, data, spoiled) && after.Keys == before.Keys
    requires forall c :: c in after ==> |after[c]| <= |before[c]| && after[c] == before[c][..|after[c]|]
    ensures RowsHold(s, after, saved, data, spoiled)
  {
    hide Store;
    forall t, c | 0 <= t < |saved| && saved[t] !in spoiled && c in after && c in data[t] && saved[t] < |after[c]|
      ensures RowHolds(s, c, after[c], saved[t], data[t])
    {
      assert RowHolds(s, c, before[c], saved[t], data[t]);
    }
  }

  class SweepMeasure {
    const schema: DataSchema
    const points: nat
    const axis1: Option<seq<real>>
    const axis2: Option<seq<real>>
    var index: nat
    var manager: Option<DataManager>
    ghost var saved: seq<nat>
    ghost var data: seq<Datapoint>
    ghost var spoiled: set<nat>

    ghost function Now(): Progress
      reads this
    {
      Progress(index, saved, manager.Some?)
    }

    ghost predicate Valid()
      reads this, if manager.Some? then {manager.value} else {}
    {
      && (axis1.Some? ==> |axis1.value| == schema.loop1) && (axis2.Some? ==> |axis2.value| == schema.loop2)
      && (manager.Some? ==>
            var m := manager.value;
            && m.Valid() && !m.closed && m.points == points && m.schema == schema
            && FileAgrees(m.lastSavedIndex, m.snapshots, saved) && RowsHold(schema, m.columns, saved, data, spoiled))
    }

    constructor (schema: DataSchema, points: nat, axis1: Option<seq<real>>, axis2: Option<seq<real>>)
      requires axis1.Some? ==> |axis1.value| == schema.loop1
      requires axis2.Some? ==> |axis2.value| == schema.loop2
      ensures Valid() && Now() == Progress(0, [], false) && data == []
      ensures spoiled == {} && this.points == points && this.schema == schema
    {
      this.schema, this.points, this.axis1, this.axis2 := schema, points, axis1, axis2;
      index, manager, saved, data, spoiled := 0, None, [], [], {};
    }

    /** Open a new file; a sweep without points has none, and the start raises. The index is where
        it was: 0, for a procedure that has not run before. */
    method Initiate() returns (ok: bool)
      requires Valid()
      modifies this`manager, this`saved, this`data, this`spoiled
      ensures Valid() && ok == (points >= 1)
      ensures Now() == if ok then Progress(old(index), [], true) else old(Now())
      ensures ok ==> fresh(manager.value) && data == [] && spoiled == {}
      ensures ok ==>
        forall c, i :: c in manager.value.columns && 0 <= i < points ==> manager.value.columns[c][i] == Empty
    {
      if points < 1 {
        return false;
      }
      var m := new DataManager(schema, points);
      manager, saved, data, spoiled := Some(m), [], [], {};
      ok := true;
    }

    /** Every reading of the point comes, and can be placed. */
    ghost predicate AllUsable(reading: Readings) {
      UsableFrom(reading, 0, schema.loop1 * schema.loop2, Measured(schema), schema.blocks.Keys)
    }

    /** Take the grid of readings of this point, check it and save it as one row. Nothing malformed
        is written, and what is well formed is saved; a reading that raises saves nothing. */
    method Measure(reading: Readings, base: Datapoint)
      returns (ok: bool, ghost d: Datapoint, ghost cells: seq<seq<Reading>>)
      requires Valid()
      modifies this`saved, this`data, this`spoiled, if manager.Some? then {manager.value} else {}
      ensures Valid() && manager == old(manager)
      ensures Now() == (if ok then old(Now()).(saved := old(saved) + [index]) else old(Now()))
      ensures data == if ok then old(data) + [d] else old(data)
      ensures index !in old(saved) ==> spoiled == old(spoiled)
      ensures manager.Some? && AllUsable(reading) ==>
        IsGrid(cells, reading, schema.loop1, schema.loop2) && d == Assemble(schema, cells, base)
      ensures manager.Some? && !AllUsable(reading) ==> unchanged(manager.value)
      ensures ok ==> manager.Some? && AllUsable(reading) && Conforms(schema, d) && index < points
      ensures manager.Some? && AllUsable(reading) && Storable(schema, d) && index < points && index !in old(saved) ==>
        ok
    {
      hide IsGrid, Assemble, Conforms, Written, NumericDatapoint, RowsHold, FileAgrees, UsableFrom;
      ok, d, cells := false, map[], [];
      if manager.None? {
        return;
      }
      var taken, point;
      taken, point, cells := TakePoint(reading, base);
      if !taken {
        return;
      }
      d := point;
      var problems := Validate(schema, point);
      if problems == [] {
        ok := Save(point);
      }
    }

    method TakePoint(reading: Readings, base: Datapoint)
      returns (taken: bool, d: Datapoint, ghost cells: seq<seq<Reading>>)
      requires axis1.Some? ==> |axis1.value| == schema.loop1
      requires axis2.Some? ==> |axis2.value| == schema.loop2
      ensures taken <==> AllUsable(reading)
      ensures taken ==> IsGrid(cells, reading, schema.loop1, schema.loop2) && d == Assemble(schema, cells, base)
    {
      hide Assemble, RowTaken, Takes, Before, UsableFrom, Usable;
      var ok, grid, _, _ := ReadGrid(schema.loop1, schema.loop2, axis1, axis2, reading, Measured(schema),
        schema.blocks.Keys);
      taken := ok;
      var rows := Cells(grid);
      cells := rows;
      d := if taken then Assemble(schema, rows, base) else map[];
    }

    method Save(d: Datapoint) returns (ok: bool)
      requires Valid() && manager.Some? && Conforms(schema, d)
      modifies this`saved, this`data, this`spoiled, manager.value
      ensures Valid() && saved == (if ok then old(saved) + [index] else old(saved))
      ensures data == if ok then old(data) + [d] else old(data)
      ensures index !in old(saved) ==> spoiled == old(spoiled)
      ensures ok ==> index < points
      ensures Storable(schema, d) && index < points && index !in old(saved) ==> ok
    {
      hide Store, Conforms, NumericDatapoint, Written, Tallied, RowsHold;
      ghost var before := manager.value.columns;
      var outcome := manager.value.SaveDatapoint(index, d);
      ok := outcome.Saved?;
      if ok {
        NewRowHolds(schema, before, manager.value.columns, saved, data, spoiled, index, d);
        saved, data := saved + [index], data + [d];
      } else if outcome.Failed? {
        SpoiledRow(schema, before, manager.value.columns, saved, data, spoiled, index, d);
        spoiled := if index in saved then spoiled + {index} else spoiled;
      }
      if Storable(schema, d) {
        forall k | k in d ensures !Store(schema, k, d[k]).Bad? {
          ValidatedIsStoredWhole(schema, d, k);
        }
      }
    }

    /** Advance, and say whether there is a point there. */
    method ChangeSweepStep() returns (more: bool)
      requires Valid()
      modifies this`index
      ensures Valid() && Now() == old(Now()).(index := old(index) + 1) && more == (index < points)
    {
      index := index + 1;
      more := index < points;
    }

    /** standby() and abort() both close the file; a second close finds none. */
    method CloseFile()
      requires Valid()
      modifies this`manager, if manager.Some? then {manager.value} else {}
      ensures Valid() && Now() == old(Now()).(isOpen := false)
      ensures old(manager).Some? ==>
        var m := old(manager).value;
        && m.Valid() && m.closed && FileAgrees(m.lastSavedIndex, m.snapshots, saved) && m.points == points
        && m.schema == schema && RowsHold(schema, m.columns, saved, data, spoiled)
    {
      hide RowsHold;
      if manager.Some? {
        ghost var before := manager.value.columns;
        manager.value.Close();
        RowsHoldTrimmed(schema, before, manager.value.columns, saved, data, spoiled);
        manager := None;
      }
    }
  }
}
