/** The data file of one run: pre-allocated columns, written row by row by index, trimmed on close. */
module DataFile {
  import opened Conditions
  import opened Schema

  /** One row of one column: never written, written as given (a None among the numbers as NaN), or
      fitted to the declared size along the axis that an instrument may under-deliver. */
  datatype Cell = Empty | Held(v: Datum) | Fitted(v: Datum)

  datatype Storing = Put(cell: Cell) | Skip | Bad

  datatype Outcome = Saved(fitted: set<Name>, skipped: set<Name>) | Closed | OutOfRange | Failed

  // ---- shapes of numeric arrays -------------------------------------------------------------

  /** The shape a value has as a numeric array; None if it is ragged or holds something else. */
  function ShapeOf(v: Datum): Option<seq<nat>>
    decreases v, 0
  {
    match v
    case Number(_, _) => Some([])
    case Nothing => Some([])
    case NotANumber => None
    case List(items) =>
      if items == [] then Some([0])
      else if CommonShape(v, |items|).Some? then Some([|items|] + CommonShape(v, |items|).value)
      else None
  }

  /** The shape that the first `n` items of a list all have. */
  function CommonShape(v: Datum, n: nat): Option<seq<nat>>
    requires v.List? && 1 <= n <= |v.items|
    decreases v, 0, n
  {
    var last := ShapeOf(v.items[n - 1]);
    if n == 1 || last == CommonShape(v, n - 1) then last else None
  }

  ghost predicate Numeric(v: Datum)
    decreases v
  {
    match v
    case Number(_, _) => true
    case Nothing => true
    case NotANumber => false
    case List(items) => forall i :: 0 <= i < |items| ==> Numeric(items[i])
  }

  ghost predicate Positive(shape: seq<nat>) {
    forall i :: 0 <= i < |shape| ==> shape[i] > 0
  }

  /** A numeric value nested as a shape without empty axes is an array of exactly that shape. */
  lemma {:induction false} ShapedIsShape(v: Datum, shape: seq<nat>)
    requires Shaped(v, shape) && Numeric(v) && Positive(shape) && LeavesAreNumbers(v, shape)
    ensures ShapeOf(v) == Some(shape)
    decreases v, 0
  {
    if shape != [] {
      CommonIsShape(v, shape[1..], |v.items|);
      assert shape == [shape[0]] + shape[1..];
    }
  }

  lemma {:induction false} CommonIsShape(v: Datum, shape: seq<nat>, n: nat)
    requires v.List? && 1 <= n <= |v.items| && Positive(shape)
    requires forall i :: 0 <= i < |v.items| ==>
      Shaped(v.items[i], shape) && Numeric(v.items[i]) && LeavesAreNumbers(v.items[i], shape)
    ensures CommonShape(v, n) == Some(shape)
    decreases v, 0, n
  {
    ShapedIsShape(v.items[n - 1], shape);
    if n > 1 {
      CommonIsShape(v, shape, n - 1);
    }
  }

  /** At the depth of the shape there is a number or None, not a further list. */
  ghost predicate LeavesAreNumbers(v: Datum, shape: seq<nat>)
    requires Shaped(v, shape)
    decreases shape
  {
    if shape == [] then v.Number? || v.Nothing?
    else forall i :: 0 <= i < |v.items| ==> LeavesAreNumbers(v.items[i], shape[1..])
  }

  /** Cut, or padded with the blank, to a size along the axis at this depth. */
  function Fit(v: Datum, depth: nat, size: nat, blank: Datum): Datum
    decreases depth
  {
    if !v.List? then v
    else if depth == 0 then
      List(seq(size, k requires 0 <= k < size => if k < |v.items| then v.items[k] else blank))
    else List(seq(|v.items|, i requires 0 <= i < |v.items| => Fit(v.items[i], depth - 1, size, blank)))
  }

  function BlankRow(n: nat): Datum {
    List(seq(n, _ => Nothing))
  }

  /** What becomes of one value: where it goes by its name, and whether its shape fits there. */
  function Store(s: DataSchema, col: Name, v: Datum): Storing {
    if col in s.sweepColumns then (if v.Number? then Put(Held(v)) else Bad)
    else if col in s.scalars then (if ShapeOf(v) == Some(s.LoopShape()) then Put(Held(v)) else Bad)
    else if col in s.arrays then
      match ShapeOf(v) {
        case None => Bad
        case Some(sh) =>
          if sh == s.ArrayShape(s.arrays[col]) then Put(Held(v))
          else if sh != [] && sh[..|sh| - 1] == s.LoopShape() then Put(Fitted(Fit(v, 2, s.arrays[col], Nothing)))
          else Bad
      }
    else if col in s.blocks then
      match ShapeOf(v) {
        case None => Bad
        case Some(sh) =>
          var expected := s.BlockShape(s.blocks[col]);
          if sh == expected then Put(Held(v))
          else if |sh| >= 2 && sh[..|sh| - 2] == expected[..|expected| - 2] && sh[|sh| - 1] == s.blocks[col].1
          then Put(Fitted(Fit(v, |expected| - 2, s.blocks[col].0, BlankRow(s.blocks[col].1))))
          else Bad
      }
    else Skip
  }

  /** Every leaf of every declared column is a number or None. */
  ghost predicate NumericDatapoint(s: DataSchema, d: Datapoint)
    requires Conforms(s, d)
  {
    && (forall k :: k in d ==> Numeric(d[k]))
    && (forall k :: k in s.arrays ==> LeavesAreNumbers(d[k], s.ArrayShape(s.arrays[k])))
    && (forall k :: k in s.blocks ==> LeavesAreNumbers(d[k], s.BlockShape(s.blocks[k])))
  }

  /** A datapoint that validates is stored as it is: no shape error, nothing fitted, nothing skipped. */
  lemma ValidatedIsStoredWhole(s: DataSchema, d: Datapoint, k: Name)
    requires s.WellFormed() && Conforms(s, d) && NumericDatapoint(s, d) && k in d
    ensures Store(s, k, d[k]) == Put(Held(d[k]))
  {
    hide Numeric, LeavesAreNumbers, ShapeOf;
    if k in s.sweepColumns {
    } else if k in s.scalars {
      LeavesOfScalar(d[k], s.LoopShape(), s.scalars[k]);
      ShapedIsShape(d[k], s.LoopShape());
    } else if k in s.arrays {
      ShapedIsShape(d[k], s.ArrayShape(s.arrays[k]));
    } else {
      ShapedIsShape(d[k], s.BlockShape(s.blocks[k]));
    }
  }

  lemma {:induction false} LeavesOfScalar(v: Datum, shape: seq<nat>, dtype: DType)
    requires RealLeaves(v, shape, dtype)
    ensures LeavesAreNumbers(v, shape)
    decreases |shape|, 0
  {
    if shape == [] {
      assert LeavesOf(v, shape)[0] == v;
    } else {
      forall i | 0 <= i < |v.items| ensures LeavesAreNumbers(v.items[i], shape[1..]) {
        LeavesOfItem(v.items, shape[1..], i);
        var leaves := LeavesOf(v, shape);
        assert RealLeaves(v.items[i], shape[1..], dtype) by {
          forall j | 0 <= j < |LeavesOf(v.items[i], shape[1..])|
            ensures IsReal(LeavesOf(v.items[i], shape[1..])[j], dtype) {
            var x := LeavesOf(v.items[i], shape[1..])[j];
            assert x in LeavesOf(v.items[i], shape[1..]);
            assert x in leaves;
          }
        }
        LeavesOfScalar(v.items[i], shape[1..], dtype);
      }
    }
  }

  lemma {:induction false} LeavesOfItem(items: seq<Datum>, shape: seq<nat>, i: nat)
    requires forall j :: 0 <= j < |items| ==> Shaped(items[j], shape)
    requires i < |items|
    ensures forall x :: x in LeavesOf(items[i], shape) ==> x in LeavesOfAll(items, shape)
    decreases |items|
  {
    if i < |items| - 1 {
      LeavesOfItem(items[..|items| - 1], shape, i);
    }
  }

  // ---- what the columns promise -------------------------------------------------------------

  /** The value is an array of numbers (None among them) of exactly this shape. */
  ghost predicate IsArray(v: Datum, shape: seq<nat>) {
    Shaped(v, shape) && LeavesAreNumbers(v, shape)
  }

  /** The same value but for its axis at this depth, which has the given size now: what there was first,
      and blanks where there was nothing. */
  ghost predicate FittedTo(v: Datum, w: Datum, depth: nat, size: nat, blank: Datum)
    decreases depth
  {
    v.List? && w.List?
    && if depth == 0 then
         |w.items| == size
         && forall k :: 0 <= k < size ==> w.items[k] == if k < |v.items| then v.items[k] else blank
       else
         |w.items| == |v.items|
         && forall i :: 0 <= i < |v.items| ==> FittedTo(v.items[i], w.items[i], depth - 1, size, blank)
  }

  /** What a value must be for its column, and what the column then holds. An array may have any
      length and a block any number of rows; they are fitted to the declared one. */
  ghost predicate Lands(s: DataSchema, c: Name, v: Datum, cell: Cell) {
    var loops := [s.loop1, s.loop2];
    if c in s.sweepColumns then v.Number? && cell == Held(v)
    else if c in s.scalars then IsArray(v, loops) && cell == Held(v)
    else if c in s.arrays then
      exists n: nat :: IsArray(v, loops + [n])
        && if n == s.arrays[c] then cell == Held(v)
           else cell.Fitted? && FittedTo(v, cell.v, 2, s.arrays[c], Nothing)
    else if c in s.blocks then
      var prefix := if s.loop1 == 1 && s.loop2 == 1 then [] else loops;
      var (rows, cols) := s.blocks[c];
      exists n: nat :: n > 0 && IsArray(v, prefix + [n, cols])
        && if n == rows then cell == Held(v)
           else cell.Fitted? && FittedTo(v, cell.v, |prefix|, rows, List(seq(cols, _ => Nothing)))
    else false
  }

  ghost predicate Suits(s: DataSchema, c: Name, v: Datum) {
    exists cell :: Lands(s, c, v, cell)
  }

  lemma {:induction false} ShapeIsShaped(v: Datum, shape: seq<nat>)
    requires ShapeOf(v) == Some(shape)
    ensures IsArray(v, shape)
    decreases v, 0
  {
    if v.List? && v.items != [] {
      CommonIsShaped(v, shape[1..], |v.items|);
    }
  }

  lemma {:induction false} CommonIsShaped(v: Datum, shape: seq<nat>, n: nat)
    requires v.List? && 1 <= n <= |v.items| && CommonShape(v, n) == Some(shape)
    ensures forall i :: 0 <= i < n ==> IsArray(v.items[i], shape)
    decreases v, 0, n
  {
    ShapeIsShaped(v.items[n - 1], shape);
    if n > 1 {
      CommonIsShaped(v, shape, n - 1);
    }
  }

  /** Only the last axis may be empty. */
  ghost predicate PositiveButLast(shape: seq<nat>) {
    forall i :: 0 <= i < |shape| - 1 ==> shape[i] > 0
  }

  lemma {:induction false} ArrayHasShape(v: Datum, shape: seq<nat>)
    requires IsArray(v, shape) && PositiveButLast(shape)
    ensures ShapeOf(v) == Some(shape)
    decreases v, 0
  {
    if shape != [] {
      assert shape == [shape[0]] + shape[1..];
      if v.items == [] {
        assert shape == [0];
      } else {
        CommonHasShape(v, shape[1..], |v.items|);
      }
    }
  }

  lemma {:induction false} CommonHasShape(v: Datum, shape: seq<nat>, n: nat)
    requires v.List? && 1 <= n <= |v.items| && PositiveButLast(shape)
    requires forall i :: 0 <= i < |v.items| ==> IsArray(v.items[i], shape)
    ensures CommonShape(v, n) == Some(shape)
    decreases v, 0, n
  {
    ArrayHasShape(v.items[n - 1], shape);
    if n > 1 {
      CommonHasShape(v, shape, n - 1);
    }
  }

  lemma {:induction false} FitFits(v: Datum, shape: seq<nat>, depth: nat, size: nat, blank: Datum)
    requires Shaped(v, shape) && depth < |shape|
    ensures FittedTo(v, Fit(v, depth, size, blank), depth, size, blank)
    decreases depth
  {
    if depth > 0 {
      forall i | 0 <= i < |v.items|
        ensures FittedTo(v.items[i], Fit(v.items[i], depth - 1, size, blank), depth - 1, size, blank)
      {
        FitFits(v.items[i], shape[1..], depth - 1, size, blank);
      }
    }
  }

  /** A value is put into its column if and only if it is what the column asks for, and as it says. */
  lemma StoreLands(s: DataSchema, c: Name, v: Datum)
    requires s.WellFormed()
    ensures Store(s, c, v).Skip? <==> c !in s.Declared()
    ensures Store(s, c, v).Put? ==> Lands(s, c, v, Store(s, c, v).cell)
    ensures Store(s, c, v).Put? <==> Suits(s, c, v)
  {
    hide ShapeOf, Shaped, LeavesAreNumbers, Fit, FittedTo;
    if c in s.sweepColumns {
      assert v.Number? ==> Lands(s, c, v, Held(v));
    } else if c in s.scalars {
      ScalarLands(s, v);
    } else if c in s.arrays {
      ArrayLands(s, c, v);
    } else if c in s.blocks {
      BlockLands(s, c, v);
    }
  }

  lemma ScalarLands(s: DataSchema, v: Datum)
    requires s.WellFormed()
    ensures ShapeOf(v) == Some(s.LoopShape()) <==> IsArray(v, s.LoopShape())
  {
    if ShapeOf(v) == Some(s.LoopShape()) {
      ShapeIsShaped(v, s.LoopShape());
    }
    if IsArray(v, s.LoopShape()) {
      ArrayHasShape(v, s.LoopShape());
    }
  }

  lemma ArrayLands(s: DataSchema, c: Name, v: Datum)
    requires s.WellFormed() && c in s.arrays && c !in s.scalars && c !in s.sweepColumns
    ensures Store(s, c, v).Put? ==> Lands(s, c, v, Store(s, c, v).cell)
    ensures Store(s, c, v).Bad? ==> forall cell :: !Lands(s, c, v, cell)
  {
    hide ShapeOf, Shaped, LeavesAreNumbers, Fit, FittedTo, IsArray;
    var loops := [s.loop1, s.loop2];
    forall n: nat | IsArray(v, loops + [n]) ensures ShapeOf(v) == Some(loops + [n]) {
      ArrayHasShape(v, loops + [n]);
    }
    if ShapeOf(v).Some? {
      var sh := ShapeOf(v).value;
      ShapeIsShaped(v, sh);
      if |sh| == 3 && sh[..2] == loops {
        assert sh == loops + [sh[2]];
        assert IsArray(v, sh) ==> Shaped(v, sh) by { ArrayIsShaped(v, sh); }
        FitFits(v, sh, 2, s.arrays[c], Nothing);
      }
    }
  }

  lemma ArrayIsShaped(v: Datum, shape: seq<nat>)
    ensures IsArray(v, shape) ==> Shaped(v, shape)
  {
  }

  lemma BlockLands(s: DataSchema, c: Name, v: Datum)
    requires s.WellFormed() && c in s.blocks && c !in s.arrays && c !in s.scalars && c !in s.sweepColumns
    ensures Store(s, c, v).Put? ==> Lands(s, c, v, Store(s, c, v).cell)
    ensures Store(s, c, v).Bad? ==> forall cell :: !Lands(s, c, v, cell)
  {
    hide ShapeOf, Shaped, LeavesAreNumbers, Fit, FittedTo, IsArray;
    var prefix: seq<nat> := if s.loop1 == 1 && s.loop2 == 1 then [] else [s.loop1, s.loop2];
    var (rows, cols) := s.blocks[c];
    forall n: nat | n > 0 && IsArray(v, prefix + [n, cols]) ensures ShapeOf(v) == Some(prefix + [n, cols]) {
      ArrayHasShape(v, prefix + [n, cols]);
    }
    if ShapeOf(v).Some? {
      var sh := ShapeOf(v).value;
      ShapeIsShaped(v, sh);
      var m := |sh| - 2;
      if m >= 0 && sh[..m] == prefix && sh[m + 1] == cols {
        assert sh == prefix + [sh[m], cols];
        ArrayIsShaped(v, sh);
        NoEmptyRows(v, sh, m);
        FitFits(v, sh, m, rows, BlankRow(cols));
      }
    }
  }

  /** An array without rows has no row length either. */
  lemma {:induction false} NoEmptyRows(v: Datum, shape: seq<nat>, m: nat)
    requires ShapeOf(v) == Some(shape) && m + 1 < |shape|
    ensures shape[m] > 0
    decreases v
  {
    assert v.items != [];
    if m > 0 {
      FirstHasShape(v, shape[1..], |v.items|);
      NoEmptyRows(v.items[0], shape[1..], m - 1);
    }
  }

  lemma {:induction false} FirstHasShape(v: Datum, shape: seq<nat>, n: nat)
    requires v.List? && 1 <= n <= |v.items| && CommonShape(v, n) == Some(shape)
    ensures ShapeOf(v.items[0]) == Some(shape)
    decreases n
  {
    if n > 1 {
      FirstHasShape(v, shape, n - 1);
    }
  }

  // ---- the file -----------------------------------------------------------------------------

  /** One row written: of the columns in `done` it holds what Store says, the other rows are as before. */
  ghost predicate Written(s: DataSchema, d: Datapoint, before: map<Name, seq<Cell>>, after: map<Name, seq<Cell>>,
          index: int, done: set<Name>)
    requires done <= d.Keys
  {
    after.Keys == before.Keys
    && forall c :: c in after ==> ColumnWritten(s, d, c, before[c], after[c], index, c in done)
  }

  ghost predicate ColumnWritten(s: DataSchema, d: Datapoint, c: Name, before: seq<Cell>, after: seq<Cell>, index: int,
          done: bool)
    requires done ==> c in d
  {
    && |after| == |before| && (forall i :: 0 <= i < |after| && i != index ==> after[i] == before[i])
    && (done && 0 <= index < |after| ==> Put(after[index]) == Store(s, c, d[c]))
  }

  /** Which of the values were fitted to size, and which belong to no column. */
  ghost predicate Tallied(s: DataSchema, d: Datapoint, done: set<Name>, fitted: set<Name>, skipped: set<Name>)
    requires done <= d.Keys
  {
    && (forall k :: k in skipped <==> k in done && Store(s, k, d[k]).Skip?)
    && (forall k :: k in fitted <==> k in done && Store(s, k, d[k]).Put? && Store(s, k, d[k]).cell.Fitted?)
  }

  lemma NothingWritten(s: DataSchema, d: Datapoint, columns: map<Name, seq<Cell>>, index: int)
    ensures Written(s, d, columns, columns, index, {}) && Tallied(s, d, {}, {}, {})
  {
  }

  lemma WrittenAtAll(s: DataSchema, d: Datapoint, before: map<Name, seq<Cell>>, after: map<Name, seq<Cell>>, index: int,
          done: set<Name>)
    requires done <= d.Keys && Written(s, d, before, after, index, done)
    ensures Written(s, d, before, after, index, {})
  {
    forall c | c in after ensures ColumnWritten(s, d, c, before[c], after[c], index, false) {
      assert ColumnWritten(s, d, c, before[c], after[c], index, c in done);
    }
  }

  lemma WriteOne(s: DataSchema, d: Datapoint, before: map<Name, seq<Cell>>, mid: map<Name, seq<Cell>>,
          after: map<Name, seq<Cell>>, index: int, done: set<Name>, col: Name)
    requires done <= d.Keys && col in d && col !in done && Written(s, d, before, mid, index, done)
    requires col !in before ==> after == mid
    requires col in before ==>
      0 <= index < |mid[col]| && Store(s, col, d[col]).Put?
      && after == mid[col := mid[col][index := Store(s, col, d[col]).cell]]
    ensures Written(s, d, before, after, index, done + {col})
  {
    hide Store;
    forall c | c in after ensures ColumnWritten(s, d, c, before[c], after[c], index, c in done + {col}) {
      assert ColumnWritten(s, d, c, before[c], mid[c], index, c in done);
    }
  }

  lemma TallyOne(s: DataSchema, d: Datapoint, done: set<Name>, f: set<Name>, k: set<Name>, f': set<Name>, k': set<Name>,
          col: Name)
    requires done <= d.Keys && col in d && col !in done && Tallied(s, d, done, f, k)
    requires k' == if Store(s, col, d[col]).Skip? then k + {col} else k
    requires f' == if Store(s, col, d[col]).Put? && Store(s, col, d[col]).cell.Fitted? then f + {col} else f
    ensures Tallied(s, d, done + {col}, f', k')
  {
    hide Store;
  }

  class DataManager {
    const schema: DataSchema
    const points: nat
    var columns: map<Name, seq<Cell>>
    var snapshots: set<int>
    var lastSavedIndex: int
    var closed: bool

    /** Rows per column: as allocated, until close() trims them to the last row saved. */
    function Rows(): nat
      reads this
    {
      if closed && 0 < lastSavedIndex + 1 < points then lastSavedIndex + 1 else points
    }

    ghost predicate Valid()
      reads this
    {
      && points >= 1 && -1 <= lastSavedIndex < points
      && columns.Keys == schema.Declared()
      && forall c :: c in columns ==> |columns[c]| == Rows()
    }

    constructor (schema: DataSchema, points: nat)
      requires points >= 1
      ensures Valid() && !closed && lastSavedIndex == -1 && snapshots == {}
      ensures this.schema == schema && this.points == points
      ensures forall c, i :: c in columns && 0 <= i < points ==> columns[c][i] == Empty
    {
      this.schema, this.points := schema, points;
      columns := map c | c in schema.Declared() :: seq(points, i => Empty);
      snapshots, lastSavedIndex, closed := {}, -1, false;
    }

    /** Save one point's row. A second save under the same index fails on its snapshot. */
    method SaveDatapoint(index: int, d: Datapoint) returns (o: Outcome)
      requires Valid()
      modifies this`columns, this`snapshots, this`lastSavedIndex
      ensures Valid()
      ensures o.Closed? <==> closed
      ensures o.OutOfRange? <==> !closed && !(0 <= index < points)
      ensures o.Closed? || o.OutOfRange? ==> unchanged(this)
      ensures o.Saved? <==> (
        && !closed && 0 <= index < points && index !in old(snapshots)
        && forall k :: k in d ==> !Store(schema, k, d[k]).Bad?)
      ensures o.Saved? ==> Written(schema, d, old(columns), columns, index, d.Keys)
      ensures o.Saved? ==> lastSavedIndex == index && snapshots == old(snapshots) + {index}
      ensures o.Saved? ==> Tallied(schema, d, d.Keys, o.fitted, o.skipped)
      // on a well-formed layout: what is saved is what suits its column, there as the column has it
      ensures schema.WellFormed() && !closed && 0 <= index < points ==>
        (o.Saved? <==> index !in old(snapshots) && forall k :: k in d && k in columns ==> Suits(schema, k, d[k]))
      ensures schema.WellFormed() && o.Saved? ==> (
        && (forall k :: k in d && k in columns ==> Lands(schema, k, d[k], columns[k][index]))
        && (forall k :: k in o.fitted <==> k in d && k in columns && columns[k][index].Fitted?)
        && (forall k :: k in o.skipped <==> k in d && k !in columns))
      ensures o.Failed? ==> lastSavedIndex == old(lastSavedIndex) && snapshots == old(snapshots)
      ensures o.Failed? ==> Written(schema, d, old(columns), columns, index, {})
    {
      hide Store, Lands, Suits;
      if schema.WellFormed() {
        forall k | k in d
          ensures Store(schema, k, d[k]).Put? ==> Lands(schema, k, d[k], Store(schema, k, d[k]).cell)
          ensures Store(schema, k, d[k]).Skip? <==> k !in columns
          ensures Store(schema, k, d[k]).Put? <==> Suits(schema, k, d[k])
        {
          StoreLands(schema, k, d[k]);
        }
      }
      if closed {
        return Closed;
      }
      if !(0 <= index < points) {
        return OutOfRange;
      }
      var ok, fitted, skipped := WriteColumns(index, d);
      if !ok || index in snapshots {
        return Failed;
      }
      snapshots := snapshots + {index};
      lastSavedIndex := index;
      o := Saved(fitted, skipped);
    }

    /** Put each value where its name says, up to the first that does not fit. */
    method WriteColumns(index: int, d: Datapoint) returns (ok: bool, fitted: set<Name>, skipped: set<Name>)
      requires Valid() && !closed && 0 <= index < points
      modifies this`columns
      ensures Valid() && Written(schema, d, old(columns), columns, index, {})
      ensures ok <==> forall k :: k in d ==> !Store(schema, k, d[k]).Bad?
      ensures ok ==>
        Written(schema, d, old(columns), columns, index, d.Keys) && Tallied(schema, d, d.Keys, fitted, skipped)
    {
      hide Store, Written, Tallied;
      NothingWritten(schema, d, columns, index);
      ok, fitted, skipped := true, {}, {};
      var todo := d.Keys;
      ghost var done: set<Name> := {};
      while todo != {}
        invariant Valid() && todo <= d.Keys && done == d.Keys - todo
        invariant forall k :: k in done ==> !Store(schema, k, d[k]).Bad?
        invariant Written(schema, d, old(columns), columns, index, done) && Tallied(schema, d, done, fitted, skipped)
        decreases todo
      {
        var col :| col in todo;
        ghost var before, fittedBefore, skippedBefore := columns, fitted, skipped;
        SkippedIsUndeclared(schema, col, d[col]);
        match Store(schema, col, d[col]) {
          case Bad =>
            WrittenAtAll(schema, d, old(columns), columns, index, done);
            return false, fitted, skipped;
          case Skip =>
            skipped := skipped + {col};
          case Put(cell) =>
            columns := columns[col := columns[col][index := cell]];
            if cell.Fitted? {
              fitted := fitted + {col};
            }
        }
        WriteOne(schema, d, old(columns), before, columns, index, done, col);
        TallyOne(schema, d, done, fittedBefore, skippedBefore, fitted, skipped, col);
        todo, done := todo - {col}, done + {col};
      }
      assert done == d.Keys;
      WrittenAtAll(schema, d, old(columns), columns, index, done);
    }

    /** Close, and cut the columns to the rows saved; a file without any row keeps its allocation. */
    method Close()
      requires Valid()
      modifies this`columns, this`closed
      ensures Valid() && closed && columns.Keys == old(columns).Keys
      ensures forall c, i :: c in columns && 0 <= i < |columns[c]| ==> columns[c][i] == old(columns)[c][i]
      ensures old(closed) ==> columns == old(columns)
      ensures Rows() == if 0 < lastSavedIndex + 1 < points then lastSavedIndex + 1 else points
    {
      if closed {
        return;
      }
      var actual := lastSavedIndex + 1;
      if 0 < actual < points {
        columns := map c | c in columns :: columns[c][..actual];
      }
      closed := true;
    }
  }

  lemma SkippedIsUndeclared(s: DataSchema, col: Name, v: Datum)
    ensures Store(s, col, v).Skip? <==> col !in s.Declared()
  {
  }
}
