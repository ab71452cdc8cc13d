/** The declared layout of a run's data file, and the check of a datapoint against it. */
module Schema {
  import opened Conditions

  /** A value as a procedure hands it over: a number, None, something else, or a nested list. */
  datatype Datum = Number(x: real, isInt: bool) | Nothing | NotANumber | List(items: seq<Datum>)

  datatype DType = Float | Int

  type Datapoint = map<Name, Datum>

  datatype DataSchema = DataSchema(
    sweepColumns: map<Name, DType>, scalars: map<Name, DType>, arrays: map<Name, nat>, blocks: map<Name, (nat, nat)>,
    loop1: nat, loop2: nat)
  {
    predicate WellFormed(): (ok: bool)
      // refused for a loop without steps, an empty array or an empty block, and for nothing else
      ensures !ok <==> (
        || loop1 == 0 || loop2 == 0 || (exists k :: k in arrays && arrays[k] == 0)
        || exists k :: k in blocks && (blocks[k].0 == 0 || blocks[k].1 == 0))
    {
      && loop1 >= 1 && loop2 >= 1
      && (forall k :: k in arrays ==> arrays[k] > 0)
      && (forall k :: k in blocks ==> blocks[k].0 > 0 && blocks[k].1 > 0)
    }

    function Declared(): set<Name> {
      sweepColumns.Keys + scalars.Keys + arrays.Keys + blocks.Keys
    }

    function LoopShape(): seq<nat> { [loop1, loop2] }

    function ArrayShape(length: nat): seq<nat> { [loop1, loop2, length] }

    /** A block carries the loop axes only when a loop is configured. */
    function BlockShape(size: (nat, nat)): seq<nat> {
      if loop1 == 1 && loop2 == 1 then [size.0, size.1] else [loop1, loop2, size.0, size.1]
    }
  }

  // ---- nested shapes ------------------------------------------------------------------------

  /** The value is nested exactly as the shape says. */
  ghost predicate Shaped(v: Datum, shape: seq<nat>)
    decreases shape
  {
    shape == [] || (v.List? && |v.items| == shape[0]
                  && forall i :: 0 <= i < |v.items| ==> Shaped(v.items[i], shape[1..]))
  }

  ghost function LeavesOf(v: Datum, shape: seq<nat>): seq<Datum>
    requires Shaped(v, shape)
    decreases |shape|, 0
  {
    if shape == [] then [v] else LeavesOfAll(v.items, shape[1..])
  }

  ghost function LeavesOfAll(items: seq<Datum>, shape: seq<nat>): seq<Datum>
    requires forall i :: 0 <= i < |items| ==> Shaped(items[i], shape)
    decreases |shape|, 1, |items|
  {
    if items == [] then [] else LeavesOfAll(items[..|items| - 1], shape) + LeavesOf(items[|items| - 1], shape)
  }

  /** The flat leaves of a value whose nesting matches the shape, None of any other. */
  method NestedShapeLeaves(v: Datum, shape: seq<nat>) returns (leaves: Option<seq<Datum>>)
    ensures leaves.Some? <==> Shaped(v, shape)
    ensures leaves.Some? ==> leaves.value == LeavesOf(v, shape)
    decreases shape
  {
    if shape == [] {
      return Some([v]);
    }
    if !v.List? || |v.items| != shape[0] {
      return None;
    }
    var all: seq<Datum> := [];
    for i := 0 to |v.items|
      invariant forall j :: 0 <= j < i ==> Shaped(v.items[j], shape[1..])
      invariant all == LeavesOfAll(v.items[..i], shape[1..])
    {
      var sub := NestedShapeLeaves(v.items[i], shape[1..]);
      if sub.None? {
        return None;
      }
      assert v.items[..i + 1][..i] == v.items[..i];
      all := all + sub.value;
    }
    assert v.items[..|v.items|] == v.items;
    leaves := Some(all);
  }

  function Product(shape: seq<nat>): nat {
    if shape == [] then 1 else shape[0] * Product(shape[1..])
  }

  /** A value of a given shape has as many leaves as the shape's product. */
  lemma {:induction false} LeavesFillTheShape(v: Datum, shape: seq<nat>)
    requires Shaped(v, shape)
    ensures |LeavesOf(v, shape)| == Product(shape)
    decreases |shape|, 0
  {
    if shape != [] {
      LeavesOfEach(v.items, shape[1..]);
    }
  }

  lemma {:induction false} LeavesOfEach(items: seq<Datum>, shape: seq<nat>)
    requires forall i :: 0 <= i < |items| ==> Shaped(items[i], shape)
    ensures |LeavesOfAll(items, shape)| == |items| * Product(shape)
    decreases |shape|, 1, |items|
  {
    if items != [] {
      LeavesOfEach(items[..|items| - 1], shape);
      LeavesFillTheShape(items[|items| - 1], shape);
      assert |items| * Product(shape) == (|items| - 1) * Product(shape) + Product(shape);
    }
  }

  // ---- validation ---------------------------------------------------------------------------

  predicate IsReal(v: Datum, dtype: DType): (ok: bool)
    ensures dtype == Int ==> (ok <==> v.Number? && v.isInt)
    ensures dtype == Float ==> (ok <==> v.Number?)
  {
    v.Number? && (dtype.Int? ==> v.isInt)
  }

  ghost predicate RealLeaves(v: Datum, shape: seq<nat>, dtype: DType) {
    Shaped(v, shape) && forall i :: 0 <= i < |LeavesOf(v, shape)| ==> IsReal(LeavesOf(v, shape)[i], dtype)
  }

  datatype Problem =
    | Missing(key: Name) | Extra(key: Name)
    | BadColumn(key: Name) | BadScalar(key: Name) | BadArray(key: Name) | BadBlock(key: Name)

  /** The datapoint has exactly the declared keys, each with a value of its declared shape and type. */
  ghost predicate Conforms(s: DataSchema, d: Datapoint) {
    && d.Keys == s.Declared()
    && (forall k :: k in s.sweepColumns ==> IsReal(d[k], s.sweepColumns[k]))
    && (forall k :: k in s.scalars ==> RealLeaves(d[k], s.LoopShape(), s.scalars[k]))
    && (forall k :: k in s.arrays ==> Shaped(d[k], s.ArrayShape(s.arrays[k])))
    && (forall k :: k in s.blocks ==> Shaped(d[k], s.BlockShape(s.blocks[k])))
  }

  /** What is wrong with one key, if anything is. */
  ghost predicate ProblemWith(s: DataSchema, d: Datapoint, p: Problem) {
    match p
    case Missing(k) => k in s.Declared() && k !in d
    case Extra(k) => k in d && k !in s.Declared()
    case BadColumn(k) => k in s.sweepColumns && k in d && !IsReal(d[k], s.sweepColumns[k])
    case BadScalar(k) => k in s.scalars && k in d && !RealLeaves(d[k], s.LoopShape(), s.scalars[k])
    case BadArray(k) => k in s.arrays && k in d && !Shaped(d[k], s.ArrayShape(s.arrays[k]))
    case BadBlock(k) => k in s.blocks && k in d && !Shaped(d[k], s.BlockShape(s.blocks[k]))
  }

  lemma ConformsIffNoProblem(s: DataSchema, d: Datapoint)
    ensures Conforms(s, d) <==> forall p :: !ProblemWith(s, d, p)
  {
    hide Shaped, RealLeaves, IsReal;
    if Conforms(s, d) {
      forall p ensures !ProblemWith(s, d, p) { }
    } else {
      if k :| k in s.Declared() && k !in d {
        assert ProblemWith(s, d, Missing(k));
      } else if k :| k in d && k !in s.Declared() {
        assert ProblemWith(s, d, Extra(k));
      } else {
        assert d.Keys == s.Declared();
        if k :| k in s.sweepColumns && !IsReal(d[k], s.sweepColumns[k]) {
          assert ProblemWith(s, d, BadColumn(k));
        } else if k :| k in s.scalars && !RealLeaves(d[k], s.LoopShape(), s.scalars[k]) {
          assert ProblemWith(s, d, BadScalar(k));
        } else if k :| k in s.arrays && !Shaped(d[k], s.ArrayShape(s.arrays[k])) {
          assert ProblemWith(s, d, BadArray(k));
        } else {
          var k :| k in s.blocks && !Shaped(d[k], s.BlockShape(s.blocks[k]));
          assert ProblemWith(s, d, BadBlock(k));
        }
      }
    }
  }

  /** Every mismatch is reported, not just the first; none means that the datapoint conforms. */
  method Validate(s: DataSchema, d: Datapoint) returns (problems: seq<Problem>)
    ensures forall p :: p in problems <==> ProblemWith(s, d, p)
    ensures problems == [] <==> Conforms(s, d)
  {
    hide Shaped, RealLeaves;
    var keys := KeyProblems(s, d);
    var columns := ColumnProblems(s, d);
    var scalars := ScalarProblems(s, d);
    var arrays := ArrayProblems(s, d);
    var blocks := BlockProblems(s, d);
    problems := keys + columns + scalars + arrays + blocks;
    ConformsIffNoProblem(s, d);
    if problems != [] {
      assert problems[0] in problems;
    }
  }

  method KeyProblems(s: DataSchema, d: Datapoint) returns (found: seq<Problem>)
    ensures forall p :: p in found <==> (p.Missing? || p.Extra?) && ProblemWith(s, d, p)
  {
    hide Shaped, RealLeaves;
    found := [];
    var todo := s.Declared() - d.Keys;
    while todo != {}
      invariant todo <= s.Declared() - d.Keys
      invariant forall p :: p in found <==> p.Missing? && p.key in s.Declared() - d.Keys && p.key !in todo
      decreases todo
    {
      var k :| k in todo;
      found := found + [Missing(k)];
      todo := todo - {k};
    }
    todo := d.Keys - s.Declared();
    while todo != {}
      invariant todo <= d.Keys - s.Declared()
      invariant forall p :: p in found <==> (
        || (p.Missing? && p.key in s.Declared() - d.Keys)
        || (p.Extra? && p.key in d.Keys - s.Declared() && p.key !in todo))
      decreases todo
    {
      var k :| k in todo;
      found := found + [Extra(k)];
      todo := todo - {k};
    }
  }

  method ColumnProblems(s: DataSchema, d: Datapoint) returns (found: seq<Problem>)
    ensures forall p :: p in found <==> p.BadColumn? && ProblemWith(s, d, p)
  {
    found := [];
    var todo := s.sweepColumns.Keys;
    while todo != {}
      invariant todo <= s.sweepColumns.Keys
      invariant forall p :: p in found <==> p.BadColumn? && p.key !in todo && ProblemWith(s, d, p)
      decreases todo
    {
      var k :| k in todo;
      if k in d && !IsReal(d[k], s.sweepColumns[k]) {
        found := found + [BadColumn(k)];
      }
      todo := todo - {k};
    }
  }

  method ScalarProblems(s: DataSchema, d: Datapoint) returns (found: seq<Problem>)
    ensures forall p :: p in found <==> p.BadScalar? && ProblemWith(s, d, p)
  {
    hide Shaped;
    found := [];
    var todo := s.scalars.Keys;
    while todo != {}
      invariant todo <= s.scalars.Keys
      invariant forall p :: p in found <==> p.BadScalar? && p.key !in todo && ProblemWith(s, d, p)
      decreases todo
    {
      var k :| k in todo;
      if k in d {
        var ok := CheckLeaves(d[k], s.LoopShape(), s.scalars[k]);
        if !ok {
          found := found + [BadScalar(k)];
        }
      }
      todo := todo - {k};
    }
  }

  method CheckLeaves(v: Datum, shape: seq<nat>, dtype: DType) returns (ok: bool)
    ensures ok <==> RealLeaves(v, shape, dtype)
  {
    var leaves := NestedShapeLeaves(v, shape);
    if leaves.None? {
      return false;
    }
    ok := true;
    for i := 0 to |leaves.value|
      invariant ok <==> forall j :: 0 <= j < i ==> IsReal(leaves.value[j], dtype)
    {
      if !IsReal(leaves.value[i], dtype) {
        ok := false;
      }
    }
  }

  method ArrayProblems(s: DataSchema, d: Datapoint) returns (found: seq<Problem>)
    ensures forall p :: p in found <==> p.BadArray? && ProblemWith(s, d, p)
  {
    hide Shaped;
    found := [];
    var todo := s.arrays.Keys;
    while todo != {}
      invariant todo <= s.arrays.Keys
      invariant forall p :: p in found <==> p.BadArray? && p.key !in todo && ProblemWith(s, d, p)
      decreases todo
    {
      var k :| k in todo;
      if k in d {
        var leaves := NestedShapeLeaves(d[k], s.ArrayShape(s.arrays[k]));
        if leaves.None? {
          found := found + [BadArray(k)];
        }
      }
      todo := todo - {k};
    }
  }

  method BlockProblems(s: DataSchema, d: Datapoint) returns (found: seq<Problem>)
    ensures forall p :: p in found <==> p.BadBlock? && ProblemWith(s, d, p)
  {
    hide Shaped;
    found := [];
    var todo := s.blocks.Keys;
    while todo != {}
      invariant todo <= s.blocks.Keys
      invariant forall p :: p in found <==> p.BadBlock? && p.key !in todo && ProblemWith(s, d, p)
      decreases todo
    {
      var k :| k in todo;
      if k in d {
        var leaves := NestedShapeLeaves(d[k], s.BlockShape(s.blocks[k]));
        if leaves.None? {
          found := found + [BadBlock(k)];
        }
      }
      todo := todo - {k};
    }
  }
}
