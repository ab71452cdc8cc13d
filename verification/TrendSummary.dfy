/** Summaries over a trend window: directly from raw samples, or recombined from flushed buckets. */
module TrendSummary {
  import opened Conditions
  import opened Statistics
  import L = TrendLogger
  import R = TrendReader

  /** One key of a stored record: a raw reading, a bucket's fields (each present and numeric, or not),
      or something else. */
  datatype Entry =
    | Scalar(x: real)
    | Dict(count: Option<int>, mean: Option<real>, std: Option<real>, lo: Option<real>, hi: Option<real>)
    | Unusable

  type Row = R.Record<map<Name, Entry>>

  /** `variance` is the square of the std that is reported. */
  datatype Summary =
    | NoData
    | Summary(lo: Option<real>, hi: Option<real>, mean: real, variance: real, count: int, firstT: real, lastT: real)

  // ---- raw tier -----------------------------------------------------------------------------

  function ScalarAt(row: Row, key: Name): seq<R.Record<real>> {
    if key in row.v && row.v[key].Scalar? then [R.Record(row.t, row.v[key].x)] else []
  }

  function Scalars(rows: seq<Row>, key: Name): seq<R.Record<real>> {
    if rows == [] then [] else Scalars(rows[..|rows| - 1], key) + ScalarAt(rows[|rows| - 1], key)
  }

  function Numbers(series: seq<R.Record<real>>): seq<real> {
    seq(|series|, i requires 0 <= i < |series| => series[i].v)
  }

  /** The statistics of these readings by their definitions, with the times of the first and the last
      record that has any. */
  function SummaryOf(xs: seq<real>, firstT: real, lastT: real): Summary {
    if xs == [] then NoData else Summary(Some(Low(xs)), Some(High(xs)), Mean(xs), Variance(xs), |xs|, firstT, lastT)
  }

  ghost predicate RawSummary(rows: seq<Row>, key: Name, s: Summary) {
    var series := Scalars(rows, key);
    var xs := Numbers(series);
    if xs == [] then s == NoData else s == SummaryOf(xs, series[0].t, series[|xs| - 1].t)
  }

  method SummarizeRaw(rows: seq<Row>, key: Name) returns (s: Summary)
    ensures RawSummary(rows, key, s)
  {
    var values: seq<R.Record<real>> := [];
    for i := 0 to |rows|
      invariant values == Scalars(rows[..i], key)
    {
      assert rows[..i + 1][..i] == rows[..i];
      if key in rows[i].v && rows[i].v[key].Scalar? {
        values := values + [R.Record(rows[i].t, rows[i].v[key].x)];
      }
    }
    assert rows[..|rows|] == rows;
    if values == [] {
      return NoData;
    }
    var nums := Numbers(values);
    s := Summary(Some(Low(nums)), Some(High(nums)), Mean(nums), Variance(nums), |nums|,
                 values[0].t, values[|values| - 1].t);
  }

  // ---- aggregate tiers ----------------------------------------------------------------------

  predicate IsUsable(e: Entry) {
    e.Dict? && e.count.Some? && e.count.value > 0 && e.mean.Some?
  }

  function UsableAt(row: Row, key: Name): seq<R.Record<Entry>> {
    if key in row.v && IsUsable(row.v[key]) then [R.Record(row.t, row.v[key])] else []
  }

  function Usable(rows: seq<Row>, key: Name): seq<R.Record<Entry>> {
    if rows == [] then [] else Usable(rows[..|rows| - 1], key) + UsableAt(rows[|rows| - 1], key)
  }

  ghost predicate AllUsable(es: seq<R.Record<Entry>>) {
    forall i :: 0 <= i < |es| ==> IsUsable(es[i].v)
  }

  lemma {:induction false} UsableAreUsable(rows: seq<Row>, key: Name)
    ensures AllUsable(Usable(rows, key))
  {
    if rows != [] {
      UsableAreUsable(rows[..|rows| - 1], key);
    }
  }

  function Optional(x: Option<real>): seq<real> {
    if x.Some? then [x.value] else []
  }

  function StdOf(e: Entry): real
    requires e.Dict?
  {
    if e.std.Some? then e.std.value else 0.0
  }

  /** Sums over buckets: count, count-weighted mean, second moment about zero; and the extremes. */
  datatype Totals = Totals(count: int, weightedMean: real, weightedSq: real, lows: seq<real>, highs: seq<real>)

  function Added(t: Totals, e: Entry): Totals
    requires IsUsable(e)
  {
    var n := e.count.value as real;
    Totals(t.count + e.count.value,
           t.weightedMean + e.mean.value * n,
           t.weightedSq + n * (Sq(StdOf(e)) + Sq(e.mean.value)),
           t.lows + Optional(e.lo), t.highs + Optional(e.hi))
  }

  ghost function TotalsOf(es: seq<R.Record<Entry>>): Totals
    requires AllUsable(es)
  {
    if es == [] then Totals(0, 0.0, 0.0, [], []) else Added(TotalsOf(es[..|es| - 1]), es[|es| - 1].v)
  }

  lemma NoneUsable(key: Name)
    ensures Usable([], key) == [] && TotalsOf([]) == Totals(0, 0.0, 0.0, [], [])
  {
  }

  lemma UsableOneMore(rows: seq<Row>, i: nat, key: Name)
    requires i < |rows|
    ensures rows[..0] == [] && Usable(rows[..i + 1], key) == Usable(rows[..i], key) + UsableAt(rows[i], key)
  {
    assert rows[..i + 1][..i] == rows[..i];
  }

  lemma TotalsOneMore(es: seq<R.Record<Entry>>, e: R.Record<Entry>)
    requires AllUsable(es) && IsUsable(e.v)
    ensures AllUsable(es + [e]) && TotalsOf(es + [e]) == Added(TotalsOf(es), e.v)
  {
    assert (es + [e])[..|es|] == es;
  }

  lemma {:induction false} CountIsPositive(es: seq<R.Record<Entry>>)
    requires AllUsable(es)
    ensures TotalsOf(es).count >= |es|
  {
    if es != [] {
      CountIsPositive(es[..|es| - 1]);
    }
  }

  /** The law of total variance, with its guard against a negative result. */
  function VarianceFrom(t: Totals): real
    requires t.count > 0
  {
    Max(0.0, t.weightedSq / t.count as real - Sq(t.weightedMean / t.count as real))
  }

  function LowestOf(s: seq<real>): Option<real> {
    if s == [] then None else Some(Low(s))
  }

  function HighestOf(s: seq<real>): Option<real> {
    if s == [] then None else Some(High(s))
  }

  ghost predicate AggregateSummary(es: seq<R.Record<Entry>>, s: Summary) {
    AllUsable(es)
    && var t := TotalsOf(es);
       if es == [] then s == NoData
       else
         && t.count > 0
         && s == Summary(LowestOf(t.lows), HighestOf(t.highs), t.weightedMean / t.count as real,
                         VarianceFrom(t), t.count,
                         es[0].t, es[|es| - 1].t)
  }

  method SummarizeAggregate(rows: seq<Row>, key: Name) returns (s: Summary)
    ensures AggregateSummary(Usable(rows, key), s)
  {
    hide Usable, TotalsOf, Added, VarianceFrom, Low, High;
    UsableAreUsable(rows, key);
    NoneUsable(key);
    ghost var es: seq<R.Record<Entry>> := [];
    var t := Totals(0, 0.0, 0.0, [], []);
    var firstT: Option<real>, lastT: Option<real> := None, None;
    for i := 0 to |rows|
      invariant es == Usable(rows[..i], key) && AllUsable(es) && t == TotalsOf(es)
      invariant if es == [] then firstT.None? && lastT.None?
        else firstT == Some(es[0].t) && lastT == Some(es[|es| - 1].t)
    {
      UsableOneMore(rows, i, key);
      var row := rows[i];
      if key in row.v && IsUsable(row.v[key]) {
        TotalsOneMore(es, R.Record(row.t, row.v[key]));
        es := es + [R.Record(row.t, row.v[key])];
        t := Added(t, row.v[key]);
        if firstT.None? {
          firstT := Some(row.t);
        }
        lastT := Some(row.t);
      }
    }
    assert rows[..|rows|] == rows;
    CountIsPositive(es);
    if t.count == 0 {
      return NoData;
    }
    s := Summary(LowestOf(t.lows), HighestOf(t.highs), t.weightedMean / t.count as real, VarianceFrom(t), t.count,
                 firstT.value, lastT.value);
  }

  // ---- recombination is exact ---------------------------------------------------------------

  /** The entry is the exact summary of these readings. */
  ghost predicate Represents(e: Entry, xs: seq<real>) {
    && xs != [] && e.Dict? && e.count == Some(|xs|) && e.mean == Some(Mean(xs))
    && e.lo == Some(Low(xs)) && e.hi == Some(High(xs))
    && e.std.Some? && Sq(e.std.value) == Variance(xs)
  }

  lemma EntryMoments(e: Entry, xs: seq<real>)
    requires Represents(e, xs)
    ensures e.mean.value * |xs| as real == Sum(xs)
    ensures |xs| as real * (Sq(StdOf(e)) + Sq(e.mean.value)) == SumSq(xs)
  {
    hide Sq;
    VarianceByMoments(xs);
    var n := |xs| as real;
    assert Sq(StdOf(e)) + Sq(e.mean.value) == SumSq(xs) / n;
  }

  ghost predicate MomentsAre(t: Totals, xs: seq<real>) {
    && xs != [] && t.count == |xs| && t.weightedMean == Sum(xs) && t.weightedSq == SumSq(xs)
    && t.lows != [] && Low(t.lows) == Low(xs) && t.highs != [] && High(t.highs) == High(xs)
  }

  lemma FirstMoments(e: Entry, xs: seq<real>)
    requires Represents(e, xs) && IsUsable(e)
    ensures MomentsAre(Added(Totals(0, 0.0, 0.0, [], []), e), xs)
  {
    hide Sq, Low, High, Sum, SumSq;
    EntryMoments(e, xs);
    OneReading(e.lo.value);
    OneReading(e.hi.value);
    assert [] + [e.lo.value] == [e.lo.value] && [] + [e.hi.value] == [e.hi.value];
  }

  lemma MoreMoments(t: Totals, before: seq<real>, e: Entry, xs: seq<real>)
    requires MomentsAre(t, before) && Represents(e, xs) && IsUsable(e)
    ensures MomentsAre(Added(t, e), before + xs)
  {
    hide Sq, Low, High, Sum, SumSq;
    EntryMoments(e, xs);
    OneReading(e.lo.value);
    OneReading(e.hi.value);
    SumsAppend(before, xs);
    ExtremesAppend(before, xs);
    ExtremesAppend(t.lows, [e.lo.value]);
    ExtremesAppend(t.highs, [e.hi.value]);
  }

  /** The totals over the buckets are the moments and extremes of all their readings together. */
  lemma {:induction false} TotalsAreMoments(es: seq<R.Record<Entry>>, groups: seq<seq<real>>)
    requires |es| == |groups| && es != []
    requires forall i :: 0 <= i < |es| ==> Represents(es[i].v, groups[i])
    ensures AllUsable(es) && MomentsAre(TotalsOf(es), Flatten(groups))
  {
    hide MomentsAre, Added, Mean, Variance;
    var n := |es| - 1;
    if n == 0 {
      FirstMoments(es[0].v, groups[0]);
      assert groups[..0] == [] && [] + groups[0] == groups[0];
      assert es[..0] == [];
    } else {
      TotalsAreMoments(es[..n], groups[..n]);
      MoreMoments(TotalsOf(es[..n]), Flatten(groups[..n]), es[n].v, groups[n]);
    }
  }

  lemma OneReading(x: real)
    ensures Low([x]) == x && High([x]) == x
  {
  }

  /** Recombining buckets gives exactly the statistics of all the readings that fell into them, and
      the guard against a negative variance changes nothing. */
  lemma RecombinationIsExact(es: seq<R.Record<Entry>>, groups: seq<seq<real>>)
    requires |es| == |groups| && es != []
    requires forall i :: 0 <= i < |es| ==> Represents(es[i].v, groups[i])
    ensures AllUsable(es) && Flatten(groups) != []
    ensures var t, xs := TotalsOf(es), Flatten(groups);
      && t.count == |xs| && t.weightedMean / t.count as real == Mean(xs)
      && VarianceFrom(t) == Variance(xs) == t.weightedSq / t.count as real - Sq(t.weightedMean / t.count as real)
      && t.lows != [] && Low(t.lows) == Low(xs) && t.highs != [] && High(t.highs) == High(xs)
  {
    hide Sq;
    TotalsAreMoments(es, groups);
    VarianceByMoments(Flatten(groups));
  }

  // ---- what the logger wrote ----------------------------------------------------------------

  /** The entry as it is read back: std is the square root of the bucket's variance. */
  predicate StoredEntry(e: Entry, b: L.Bucket) {
    && e.Dict? && e.count == Some(b.count) && e.mean == Some(b.mean) && e.lo == Some(b.lo) && e.hi == Some(b.hi)
    && e.std.Some? && e.std.value >= 0.0 && Sq(e.std.value) == b.variance
  }

  ghost predicate Stored(row: Row, line: L.Payload) {
    row.t == line.t && row.v.Keys == line.v.Keys && forall key :: key in line.v ==> StoredEntry(row.v[key], line.v[key])
  }

  /** The readings of one key, bucket by bucket, leaving out the buckets without any. */
  function Groups(parts: seq<seq<L.Sample>>, key: Name): seq<seq<real>> {
    if parts == [] then []
    else Groups(parts[..|parts| - 1], key) + GroupAt(parts[|parts| - 1], key)
  }

  function GroupAt(part: seq<L.Sample>, key: Name): seq<seq<real>> {
    var xs := L.Values(part, key);
    if xs == [] then [] else [xs]
  }

  lemma {:induction false} GroupsHoldAll(parts: seq<seq<L.Sample>>, key: Name)
    ensures Flatten(Groups(parts, key)) == L.Values(Flatten(parts), key)
  {
    if parts != [] {
      var n := |parts| - 1;
      GroupsHoldAll(parts[..n], key);
      L.ValuesAppend(Flatten(parts[..n]), parts[n], key);
      var xs, before := L.Values(parts[n], key), Groups(parts[..n], key);
      if xs == [] {
        assert before + [] == before && Flatten(before) + [] == Flatten(before);
      } else {
        assert (before + [xs])[..|before|] == before;
      }
    }
  }

  ghost predicate AllRepresent(es: seq<R.Record<Entry>>, groups: seq<seq<real>>) {
    |es| == |groups| && forall i :: 0 <= i < |es| ==> Represents(es[i].v, groups[i])
  }

  lemma RepresentMore(es: seq<R.Record<Entry>>, groups: seq<seq<real>>, more: seq<R.Record<Entry>>,
          moreGroups: seq<seq<real>>)
    requires AllRepresent(es, groups) && AllRepresent(more, moreGroups)
    ensures AllRepresent(es + more, groups + moreGroups)
  {
    hide Represents;
  }

  lemma {:induction false} StoredRowsRepresent(rows: seq<Row>, lines: seq<L.Payload>, parts: seq<seq<L.Sample>>,
          intervalS: real, key: Name)
    requires |rows| == |lines| == |parts|
    requires forall i :: 0 <= i < |rows| ==> Stored(rows[i], lines[i]) && L.Describes(lines[i], parts[i], intervalS)
    ensures AllRepresent(Usable(rows, key), Groups(parts, key))
  {
    if rows != [] {
      hide AllRepresent, Stored, L.Describes, UsableAt, L.Values;
      var n := |rows| - 1;
      StoredRowsRepresent(rows[..n], lines[..n], parts[..n], intervalS, key);
      OneStoredRow(rows[n], lines[n], parts[n], intervalS, key);
      RepresentMore(Usable(rows[..n], key), Groups(parts[..n], key), UsableAt(rows[n], key), GroupAt(parts[n], key));
    }
  }

  lemma OneStoredRow(row: Row, line: L.Payload, part: seq<L.Sample>, intervalS: real, key: Name)
    requires Stored(row, line) && L.Describes(line, part, intervalS)
    ensures AllRepresent(UsableAt(row, key), GroupAt(part, key))
  {
    hide Sq, Variance, Mean, Low, High;
  }

  /** The recombined entries say of these readings exactly what is true of them. */
  ghost predicate Exact(es: seq<R.Record<Entry>>, xs: seq<real>) {
    && (es == [] <==> xs == []) && AllUsable(es)
    && (es != [] ==>
          var t := TotalsOf(es);
          && t.count == |xs| && t.weightedMean / t.count as real == Mean(xs) && VarianceFrom(t) == Variance(xs)
          && t.lows != [] && Low(t.lows) == Low(xs) && t.highs != [] && High(t.highs) == High(xs))
  }

  /** Any run of flushed buckets, read back and recombined, is summarized exactly as the samples that
      fell into those buckets would be, had they all been kept. */
  lemma BucketsSummarizeTheirSamples(rows: seq<Row>, lines: seq<L.Payload>, parts: seq<seq<L.Sample>>, intervalS: real,
          key: Name)
    requires |rows| == |lines| == |parts|
    requires forall i :: 0 <= i < |rows| ==> Stored(rows[i], lines[i]) && L.Describes(lines[i], parts[i], intervalS)
    ensures Exact(Usable(rows, key), L.Values(Flatten(parts), key))
  {
    hide L.Describes, Stored, Represents, Sq, Variance, Mean;
    StoredRowsRepresent(rows, lines, parts, intervalS, key);
    GroupsHoldAll(parts, key);
    UsableAreUsable(rows, key);
    if Usable(rows, key) != [] {
      RecombinationIsExact(Usable(rows, key), Groups(parts, key));
    } else {
      assert Groups(parts, key) == [];
    }
  }

  ghost predicate IsWindow(rows: seq<Row>, lower: real, now: real, i: nat, j: nat) {
    && i <= j <= |rows| && R.InWindow(rows, lower, now) == rows[i..j]
    && forall k :: 0 <= k < |rows| ==> (i <= k < j <==> R.Within(rows[k], lower, now))
  }

  /** Over strictly ascending times, a window is one run of rows. */
  lemma {:induction false} WindowIsOneRun(rows: seq<Row>, lower: real, now: real) returns (i: nat, j: nat)
    requires forall a, b :: 0 <= a < b < |rows| ==> rows[a].t < rows[b].t
    ensures IsWindow(rows, lower, now, i, j)
  {
    if rows == [] {
      return 0, 0;
    }
    var n := |rows| - 1;
    i, j := WindowIsOneRun(rows[..n], lower, now);
    var first, next := i, j;
    assert forall k :: 0 <= k < n ==> rows[..n][k] == rows[k];
    if R.Within(rows[n], lower, now) {
      if i == j {
        i := n;
      } else {
        assert rows[i].t < rows[n].t;
      }
      j := n + 1;
      assert rows[i..j] == rows[..n][first..next] + [rows[n]];
    } else {
      assert rows[i..j] == rows[..n][i..j];
    }
  }

  /** End to end: over samples whose times do not run backwards, every window read backwards from an
      aggregate tier covers one run of buckets, and its summary is exactly that of the samples in them. */
  lemma EveryWindowIsExact(lines: seq<L.Payload>, parts: seq<seq<L.Sample>>, start: Option<real>,
          pending: seq<L.Sample>, intervalS: real, samples: seq<L.Sample>, rows: seq<Row>, key: Name, lower: real,
          now: real, s: Summary) returns (i: nat, j: nat)
    requires L.TierFits(lines, parts, start, pending, intervalS, samples) && L.Nondecreasing(samples)
    requires |rows| == |lines| && forall k :: 0 <= k < |rows| ==> Stored(rows[k], lines[k])
    requires AggregateSummary(Usable(R.InWindow(R.Recent(rows, lower), lower, now), key), s)
    ensures IsWindow(rows, lower, now, i, j)
    ensures var es, xs := Usable(rows[i..j], key), L.Values(Flatten(parts[i..j]), key);
      (es == [] <==> xs == []) && s == if es == [] then NoData else SummaryOf(xs, es[0].t, es[|es| - 1].t)
  {
    hide Stored, L.Describes, Usable, R.Recent, R.InWindow, Low, High, Mean, Variance, VarianceFrom, TotalsOf;
    forall a, b | 0 <= a < b < |rows| ensures rows[a].t < rows[b].t {
      StoredTimes(rows[a], lines[a]);
      StoredTimes(rows[b], lines[b]);
    }
    R.EarlyStopIsExact(rows, lower, now);
    i, j := WindowIsOneRun(rows, lower, now);
    BucketsSummarizeTheirSamples(rows[i..j], lines[i..j], parts[i..j], intervalS, key);
  }

  lemma StoredTimes(row: Row, line: L.Payload)
    requires Stored(row, line)
    ensures row.t == line.t
  {
  }

  // ---- the summary of a window --------------------------------------------------------------

  datatype Tier = Raw | ThreeMinutes | Hourly

  function PickTier(windowS: real): (tier: Tier)
    ensures tier.Raw? <==> windowS <= 24.0 * 3600.0
    ensures tier.Hourly? <==> windowS > 7.0 * 24.0 * 3600.0
  {
    if windowS <= 86400.0 then Raw else if windowS <= 604800.0 then ThreeMinutes else Hourly
  }

  const MAX_LINES: nat := 500

  /** The keys of a line's values; none, if it holds no values. */
  type Keys = R.Line -> set<Name>

  function KeysIn(lines: seq<R.Line>, keysOf: Keys): set<Name> {
    if lines == [] then {} else KeysIn(lines[..|lines| - 1], keysOf) + keysOf(lines[|lines| - 1])
  }

  /** The lines of the files, newest first within each. */
  function NewestLines(files: seq<seq<R.Byte>>): seq<R.Line> {
    if files == [] then [] else R.Reverse(R.LinesSeen(files[0])) + NewestLines(files[1..])
  }

  function Capped(lines: seq<R.Line>, cap: nat): seq<R.Line> {
    if |lines| <= cap then lines else lines[..cap]
  }

  lemma {:induction false} InKeys(lines: seq<R.Line>, keysOf: Keys, key: Name)
    ensures key in KeysIn(lines, keysOf) <==> exists i :: 0 <= i < |lines| && key in keysOf(lines[i])
  {
    if lines != [] {
      var n := |lines| - 1;
      InKeys(lines[..n], keysOf, key);
      if key in KeysIn(lines[..n], keysOf) {
        var i :| 0 <= i < n && key in keysOf(lines[..n][i]);
        assert lines[i] == lines[..n][i];
      }
      if key in KeysIn(lines, keysOf) && key !in keysOf(lines[n]) {
        var i :| 0 <= i < n && key in keysOf(lines[..n][i]);
        assert lines[i] == lines[..n][i];
      }
      if i :| 0 <= i < |lines| && key in keysOf(lines[i]) {
        if i < n {
          assert lines[..n][i] == lines[i];
        }
      }
    }
  }

  lemma OneMoreKept(done: seq<R.Line>, lines: seq<R.Line>, j: nat, cap: nat, keysOf: Keys)
    requires j < |lines|
    ensures var before, after := done + lines[..j], done + lines[..j + 1];
      if |Capped(before, cap)| >= cap then Capped(after, cap) == Capped(before, cap)
      else Capped(after, cap) == Capped(before, cap) + [lines[j]]
           && KeysIn(Capped(after, cap), keysOf) == KeysIn(Capped(before, cap), keysOf) + keysOf(lines[j])
  {
    var before, after := done + lines[..j], done + lines[..j + 1];
    assert after == before + [lines[j]];
    assert after[..|after| - 1] == before;
  }

  lemma CapReached(lines: seq<R.Line>, more: seq<R.Line>, cap: nat)
    requires |Capped(lines, cap)| >= cap
    ensures Capped(lines + more, cap) == Capped(lines, cap)
  {
  }

  /** The keys of the newest lines of a tier, no more than the cap of them; the files come with the one
      changed last first. */
  method PersistedKeys(files: seq<seq<R.Byte>>, keysOf: Keys, chunkSize: nat, cap: nat) returns (keys: set<Name>)
    requires chunkSize >= 1
    ensures keys == KeysIn(Capped(NewestLines(files), cap), keysOf)
  {
    hide KeysIn, R.Reverse, R.LinesSeen;
    keys := {};
    var read, i := 0, 0;
    ghost var done: seq<R.Line> := [];
    assert files[0..] == files && done + NewestLines(files) == NewestLines(files);
    NoKeys(keysOf);
    while i < |files| && read < cap
      invariant 0 <= i <= |files| && done + NewestLines(files[i..]) == NewestLines(files)
      invariant read == |Capped(done, cap)| && keys == KeysIn(Capped(done, cap), keysOf)
    {
      var lines := R.IterLinesReverse(files[i], chunkSize);
      assert files[i..][1..] == files[i + 1..];
      assert done + (lines + NewestLines(files[i + 1..])) == (done + lines) + NewestLines(files[i + 1..]);
      keys, read := KeysOfFile(lines, keysOf, cap, keys, read, done);
      done := done + lines;
      i := i + 1;
    }
    if i < |files| {
      CapReached(done, NewestLines(files[i..]), cap);
    } else {
      assert done + [] == done;
    }
  }

  lemma NoKeys(keysOf: Keys)
    ensures KeysIn([], keysOf) == {}
  {
  }

  method KeysOfFile(lines: seq<R.Line>, keysOf: Keys, cap: nat, known: set<Name>, count: nat, ghost done: seq<R.Line>)
    returns (keys: set<Name>, read: nat)
    requires count == |Capped(done, cap)| && known == KeysIn(Capped(done, cap), keysOf)
    ensures read == |Capped(done + lines, cap)| && keys == KeysIn(Capped(done + lines, cap), keysOf)
  {
    hide KeysIn;
    keys, read := known, count;
    var j := 0;
    assert done + lines[..0] == done;
    while j < |lines| && read < cap
      invariant 0 <= j <= |lines|
      invariant read == |Capped(done + lines[..j], cap)| && keys == KeysIn(Capped(done + lines[..j], cap), keysOf)
    {
      OneMoreKept(done, lines, j, cap, keysOf);
      keys, read := keys + keysOf(lines[j]), read + 1;
      j := j + 1;
    }
    assert (done + lines[..j]) + lines[j..] == done + lines;
    CapReachedOrAll(done + lines[..j], lines[j..], cap);
  }

  lemma CapReachedOrAll(lines: seq<R.Line>, more: seq<R.Line>, cap: nat)
    requires more == [] || |Capped(lines, cap)| >= cap
    ensures Capped(lines + more, cap) == Capped(lines, cap)
  {
    if more == [] {
      assert lines + more == lines;
    }
  }

  /** "Never persisted" means: in none of the newest lines of the tier. A key that the tier holds is
      reported never persisted exactly when every line that has it lies behind the cap. */
  lemma NeverPersistedMeansNotRecently(lines: seq<R.Line>, keysOf: Keys, cap: nat, key: Name)
    ensures key !in KeysIn(Capped(lines, cap), keysOf) <==>
      forall i :: 0 <= i < |lines| && key in keysOf(lines[i]) ==> i >= cap
  {
    InKeys(Capped(lines, cap), keysOf, key);
    forall i | 0 <= i < |Capped(lines, cap)| ensures Capped(lines, cap)[i] == lines[i] {
    }
  }

  /** What `summarize` says of one key; None: it was never persisted to the tier. */
  method Summarize(files: Tier -> seq<seq<R.Byte>>, lastChanged: Tier -> seq<seq<R.Byte>>,
          parse: R.Parser<map<Name, Entry>>, keysOf: Keys, key: Name, windowS: real, now: real, chunkSize: nat)
    returns (s: Option<Summary>)
    requires chunkSize >= 1 && parse([]).None?
    ensures s.None? <==> key !in KeysIn(Capped(NewestLines(lastChanged(PickTier(windowS))), MAX_LINES), keysOf)
    ensures s.Some? ==>
      var records := R.AllRecords(files(PickTier(windowS)), parse);
      var window := R.InWindow(R.Recent(records, now - windowS), now - windowS, now);
      if PickTier(windowS).Raw? then RawSummary(window, key, s.value)
      else AggregateSummary(Usable(window, key), s.value)
  {
    hide KeysIn, RawSummary, AggregateSummary, NewestLines, Capped, Usable, R.AllRecords, R.InWindow, R.Recent;
    var tier := PickTier(windowS);
    var records := R.ReadTier(files(tier), parse, now - windowS, now, chunkSize);
    var known := PersistedKeys(lastChanged(tier), keysOf, chunkSize, MAX_LINES);
    if key !in known {
      return None;
    }
    var summary;
    if tier.Raw? {
      summary := SummarizeRaw(records, key);
    } else {
      summary := SummarizeAggregate(records, key);
    }
    s := Some(summary);
  }

  // ---- a persisted key that is reported never persisted -------------------------------------

  function Same<T>(x: T, n: nat): (s: seq<T>)
    ensures |s| == n && forall i :: 0 <= i < n ==> s[i] == x
  {
    seq(n, _ => x)
  }

  /** So many lines of one byte each. */
  function LinesOf(x: R.Byte, n: nat): seq<R.Byte> {
    if n == 0 then [] else [x, R.NEWLINE] + LinesOf(x, n - 1)
  }

  lemma SplitFirst(x: R.Byte, rest: seq<R.Byte>)
    requires x != R.NEWLINE
    ensures R.Split([x, R.NEWLINE] + rest) == [[x]] + R.Split(rest)
  {
    var tail := [R.NEWLINE] + rest;
    assert tail[1..] == rest && R.Split(tail) == [[]] + R.Split(rest);
    assert ([x, R.NEWLINE] + rest)[1..] == tail;
    assert [x] + [] == [x];
  }

  lemma {:induction false} SplitLinesOf(x: R.Byte, n: nat)
    requires x != R.NEWLINE
    ensures R.Split(LinesOf(x, n)) == Same([x], n) + [[]]
  {
    if n > 0 {
      var rest := LinesOf(x, n - 1);
      SplitLinesOf(x, n - 1);
      SplitFirst(x, rest);
    }
  }

  lemma SeenLinesOf(x: R.Byte, n: nat)
    requires x != R.NEWLINE && n > 0
    ensures R.LinesSeen(LinesOf(x, n)) == R.Lines(LinesOf(x, n)) == Same([x], n)
  {
    SplitLinesOf(x, n);
    R.OnlyAnEmptyFirstLineIsMissed(LinesOf(x, n));
  }

  lemma {:induction false} ReverseSame<T>(x: T, n: nat)
    ensures R.Reverse(Same(x, n)) == Same(x, n)
  {
    if n > 0 {
      ReverseSame(x, n - 1);
      assert Same(x, n)[..n - 1] == Same(x, n - 1);
    }
  }

  const OLD_READING: Row := R.Record(40.0, map["magnet" := Scalar(1.0)])

  function ParseLine(line: R.Line): Option<Row> {
    if line == [1] then Some(OLD_READING)
    else if line == [2] then Some(R.Record(50.0, map["level" := Scalar(50.0)]))
    else None
  }

  function KeysOfLine(line: R.Line): set<Name> {
    if ParseLine(line).Some? then ParseLine(line).value.v.Keys else {}
  }

  /** The newest file first: as many lines as the cap without the key, and before them one that has it. */
  const STORE: seq<seq<R.Byte>> := [LinesOf(2, MAX_LINES), LinesOf(1, 1)]

  lemma StoreIsRead()
    ensures NewestLines(STORE) == Same([2], MAX_LINES) + [[1]]
    ensures R.AllRecords(STORE, ParseLine) == [OLD_READING] + R.Parsed(Same([2], MAX_LINES), ParseLine)
  {
    SeenLinesOf(2, MAX_LINES);
    SeenLinesOf(1, 1);
    ReverseSame<R.Line>([2], MAX_LINES);
    ReverseSame<R.Line>([1], 1);
    hide R.LinesSeen, R.Lines, R.Reverse, R.Split, LinesOf;
    var newer, older := LinesOf(2, MAX_LINES), LinesOf(1, 1);
    assert STORE == [newer, older] && STORE[1..] == [older] && [older][1..] == [];
    assert Same<R.Line>([1], 1) == [[1]];
    assert NewestLines([older]) == [[1]];
    R.ParsedSingle([1], ParseLine);
    assert R.AllRecords([older], ParseLine) == [OLD_READING];
  }

  lemma {:induction false} NoneTooOld(lines: seq<R.Line>)
    ensures R.NoneTooOld(R.Parsed(lines, ParseLine), 0.0)
  {
    if lines != [] {
      NoneTooOld(lines[..|lines| - 1]);
    }
  }

  /** The window of the last hour holds a reading of the key, and its summary says that the key was
      never persisted. */
  method PersistedKeyReportedNeverPersisted() returns (s: Option<Summary>)
    ensures OLD_READING in R.InWindow(R.Recent(R.AllRecords(STORE, ParseLine), -3500.0), -3500.0, 100.0)
    ensures s.None? && |NewestLines(STORE)| > MAX_LINES && "magnet" in KeysOfLine(NewestLines(STORE)[MAX_LINES])
  {
    hide KeysIn, R.AllRecords, R.InWindow, R.Recent, R.Parsed, NewestLines, LinesOf;
    s := Summarize(_ => STORE, _ => STORE, ParseLine, KeysOfLine, "magnet", 3600.0, 100.0, 65536);
    StoreIsRead();
    NeverPersistedMeansNotRecently(NewestLines(STORE), KeysOfLine, MAX_LINES, "magnet");
    var later := R.Parsed(Same([2], MAX_LINES), ParseLine);
    NoneTooOld(Same([2], MAX_LINES));
    R.EarlyStopIsExact([OLD_READING] + later, -3500.0, 100.0);
    R.InWindowAppend([OLD_READING], later, -3500.0, 100.0);
    OneInWindow();
  }

  lemma OneInWindow()
    ensures R.InWindow([OLD_READING], -3500.0, 100.0) == [OLD_READING]
  {
    assert [OLD_READING][..0] == [];
  }

  /** A line of the raw tier as it is read back. */
  ghost predicate StoredRaw(row: Row, line: L.RawLine) {
    row.t == line.t && row.v.Keys == line.v.Keys && forall key :: key in line.v ==> row.v[key] == Scalar(line.v[key])
  }

  /** The readings of one key that were written to the raw tier within a window. */
  function RawReadings(lines: seq<L.RawLine>, key: Name, lower: real, now: real): seq<R.Record<real>> {
    if lines == [] then []
    else
      var last := lines[|lines| - 1];
      RawReadings(lines[..|lines| - 1], key, lower, now)
      + if lower <= last.t <= now && key in last.v then [R.Record(last.t, last.v[key])] else []
  }

  lemma {:induction false} ScalarsInWindow(rows: seq<Row>, lines: seq<L.RawLine>, key: Name, lower: real, now: real)
    requires |rows| == |lines| && forall k :: 0 <= k < |rows| ==> StoredRaw(rows[k], lines[k])
    ensures Scalars(R.InWindow(rows, lower, now), key) == RawReadings(lines, key, lower, now)
  {
    if rows != [] {
      var n := |rows| - 1;
      ScalarsInWindow(rows[..n], lines[..n], key, lower, now);
      var before := R.InWindow(rows[..n], lower, now);
      if R.Within(rows[n], lower, now) {
        assert (before + [rows[n]])[..|before|] == before;
      } else {
        assert before + [] == before;
      }
    }
  }

  /** A raw tier is written in time order, whatever the clock does, so every window that is read
      backwards from it holds exactly the readings written within it. */
  lemma RawWindowIsExact(rows: seq<Row>, lines: seq<L.RawLine>, intervalS: real, key: Name, lower: real, now: real)
    requires |rows| == |lines| && forall k :: 0 <= k < |rows| ==> StoredRaw(rows[k], lines[k])
    requires intervalS >= 0.0 && forall k :: 0 <= k < |lines| - 1 ==> lines[k + 1].t - lines[k].t >= intervalS
    ensures Scalars(R.InWindow(R.Recent(rows, lower), lower, now), key) == RawReadings(lines, key, lower, now)
  {
    hide R.InWindow, R.Recent, Scalars, RawReadings;
    forall i, j | 0 <= i < j < |rows| ensures rows[i].t <= rows[j].t {
      L.RawTimesAreOrdered(lines, intervalS, i, j);
      assert StoredRaw(rows[i], lines[i]) && StoredRaw(rows[j], lines[j]);
    }
    R.EarlyStopIsExact(rows, lower, now);
    ScalarsInWindow(rows, lines, key, lower, now);
  }

  /** The files of a tier hold what the logger wrote to it. */
  ghost predicate Holds(logger: L.TieredTrendLogger, tier: Tier, rows: seq<Row>)
    reads logger, logger.log3min, logger.logHourly
  {
    match tier
    case Raw => |rows| == |logger.rawLog| && forall k :: 0 <= k < |rows| ==> StoredRaw(rows[k], logger.rawLog[k])
    case ThreeMinutes => HoldsLines(logger.log3min.lines, rows)
    case Hourly => HoldsLines(logger.logHourly.lines, rows)
  }

  ghost predicate HoldsLines(lines: seq<L.Payload>, rows: seq<Row>) {
    |rows| == |lines| && forall k :: 0 <= k < |rows| ==> Stored(rows[k], lines[k])
  }

  /** The samples behind each line of an aggregate tier. */
  ghost function PartsOf(logger: L.TieredTrendLogger, tier: Tier): seq<seq<L.Sample>>
    reads logger, logger.log3min, logger.logHourly
  {
    if tier.Hourly? then logger.logHourly.parts else logger.log3min.parts
  }

  /** For every window of a logger's store and every key that was persisted recently: up to a day the
      statistics of the readings written within the window, beyond it those of all the samples in the
      buckets of the window. */
  method SummarizeRecorded(files: Tier -> seq<seq<R.Byte>>, lastChanged: Tier -> seq<seq<R.Byte>>,
          parse: R.Parser<map<Name, Entry>>, keysOf: Keys, key: Name, windowS: real, now: real, chunkSize: nat,
          ghost logger: L.TieredTrendLogger)
    returns (s: Option<Summary>, ghost i: nat, ghost j: nat)
    requires chunkSize >= 1 && parse([]).None? && logger.Valid()
    requires Holds(logger, PickTier(windowS), R.AllRecords(files(PickTier(windowS)), parse))
    requires if PickTier(windowS).Raw? then logger.minRawIntervalS >= 0.0 else L.Nondecreasing(logger.samples)
    ensures s.None? <==> key !in KeysIn(Capped(NewestLines(lastChanged(PickTier(windowS))), MAX_LINES), keysOf)
    ensures s.Some? && PickTier(windowS).Raw? ==>
      var readings := RawReadings(logger.rawLog, key, now - windowS, now);
      s.value == if readings == [] then NoData
                 else SummaryOf(Numbers(readings), readings[0].t, readings[|readings| - 1].t)
    ensures s.Some? && !PickTier(windowS).Raw? ==>
      var rows := R.AllRecords(files(PickTier(windowS)), parse);
      && IsWindow(rows, now - windowS, now, i, j) && j <= |PartsOf(logger, PickTier(windowS))|
      && var es, xs := Usable(rows[i..j], key), L.Values(Flatten(PartsOf(logger, PickTier(windowS))[i..j]), key);
         (es == [] <==> xs == []) && s.value == if es == [] then NoData else SummaryOf(xs, es[0].t, es[|es| - 1].t)
  {
    hide R.AllRecords, R.InWindow, R.Recent, Capped, L.Values, L.Nondecreasing, Scalars, RawReadings;
    hide KeysIn, AggregateSummary, NewestLines, Stored, StoredRaw, IsWindow, Usable, SummaryOf;
    hide Low, High, Mean, Variance;
    i, j := 0, 0;
    s := Summarize(files, lastChanged, parse, keysOf, key, windowS, now, chunkSize);
    if s.Some? {
      ghost var tier := PickTier(windowS);
      ghost var rows := R.AllRecords(files(tier), parse);
      if tier.Raw? {
        RawWindowIsExact(rows, logger.rawLog, logger.minRawIntervalS, key, now - windowS, now);
      } else {
        i, j := RecordedWindow(logger, tier, rows, key, now - windowS, now, s.value);
      }
    }
  }

  lemma RecordedWindow(logger: L.TieredTrendLogger, tier: Tier, rows: seq<Row>, key: Name, lower: real, now: real,
          s: Summary)
    returns (i: nat, j: nat)
    requires logger.Valid() && !tier.Raw? && Holds(logger, tier, rows) && L.Nondecreasing(logger.samples)
    requires AggregateSummary(Usable(R.InWindow(R.Recent(rows, lower), lower, now), key), s)
    ensures IsWindow(rows, lower, now, i, j) && j <= |PartsOf(logger, tier)|
    ensures var es, xs := Usable(rows[i..j], key), L.Values(Flatten(PartsOf(logger, tier)[i..j]), key);
      (es == [] <==> xs == []) && s == if es == [] then NoData else SummaryOf(xs, es[0].t, es[|es| - 1].t)
  {
    hide AggregateSummary, Usable, R.InWindow, R.Recent, Stored, L.Values, L.Nondecreasing, SummaryOf;
    if tier.Hourly? {
      var acc, log := logger.bucketHourly, logger.logHourly;
      i, j := EveryWindowIsExact(log.lines, log.parts, acc.bucketStart, acc.pending, acc.intervalS, logger.samples,
        rows, key, lower, now, s);
    } else {
      var acc, log := logger.bucket3min, logger.log3min;
      i, j := EveryWindowIsExact(log.lines, log.parts, acc.bucketStart, acc.pending, acc.intervalS, logger.samples,
        rows, key, lower, now, s);
    }
  }

  // ---- series and crossings -----------------------------------------------------------------

  /** The plottable value of a key in one row: the reading itself, or a bucket's mean. */
  function PointAt(row: Row, key: Name): seq<R.Record<real>> {
    if key !in row.v then []
    else match row.v[key]
      case Scalar(x) => [R.Record(row.t, x)]
      case Dict(_, mean, _, _, _) => if mean.Some? then [R.Record(row.t, mean.value)] else []
      case Unusable => []
  }

  function Series(rows: seq<Row>, key: Name): seq<R.Record<real>> {
    if rows == [] then [] else Series(rows[..|rows| - 1], key) + PointAt(rows[|rows| - 1], key)
  }

  /** What a row has to plot for a key: a reading, or the mean of a bucket. */
  ghost predicate Plots(row: Row, key: Name, p: R.Record<real>) {
    && p.t == row.t && key in row.v
    && (row.v[key] == Scalar(p.v) || (row.v[key].Dict? && row.v[key].mean == Some(p.v)))
  }

  /** The points of the rows that have something to plot, each with its row, in order. */
  ghost predicate Plotted(rows: seq<Row>, key: Name, series: seq<R.Record<real>>, from: seq<nat>) {
    && |from| == |series| && (forall k :: 0 <= k < |from| ==> from[k] < |rows| && Plots(rows[from[k]], key, series[k]))
    && (forall k, m :: 0 <= k < m < |from| ==> from[k] < from[m])
    && (forall i, p :: 0 <= i < |rows| && Plots(rows[i], key, p) ==> i in from)
  }

  lemma PointIsPlotted(row: Row, key: Name)
    ensures |PointAt(row, key)| <= 1 && forall p :: Plots(row, key, p) <==> PointAt(row, key) == [p]
  {
  }

  /** One more row, and its point if it has one. */
  lemma OneMoreRow(before: seq<Row>, row: Row, key: Name, series: seq<R.Record<real>>, from: seq<nat>)
    requires Plotted(before, key, series, from)
    ensures PointAt(row, key) == [] ==> Plotted(before + [row], key, series, from)
    ensures PointAt(row, key) != [] ==>
      Plotted(before + [row], key, series + PointAt(row, key), from + [|before|])
  {
    hide PointAt, Plots;
    PointIsPlotted(row, key);
    var rows := before + [row];
    var more := from + [|before|];
    assert more[|from|] == |before|;
    forall i, p | 0 <= i < |rows| && Plots(rows[i], key, p) ensures i in more && (i < |before| ==> i in from) {
      if i < |before| {
        assert Plots(before[i], key, p);
      }
    }
  }

  lemma {:induction false} SeriesIsPlotted(rows: seq<Row>, key: Name) returns (from: seq<nat>)
    ensures Plotted(rows, key, Series(rows, key), from)
  {
    if rows == [] {
      return [];
    }
    hide Plotted, PointAt;
    var before, row := rows[..|rows| - 1], rows[|rows| - 1];
    from := SeriesIsPlotted(before, key);
    OneMoreRow(before, row, key, Series(before, key), from);
    assert before + [row] == rows;
    if PointAt(row, key) == [] {
      assert Series(before, key) + [] == Series(before, key);
    } else {
      from := from + [|before|];
    }
  }

  datatype Direction = Below | Above | Both

  predicate CrossesBelow(a: real, b: real, threshold: real) { a >= threshold > b }

  predicate CrossesAbove(a: real, b: real, threshold: real) { a <= threshold < b }

  predicate Crosses(a: real, b: real, threshold: real, direction: Direction) {
    match direction
    case Below => CrossesBelow(a, b, threshold)
    case Above => CrossesAbove(a, b, threshold)
    case Both => CrossesBelow(a, b, threshold) || CrossesAbove(a, b, threshold)
  }

  /** The times of the samples that lie across the threshold from the sample just before them. */
  function CrossingTimes(series: seq<R.Record<real>>, threshold: real, direction: Direction): seq<real> {
    if |series| < 2 then []
    else
      var n := |series| - 1;
      CrossingTimes(series[..n], threshold, direction)
      + if Crosses(series[n - 1].v, series[n].v, threshold, direction) then [series[n].t] else []
  }

  /** `at` lists exactly the samples just after a crossing, in order, and `times` are their times. */
  ghost predicate CrossingsAt(series: seq<R.Record<real>>, times: seq<real>, at: seq<nat>, threshold: real,
          direction: Direction)
  {
    && |at| == |times| && (forall k :: 0 <= k < |at| ==> CrossesAt(series, at[k], threshold, direction))
    && (forall k :: 0 <= k < |at| ==> times[k] == series[at[k]].t)
    && (forall k, m :: 0 <= k < m < |at| ==> at[k] < at[m])
    && (forall i :: CrossesAt(series, i, threshold, direction) ==> i in at)
  }

  predicate CrossesAt(series: seq<R.Record<real>>, i: int, threshold: real, direction: Direction) {
    0 < i < |series| && Crosses(series[i - 1].v, series[i].v, threshold, direction)
  }

  lemma OneMoreSample(series: seq<R.Record<real>>, n: nat, times: seq<real>, at: seq<nat>, threshold: real,
          direction: Direction)
    requires |series| == n + 1 && CrossingsAt(series[..n], times, at, threshold, direction)
    ensures CrossesAt(series, n, threshold, direction) ==>
      CrossingsAt(series, times + [series[n].t], at + [n], threshold, direction)
    ensures !CrossesAt(series, n, threshold, direction) ==> CrossingsAt(series, times, at, threshold, direction)
  {
    hide Crosses;
    var before := series[..n];
    forall i
      ensures i != n ==> (CrossesAt(series, i, threshold, direction) <==> CrossesAt(before, i, threshold, direction))
    {
    }
    assert forall k :: 0 <= k < |at| ==> CrossesAt(before, at[k], threshold, direction);
    var more := at + [n];
    forall i | CrossesAt(before, i, threshold, direction) ensures i in more {
      assert i in at;
    }
    assert n in more;
  }

  /** The times are those of the samples just after a crossing: each such sample once, in order, and no
      other one. */
  lemma {:induction false} EveryCrossingOnce(series: seq<R.Record<real>>, threshold: real, direction: Direction)
    returns (at: seq<nat>)
    ensures CrossingsAt(series, CrossingTimes(series, threshold, direction), at, threshold, direction)
  {
    if |series| < 2 {
      return [];
    }
    hide CrossingsAt;
    var n := |series| - 1;
    var times := CrossingTimes(series[..n], threshold, direction);
    at := EveryCrossingOnce(series[..n], threshold, direction);
    OneMoreSample(series, n, times, at, threshold, direction);
    if CrossesAt(series, n, threshold, direction) {
      at := at + [n];
    } else {
      assert times + [] == times;
    }
  }

  method FindCrossings(rows: seq<Row>, key: Name, threshold: real, direction: Direction) returns (crossings: seq<real>)
    ensures crossings == CrossingTimes(Series(rows, key), threshold, direction)
    ensures exists series, from, at ::
      Plotted(rows, key, series, from) && CrossingsAt(series, crossings, at, threshold, direction)
  {
    hide Plotted, CrossingsAt, Series;
    var series := Series(rows, key);
    ghost var from := SeriesIsPlotted(rows, key);
    ghost var at := EveryCrossingOnce(series, threshold, direction);
    crossings := [];
    var prev: Option<real> := None;
    for i := 0 to |series|
      invariant prev == if i == 0 then None else Some(series[i - 1].v)
      invariant crossings == CrossingTimes(series[..i], threshold, direction)
    {
      assert series[..i + 1][..i] == series[..i];
      var value := series[i].v;
      if prev.Some? {
        var below := prev.value >= threshold && value < threshold;
        var above := prev.value <= threshold && value > threshold;
        if (direction.Below? && below) || (direction.Above? && above) || (direction.Both? && (below || above)) {
          crossings := crossings + [series[i].t];
        }
      }
      prev := Some(value);
    }
    assert series[..|series|] == series;
    assert Plotted(rows, key, series, from) && CrossingsAt(series, crossings, at, threshold, direction);
  }
}
