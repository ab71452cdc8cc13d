/** The live trend writer: a throttled raw tier, and fixed-width buckets of per-key statistics. */
module TrendLogger {
  import opened Conditions
  import opened Statistics

  datatype Value = Num(x: real) | NotNumeric

  datatype Sample = Sample(t: real, flat: map<Name, Value>)

  /** Running statistics of one key: minimum, maximum, sum, sum of squares, count. */
  datatype Running = Running(lo: real, hi: real, sum: real, sumsq: real, count: nat)

  /** One key of a flushed bucket; `variance` is the square of the std that is written. */
  datatype Bucket = Bucket(lo: real, hi: real, mean: real, variance: real, count: nat)

  datatype Payload = Payload(t: real, n: nat, v: map<Name, Bucket>)

  datatype RawLine = RawLine(t: real, v: map<Name, real>)

  function NumberAt(flat: map<Name, Value>, key: Name): seq<real> {
    if key in flat && flat[key].Num? then [flat[key].x] else []
  }

  /** The numeric readings of one key, in order. */
  function Values(samples: seq<Sample>, key: Name): seq<real> {
    if samples == [] then []
    else Values(samples[..|samples| - 1], key) + NumberAt(samples[|samples| - 1].flat, key)
  }

  lemma {:induction false} ValuesAppend(a: seq<Sample>, b: seq<Sample>, key: Name)
    ensures Values(a + b, key) == Values(a, key) + Values(b, key)
  {
    if b == [] {
      assert a + b == a;
    } else {
      assert (a + b)[..|a + b| - 1] == a + b[..|b| - 1];
      ValuesAppend(a, b[..|b| - 1], key);
    }
  }

  // ---- bucket alignment ---------------------------------------------------------------------

  /** timestamp - timestamp % interval */
  function BucketStart(t: real, intervalS: real): real
    requires intervalS > 0.0
  {
    (t / intervalS).Floor as real * intervalS
  }

  lemma BucketsAreOrdered(a: real, b: real, intervalS: real)
    requires intervalS > 0.0 && a <= b
    ensures BucketStart(a, intervalS) <= BucketStart(b, intervalS)
  {
    QuotientOrder(a, b, intervalS);
    ProductOrder((a / intervalS).Floor as real, (b / intervalS).Floor as real, intervalS);
  }

  /** So many intervals after the epoch. */
  function Aligned(k: int, intervalS: real): real {
    k as real * intervalS
  }

  /** A bucket starts a whole number of intervals after the epoch, and holds the times from its start up
      to, and not including, the next start. */
  lemma BucketHoldsItsTimes(t: real, intervalS: real)
    requires intervalS > 0.0
    ensures BucketStart(t, intervalS) <= t < BucketStart(t, intervalS) + intervalS
    ensures exists k :: BucketStart(t, intervalS) == Aligned(k, intervalS)
  {
    assert BucketStart(t, intervalS) == Aligned((t / intervalS).Floor, intervalS);
    Bracket(t, t / intervalS, (t / intervalS).Floor as real, intervalS);
  }

  lemma Bracket(t: real, q: real, f: real, n: real)
    requires n > 0.0 && q == t / n && f <= q < f + 1.0
    ensures f * n <= t < f * n + n
  {
    var d := q - f;
    assert t == q * n;
    assert t == f * n + d * n;
    ProductOrder(0.0, d, n);
    StrictProductOrder(d, 1.0, n);
  }

  lemma StrictProductOrder(a: real, b: real, n: real)
    requires a < b && n > 0.0
    ensures a * n < b * n
  {
  }

  lemma QuotientOrder(a: real, b: real, n: real)
    requires a <= b && n > 0.0
    ensures a / n <= b / n
  {
  }

  lemma ProductOrder(a: real, b: real, n: real)
    requires a <= b && n > 0.0
    ensures a * n <= b * n
  {
  }

  // ---- running statistics -------------------------------------------------------------------

  function RunningOf(s: seq<real>): Running
    requires s != []
  {
    Running(Low(s), High(s), Sum(s), SumSq(s), |s|)
  }

  /** What a bucket says of the readings that fell into it, computed directly from them. */
  function BucketOf(s: seq<real>): Bucket
    requires s != []
  {
    Bucket(Low(s), High(s), Mean(s), Variance(s), |s|)
  }

  ghost predicate StatsOver(stats: map<Name, Running>, samples: seq<Sample>) {
    forall key :: KeyStats(stats, samples, key)
  }

  ghost predicate KeyStats(stats: map<Name, Running>, samples: seq<Sample>, key: Name) {
    && (key in stats <==> Values(samples, key) != [])
    && (key in stats ==> stats[key] == RunningOf(Values(samples, key)))
  }

  /** Half-way through one sample: its keys in `done` are folded in, the others are not. */
  ghost predicate Folding(stats: map<Name, Running>, samples: seq<Sample>, sample: Sample, done: set<Name>) {
    forall key :: KeyStats(stats, if key in done then samples + [sample] else samples, key)
  }

  lemma ValuesOfOneMore(samples: seq<Sample>, sample: Sample, key: Name)
    ensures Values(samples + [sample], key) == Values(samples, key) + NumberAt(sample.flat, key)
    ensures NumberAt(sample.flat, key) == [] ==> Values(samples + [sample], key) == Values(samples, key)
  {
    assert (samples + [sample])[..|samples|] == samples;
  }

  lemma RunningOfOneMore(s: seq<real>, x: real)
    ensures RunningOf(s + [x]) ==
      if s == [] then Running(x, x, x, Sq(x), 1)
      else Running(Min(Low(s), x), Max(High(s), x), Sum(s) + x, SumSq(s) + Sq(x), |s| + 1)
  {
    assert (s + [x])[..|s|] == s;
    assert Sum([x]) == x by { assert [x][..0] == []; }
  }

  class BucketAccumulator {
    const intervalS: real
    var bucketStart: Option<real>
    var n: nat
    var stats: map<Name, Running>
    ghost var pending: seq<Sample>

    ghost predicate Valid()
      reads this
    {
      && intervalS > 0.0 && n == |pending| && StatsOver(stats, pending)
      && (bucketStart.None? ==> pending == [])
    }

    constructor (intervalS: real)
      requires intervalS > 0.0
      ensures Valid() && this.intervalS == intervalS && bucketStart.None?
    {
      this.intervalS := intervalS;
      bucketStart, n, stats, pending := None, 0, map[], [];
    }

    /** Fold one sample's numeric values into the running statistics. */
    method Add(sample: Sample)
      requires Valid() && bucketStart.Some?
      modifies this`n, this`stats, this`pending
      ensures Valid() && pending == old(pending) + [sample]
    {
      hide StatsOver, Folding, KeyStats, Min, Max, Sq;
      n := n + 1;
      var todo := sample.flat.Keys;
      ghost var done: set<Name> := {};
      FoldNone(stats, pending, sample, done);
      while todo != {}
        invariant todo <= sample.flat.Keys && pending == old(pending) && n == |pending| + 1
        invariant Folding(stats, pending, sample, done) && done == sample.flat.Keys - todo
        decreases todo
      {
        var key :| key in todo;
        ghost var before := stats;
        if sample.flat[key].Num? {
          var x := sample.flat[key].x;
          if key in stats {
            var r := stats[key];
            stats := stats[key := Running(Min(r.lo, x), Max(r.hi, x), r.sum + x, r.sumsq + Sq(x), r.count + 1)];
          } else {
            stats := stats[key := Running(x, x, x, Sq(x), 1)];
          }
        }
        FoldOne(before, stats, pending, sample, done, key);
        todo, done := todo - {key}, done + {key};
      }
      FoldedAll(stats, pending, sample, done);
      pending := pending + [sample];
    }

    /** The line to write for the pending bucket: exactly the direct statistics of its samples. */
    method FlushPayload() returns (payload: Option<Payload>)
      requires Valid()
      ensures payload.Some? <==> bucketStart.Some?
      ensures payload.Some? ==> payload.value.t == bucketStart.value && payload.value.n == |pending|
      ensures payload.Some? ==> forall key ::
        && (key in payload.value.v <==> Values(pending, key) != [])
        && (key in payload.value.v ==> payload.value.v[key] == BucketOf(Values(pending, key)))
    {
      if bucketStart.None? {
        return None;
      }
      var v: map<Name, Bucket> := map[];
      var todo := stats.Keys;
      while todo != {}
        invariant todo <= stats.Keys && v.Keys == stats.Keys - todo
        invariant forall key :: key in v ==> KeyStats(stats, pending, key) && v[key] == BucketOf(Values(pending, key))
        decreases todo
      {
        var key :| key in todo;
        assert KeyStats(stats, pending, key);
        var r := stats[key];
        var mean := r.sum / r.count as real;
        var variance := Max(0.0, r.sumsq / r.count as real - Sq(mean));
        VarianceByMoments(Values(pending, key));
        v := v[key := Bucket(r.lo, r.hi, mean, variance, r.count)];
        todo := todo - {key};
      }
      forall key ensures key in v <==> Values(pending, key) != [] {
        assert KeyStats(stats, pending, key);
      }
      payload := Some(Payload(bucketStart.value, n, v));
    }

    method Reset(start: real)
      requires Valid()
      modifies this`bucketStart, this`n, this`stats, this`pending
      ensures Valid() && bucketStart == Some(start) && pending == []
    {
      bucketStart, n, stats, pending := Some(start), 0, map[], [];
    }
  }

  function Absorbed(stats: map<Name, Running>, key: Name, x: real): Running {
    if key in stats then
      var r := stats[key];
      Running(Min(r.lo, x), Max(r.hi, x), r.sum + x, r.sumsq + Sq(x), r.count + 1)
    else Running(x, x, x, Sq(x), 1)
  }

  /** What one sample does to one key. */
  ghost predicate KeyFolded(before: map<Name, Running>, stats: map<Name, Running>, sample: Sample, key: Name) {
    if NumberAt(sample.flat, key) == [] then stats == before
    else stats == before[key := Absorbed(before, key, NumberAt(sample.flat, key)[0])]
  }

  lemma FoldKey(before: map<Name, Running>, stats: map<Name, Running>, samples: seq<Sample>, sample: Sample, key: Name)
    requires KeyStats(before, samples, key) && KeyFolded(before, stats, sample, key)
    ensures KeyStats(stats, samples + [sample], key)
  {
    hide Min, Max, Sq, Sum, SumSq, Low, High;
    ValuesOfOneMore(samples, sample, key);
    if NumberAt(sample.flat, key) != [] {
      RunningOfOneMore(Values(samples, key), NumberAt(sample.flat, key)[0]);
    }
  }

  lemma FoldOne(before: map<Name, Running>, stats: map<Name, Running>, samples: seq<Sample>, sample: Sample,
          done: set<Name>, key: Name)
    requires Folding(before, samples, sample, done) && key !in done && KeyFolded(before, stats, sample, key)
    ensures Folding(stats, samples, sample, done + {key})
  {
    hide Absorbed, Values, RunningOf;
    forall k ensures KeyStats(stats, if k in done + {key} then samples + [sample] else samples, k) {
      assert KeyStats(before, if k in done then samples + [sample] else samples, k);
      if k == key {
        FoldKey(before, stats, samples, sample, key);
      }
    }
  }

  lemma FoldNone(stats: map<Name, Running>, samples: seq<Sample>, sample: Sample, done: set<Name>)
    requires StatsOver(stats, samples) && done == {}
    ensures Folding(stats, samples, sample, done)
  {
    forall key ensures KeyStats(stats, if key in done then samples + [sample] else samples, key) {
      assert KeyStats(stats, samples, key);
    }
  }

  lemma FoldedAll(stats: map<Name, Running>, samples: seq<Sample>, sample: Sample, done: set<Name>)
    requires Folding(stats, samples, sample, done) && done == sample.flat.Keys
    ensures StatsOver(stats, samples + [sample])
  {
    hide Values, RunningOf;
    forall key ensures KeyStats(stats, samples + [sample], key) {
      assert KeyStats(stats, if key in done then samples + [sample] else samples, key);
      ValuesOfOneMore(samples, sample, key);
    }
  }

  // ---- one tier ----------------------------------------------------------------------------

  ghost predicate Nondecreasing(samples: seq<Sample>) {
    forall i, j :: 0 <= i < j < |samples| ==> samples[i].t <= samples[j].t
  }

  /** The line is the exact summary of the samples that fell into its bucket. */
  ghost predicate Describes(line: Payload, part: seq<Sample>, intervalS: real) {
    && intervalS > 0.0 && part != [] && line.n == |part|
    && (forall i :: 0 <= i < |part| ==> BucketStart(part[i].t, intervalS) == line.t)
    && (forall key :: (key in line.v <==> Values(part, key) != [])
                      && (key in line.v ==> line.v[key] == BucketOf(Values(part, key))))
  }

  ghost predicate Ascending(lines: seq<Payload>) {
    forall i, j :: 0 <= i < j < |lines| ==> lines[i].t < lines[j].t
  }

  /** The tier's lines and its pending bucket hold every sample exactly once, in order; over samples
      whose times do not run backwards, the bucket starts strictly ascend. */
  ghost predicate TierFits(lines: seq<Payload>, parts: seq<seq<Sample>>, start: Option<real>, pending: seq<Sample>,
          intervalS: real, samples: seq<Sample>)
  {
    && |parts| == |lines| && Flatten(parts) + pending == samples
    && (start.None? ==> lines == [] && pending == [])
    && (start.Some? ==> intervalS > 0.0 && pending != [])
    && (start.Some? ==> forall i :: 0 <= i < |pending| ==> BucketStart(pending[i].t, intervalS) == start.value)
    && (forall i :: 0 <= i < |lines| ==> Describes(lines[i], parts[i], intervalS))
    && (Nondecreasing(samples) ==>
          Ascending(lines) && forall i :: 0 <= i < |lines| ==> start.Some? && lines[i].t < start.value)
  }

  lemma NextSampleInBucket(lines: seq<Payload>, parts: seq<seq<Sample>>, start: Option<real>, pending: seq<Sample>,
          intervalS: real, samples: seq<Sample>, sample: Sample)
    requires intervalS > 0.0 && TierFits(lines, parts, start, pending, intervalS, samples)
    requires start.None? || start.value == BucketStart(sample.t, intervalS)
    ensures TierFits(lines, parts, Some(BucketStart(sample.t, intervalS)),
      pending + [sample], intervalS, samples + [sample])
  {
    assert Flatten(parts) + (pending + [sample]) == samples + [sample];
    assert Nondecreasing(samples + [sample]) ==> Nondecreasing(samples) by {
      assert forall i :: 0 <= i < |samples| ==> (samples + [sample])[i] == samples[i];
    }
  }

  lemma NextSampleInNewBucket(lines: seq<Payload>, parts: seq<seq<Sample>>, start: Option<real>, pending: seq<Sample>,
          intervalS: real, samples: seq<Sample>, sample: Sample, line: Payload)
    requires intervalS > 0.0 && TierFits(lines, parts, start, pending, intervalS, samples)
    requires start.Some? && start.value != BucketStart(sample.t, intervalS)
    requires Describes(line, pending, intervalS) && line.t == start.value
    ensures TierFits(lines + [line], parts + [pending], Some(BucketStart(sample.t, intervalS)),
      [sample], intervalS, samples + [sample])
  {
    assert (parts + [pending])[..|parts|] == parts;
    assert Flatten(parts + [pending]) + [sample] == samples + [sample];
    var all := samples + [sample];
    if Nondecreasing(all) {
      assert Nondecreasing(samples) by {
        assert forall i :: 0 <= i < |samples| ==> all[i] == samples[i];
      }
      var last := samples[|samples| - 1];
      assert last == pending[|pending| - 1];
      assert all[|samples| - 1] == last && all[|samples|] == sample;
      BucketsAreOrdered(last.t, sample.t, intervalS);
    }
  }

  /** The file of one tier; `parts` remembers the samples each line was written for. */
  class TierLog {
    var lines: seq<Payload>
    ghost var parts: seq<seq<Sample>>

    constructor ()
      ensures lines == [] && parts == []
    {
      lines, parts := [], [];
    }
  }

  class TieredTrendLogger {
    const minRawIntervalS: real
    var lastRawWriteT: Option<real>
    var rawLog: seq<RawLine>
    const bucket3min: BucketAccumulator
    const bucketHourly: BucketAccumulator
    const log3min: TierLog
    const logHourly: TierLog
    ghost var samples: seq<Sample>

    ghost predicate TierValid(acc: BucketAccumulator, log: TierLog)
      reads this`samples, acc, log
    {
      acc.Valid() && TierFits(log.lines, log.parts, acc.bucketStart, acc.pending, acc.intervalS, samples)
    }

    ghost predicate RawValid()
      reads this`rawLog, this`lastRawWriteT
    {
      && lastRawWriteT == (if rawLog == [] then None else Some(rawLog[|rawLog| - 1].t))
      && forall i :: 0 <= i < |rawLog| - 1 ==> rawLog[i + 1].t - rawLog[i].t >= minRawIntervalS
    }

    ghost predicate Valid()
      reads this, bucket3min, bucketHourly, log3min, logHourly
    {
      && bucket3min != bucketHourly && log3min != logHourly
      && bucket3min.intervalS == 180.0 && bucketHourly.intervalS == 3600.0
      && RawValid() && TierValid(bucket3min, log3min) && TierValid(bucketHourly, logHourly)
    }

    constructor (minRawIntervalS: real)
      ensures Valid() && samples == [] && rawLog == [] && this.minRawIntervalS == minRawIntervalS
      ensures fresh(bucket3min) && fresh(bucketHourly) && fresh(log3min) && fresh(logHourly)
    {
      this.minRawIntervalS := minRawIntervalS;
      lastRawWriteT, rawLog, samples := None, [], [];
      bucket3min := new BucketAccumulator(180.0);
      bucketHourly := new BucketAccumulator(3600.0);
      log3min := new TierLog();
      logHourly := new TierLog();
    }

    /** One sample into the raw tier, throttled, and into both aggregate tiers, never throttled. */
    method Record(sample: Sample)
      requires Valid()
      modifies this`lastRawWriteT, this`rawLog, this`samples, bucket3min, bucketHourly, log3min, logHourly
      ensures Valid() && samples == old(samples) + [sample]
      ensures old(rawLog) <= rawLog && old(log3min.lines) <= log3min.lines && old(logHourly.lines) <= logHourly.lines
      ensures rawLog == old(rawLog) +
        if old(lastRawWriteT.Some?) && sample.t - old(lastRawWriteT).value < minRawIntervalS then []
        else [RawLine(sample.t, map key | key in sample.flat && sample.flat[key].Num? :: sample.flat[key].x)]
    {
      hide TierFits, StatsOver;
      RecordRaw(sample);
      RecordBucket(bucket3min, log3min, sample);
      RecordBucket(bucketHourly, logHourly, sample);
      samples := samples + [sample];
    }

    method RecordRaw(sample: Sample)
      requires RawValid()
      modifies this`lastRawWriteT, this`rawLog
      ensures RawValid()
      ensures rawLog == old(rawLog) +
        if old(lastRawWriteT.Some?) && sample.t - old(lastRawWriteT).value < minRawIntervalS then []
        else [RawLine(sample.t, map key | key in sample.flat && sample.flat[key].Num? :: sample.flat[key].x)]
    {
      if lastRawWriteT.Some? && sample.t - lastRawWriteT.value < minRawIntervalS {
        return;
      }
      rawLog := rawLog +
        [RawLine(sample.t, map key | key in sample.flat && sample.flat[key].Num? :: sample.flat[key].x)];
      lastRawWriteT := Some(sample.t);
    }

    /** Fold the sample in; a sample of another bucket first closes the pending one and writes it. */
    method RecordBucket(acc: BucketAccumulator, log: TierLog, sample: Sample)
      requires TierValid(acc, log)
      modifies acc, log
      ensures acc.Valid() && old(log.lines) <= log.lines
      ensures TierFits(log.lines, log.parts, acc.bucketStart, acc.pending, acc.intervalS, samples + [sample])
      ensures |log.lines| - |old(log.lines)| ==
        if old(acc.bucketStart.Some?) && BucketStart(sample.t, acc.intervalS) != old(acc.bucketStart).value
          then 1 else 0
    {
      hide TierFits, StatsOver;
      var start := BucketStart(sample.t, acc.intervalS);
      if acc.bucketStart.None? {
        NextSampleInBucket(log.lines, log.parts, acc.bucketStart, acc.pending, acc.intervalS, samples, sample);
        acc.Reset(start);
      } else if start != acc.bucketStart.value {
        Flush(acc, log, start, sample);
      } else {
        NextSampleInBucket(log.lines, log.parts, acc.bucketStart, acc.pending, acc.intervalS, samples, sample);
      }
      assert [] + [sample] == [sample];
      acc.Add(sample);
    }

    method Flush(acc: BucketAccumulator, log: TierLog, start: real, ghost sample: Sample)
      requires TierValid(acc, log) && acc.bucketStart.Some?
      requires start == BucketStart(sample.t, acc.intervalS) != acc.bucketStart.value
      modifies acc, log
      ensures acc.Valid() && acc.bucketStart == Some(start) && acc.pending == []
      ensures TierFits(log.lines, log.parts, Some(start), [sample], acc.intervalS, samples + [sample])
      ensures old(log.lines) <= log.lines && |log.lines| == |old(log.lines)| + 1
    {
      hide StatsOver;
      var payload := acc.FlushPayload();
      NextSampleInNewBucket(
        log.lines, log.parts, acc.bucketStart, acc.pending, acc.intervalS, samples, sample, payload.value);
      log.lines := log.lines + [payload.value];
      log.parts := log.parts + [acc.pending];
      acc.Reset(start);
    }
  }

  // ---- what the files hold ------------------------------------------------------------------

  /** The raw tier is in time order whenever the throttle interval is not negative, even if the
      clock the samples were stamped with ran backwards. */
  lemma {:induction false} RawTimesAreOrdered(raw: seq<RawLine>, intervalS: real, i: nat, j: nat)
    requires intervalS >= 0.0 && i <= j < |raw|
    requires forall k :: 0 <= k < |raw| - 1 ==> raw[k + 1].t - raw[k].t >= intervalS
    ensures raw[i].t <= raw[j].t
  {
    if i < j {
      RawTimesAreOrdered(raw, intervalS, i, j - 1);
      assert raw[j - 1 + 1].t - raw[j - 1].t >= intervalS;
    }
  }

  function CountIn(line: Payload, key: Name): nat {
    if key in line.v then line.v[key].count else 0
  }

  function FlushedCount(lines: seq<Payload>, key: Name): nat {
    if lines == [] then 0 else FlushedCount(lines[..|lines| - 1], key) + CountIn(lines[|lines| - 1], key)
  }

  lemma {:induction false} FlushedCountIs(lines: seq<Payload>, parts: seq<seq<Sample>>, intervalS: real, key: Name)
    requires |lines| == |parts| && forall i :: 0 <= i < |lines| ==> Describes(lines[i], parts[i], intervalS)
    ensures FlushedCount(lines, key) == |Values(Flatten(parts), key)|
  {
    if lines != [] {
      var n := |lines| - 1;
      FlushedCountIs(lines[..n], parts[..n], intervalS, key);
      ValuesAppend(Flatten(parts[..n]), parts[n], key);
      assert Describes(lines[n], parts[n], intervalS);
    }
  }

  /** No sample is lost or counted twice: what was flushed and what is pending add up, key by key. */
  lemma SamplesAreConserved(lines: seq<Payload>, parts: seq<seq<Sample>>, start: Option<real>, pending: seq<Sample>,
          intervalS: real, samples: seq<Sample>, key: Name)
    requires TierFits(lines, parts, start, pending, intervalS, samples)
    ensures FlushedCount(lines, key) + |Values(pending, key)| == |Values(samples, key)|
  {
    FlushedCountIs(lines, parts, intervalS, key);
    ValuesAppend(Flatten(parts), pending, key);
  }
}
