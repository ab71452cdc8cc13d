/** Sweep arrays: piecewise with a step per segment, linear, and forward-and-back loops. */
module SweepBuilder {
  import opened Conditions

  datatype Segment = Segment(start: real, end: real, step: real) {
    function Span(): real { end - start }
  }

  datatype Result<T> = Ok(value: T) | Err(index: nat)

  function Abs(x: real): real { if x < 0.0 then -x else x }

  /** Python's round() of a non-negative number: to the nearest, ties to the even one. */
  function RoundHalfEven(x: real): int {
    var f := x.Floor;
    var d := x - f as real;
    if d < 0.5 then f else if d > 0.5 then f + 1 else if f % 2 == 0 then f else f + 1
  }

  /** max(1, round(|span| / step)); a segment without a positive step is refused before it is asked. */
  function Steps(seg: Segment): (n: nat)
    ensures n >= 1
  {
    if seg.step <= 0.0 then 1 else
      var r := RoundHalfEven(Abs(seg.Span()) / seg.step);
      if r < 1 then 1 else r
  }

  function ActualStep(seg: Segment): real {
    seg.Span() / Steps(seg) as real
  }

  /** The point after `k` steps into the segment. */
  function PointOf(seg: Segment, k: nat): real {
    seg.start + k as real * ActualStep(seg)
  }

  predicate Fits(segments: seq<Segment>, i: nat)
    requires i < |segments|
  {
    segments[i].step > 0.0 && (i > 0 ==> segments[i].start == segments[i - 1].end)
  }

  ghost predicate Contiguous(segments: seq<Segment>) {
    forall i :: 0 <= i < |segments| ==> Fits(segments, i)
  }

  /** Where segment `i` begins in the sweep. */
  function Offset(segments: seq<Segment>, i: nat): nat
    requires i <= |segments|
  {
    if i == 0 then 0 else Offset(segments, i - 1) + Steps(segments[i - 1])
  }

  /** The first `i` segments' points are in place, each without its end point. */
  ghost predicate Laid(segments: seq<Segment>, i: nat, points: seq<real>)
    requires i <= |segments|
  {
    && (forall j :: 0 <= j < i ==> Fits(segments, j))
    && |points| == Offset(segments, i)
    && forall j, k :: 0 <= j < i && 0 <= k < Steps(segments[j]) ==>
         At(points, Offset(segments, j) + k, PointOf(segments[j], k))
  }

  predicate At(points: seq<real>, i: nat, x: real) {
    i < |points| && points[i] == x
  }

  // ---- what the caller asked for ------------------------------------------------------------

  /** The whole number of steps nearest to span / step, of two equally near ones the even one; but at
      least one. */
  ghost predicate NearestCount(seg: Segment, n: nat)
    requires seg.step > 0.0
  {
    var q := (if seg.end < seg.start then seg.start - seg.end else seg.end - seg.start) / seg.step;
    if q <= 0.5 then n == 1
    else
      && -0.5 <= n as real - q <= 0.5
      && (n as real - q == 0.5 || n as real - q == -0.5 ==> n % 2 == 0)
  }

  function Total(counts: seq<nat>): nat {
    if counts == [] then 0 else Total(counts[..|counts| - 1]) + counts[|counts| - 1]
  }

  ghost function EvenPoint(seg: Segment, n: nat, k: nat): real
    requires n > 0
  {
    seg.start + k as real * ((seg.end - seg.start) / n as real)
  }

  /** Each segment in turn, cut evenly into its number of steps, and the last end. */
  ghost predicate CutEvenly(segments: seq<Segment>, counts: seq<nat>, points: seq<real>) {
    && segments != [] && |counts| == |segments| && |points| == Total(counts) + 1
    && points[|points| - 1] == segments[|segments| - 1].end
    && (forall i :: 0 <= i < |segments| ==> segments[i].step > 0.0 && NearestCount(segments[i], counts[i]))
    && forall i, k :: 0 <= i < |segments| && 0 <= k < counts[i] ==>
         At(points, Total(counts[..i]) + k, EvenPoint(segments[i], counts[i], k))
  }

  lemma StepsAreNearest(seg: Segment)
    requires seg.step > 0.0
    ensures NearestCount(seg, Steps(seg))
  {
    NonNegativeQuotient(seg.Span(), seg.step);
  }

  function CountsOf(segments: seq<Segment>): seq<nat> {
    seq(|segments|, i requires 0 <= i < |segments| => Steps(segments[i]))
  }

  lemma {:induction false} TotalIsOffset(segments: seq<Segment>, i: nat)
    requires i <= |segments|
    ensures Total(CountsOf(segments)[..i]) == Offset(segments, i)
  {
    hide Steps;
    if i > 0 {
      TotalIsOffset(segments, i - 1);
      assert CountsOf(segments)[..i][..i - 1] == CountsOf(segments)[..i - 1];
    }
  }

  lemma LaidIsCutEvenly(segments: seq<Segment>, points: seq<real>)
    requires segments != [] && points != [] && Laid(segments, |segments|, points[..|points| - 1])
    requires points[|points| - 1] == segments[|segments| - 1].end
    ensures CutEvenly(segments, CountsOf(segments), points)
  {
    var counts, body := CountsOf(segments), points[..|points| - 1];
    forall i | 0 <= i < |segments| ensures segments[i].step > 0.0 && NearestCount(segments[i], counts[i]) {
      assert Fits(segments, i);
      StepsAreNearest(segments[i]);
    }
    hide Steps, NearestCount, Fits, PointOf, EvenPoint, Offset, Total;
    TotalIsOffset(segments, |segments|);
    assert counts[..|segments|] == counts;
    forall i, k | 0 <= i < |segments| && 0 <= k < counts[i]
      ensures At(points, Total(counts[..i]) + k, EvenPoint(segments[i], counts[i], k))
    {
      TotalIsOffset(segments, i);
      PointIsEven(segments[i], k);
      assert At(body, Offset(segments, i) + k, PointOf(segments[i], k));
    }
  }

  lemma PointIsEven(seg: Segment, k: nat)
    ensures EvenPoint(seg, Steps(seg), k) == PointOf(seg, k)
  {
  }

  /** One flat list of values; the first segment that has no positive step or does not start where
      the one before it ended is an error. */
  method BuildPiecewiseSweep(segments: seq<Segment>) returns (r: Result<seq<real>>)
    ensures r.Ok? && segments != [] ==> exists counts :: CutEvenly(segments, counts, r.value)
    ensures r.Err? <==> !Contiguous(segments)
    ensures r.Err? ==>
      r.index < |segments| && !Fits(segments, r.index) && forall i :: 0 <= i < r.index ==> Fits(segments, i)
    ensures r.Ok? && segments == [] ==> r.value == []
    ensures r.Ok? && segments != [] ==>
      |r.value| == Offset(segments, |segments|) + 1 && r.value[|r.value| - 1] == segments[|segments| - 1].end
      && Laid(segments, |segments|, r.value[..|r.value| - 1])
  {
    if segments == [] {
      return Ok([]);
    }
    var points: seq<real> := [];
    for i := 0 to |segments|
      invariant Laid(segments, i, points)
    {
      var seg := segments[i];
      if seg.step <= 0.0 {
        assert !Fits(segments, i);
        return Err(i);
      }
      if i > 0 && seg.start != segments[i - 1].end {
        assert !Fits(segments, i);
        return Err(i);
      }
      var n := Steps(seg);
      var block := seq(n, k requires 0 <= k < n => PointOf(seg, k));
      LayBlock(segments, i, points, block);
      points := points + block;
    }
    var all := points + [segments[|segments| - 1].end];
    assert all[..|all| - 1] == points;
    LaidIsCutEvenly(segments, all);
    r := Ok(all);
  }

  lemma LayBlock(segments: seq<Segment>, i: nat, points: seq<real>, block: seq<real>)
    requires i < |segments| && Laid(segments, i, points) && Fits(segments, i)
    requires |block| == Steps(segments[i]) && forall k :: 0 <= k < |block| ==> block[k] == PointOf(segments[i], k)
    ensures Laid(segments, i + 1, points + block)
  {
    hide PointOf, Steps;
    forall j, k | 0 <= j < i + 1 && 0 <= k < Steps(segments[j])
      ensures At(points + block, Offset(segments, j) + k, PointOf(segments[j], k))
    {
      if j < i {
        assert At(points, Offset(segments, j) + k, PointOf(segments[j], k));
      }
    }
  }

  // ---- the shape of a sweep -----------------------------------------------------------------

  lemma LandsOnEnd(seg: Segment)
    ensures PointOf(seg, Steps(seg)) == seg.end && PointOf(seg, 0) == seg.start
  {
    var n := Steps(seg) as real;
    assert n * (seg.Span() / n) == seg.Span();
  }

  /** The finished sweep runs through every segment's points in order, end points included, each
      junction once: it starts at the first start and ends exactly on the last end. */
  lemma SweepRunsThrough(segments: seq<Segment>, points: seq<real>, j: nat, k: nat)
    requires segments != [] && j < |segments| && points != [] && Laid(segments, |segments|, points[..|points| - 1])
    requires points[|points| - 1] == segments[|segments| - 1].end && k <= Steps(segments[j])
    ensures At(points, Offset(segments, j) + k, PointOf(segments[j], k))
    ensures points[0] == segments[0].start
  {
    hide PointOf, Steps;
    var n := |segments|;
    var body := points[..|points| - 1];
    LandsOnEnd(segments[0]);
    assert At(body, Offset(segments, 0) + 0, PointOf(segments[0], 0));
    LandsOnEnd(segments[j]);
    if k < Steps(segments[j]) {
      assert At(body, Offset(segments, j) + k, PointOf(segments[j], k));
    } else if j + 1 < n {
      LandsOnEnd(segments[j + 1]);
      assert Fits(segments, j + 1);
      assert At(body, Offset(segments, j + 1) + 0, PointOf(segments[j + 1], 0));
    }
  }

  /** Within a segment the points are evenly spaced and run one way. */
  lemma SegmentsAreMonotone(seg: Segment, k: nat, m: nat)
    requires k < m <= Steps(seg)
    ensures seg.Span() > 0.0 ==> PointOf(seg, k) < PointOf(seg, m)
    ensures seg.Span() < 0.0 ==> PointOf(seg, k) > PointOf(seg, m)
    ensures seg.Span() == 0.0 ==> PointOf(seg, k) == PointOf(seg, m)
  {
    SignOfQuotient(seg.Span(), Steps(seg) as real);
    assert ActualStep(seg) == seg.Span() / Steps(seg) as real;
    hide Steps, ActualStep;
    ScaledDifference(k as real, m as real, ActualStep(seg));
  }

  lemma SignOfQuotient(a: real, n: real)
    requires n > 0.0
    ensures a > 0.0 ==> a / n > 0.0
    ensures a < 0.0 ==> a / n < 0.0
    ensures a == 0.0 ==> a / n == 0.0
  {
  }

  lemma ScaledDifference(k: real, m: real, s: real)
    requires k < m
    ensures s > 0.0 ==> k * s < m * s
    ensures s < 0.0 ==> k * s > m * s
    ensures s == 0.0 ==> k * s == m * s
  {
  }

  // ---- how far apart the points are ---------------------------------------------------------

  /** The requested step is respected exactly when the number of steps was not rounded down to one
      or more: the span is shorter than a step, or a whole number of steps, or rounds up. */
  predicate NotRoundedDown(q: real) {
    var f := q.Floor;
    var d := q - f as real;
    f == 0 || d == 0.0 || d > 0.5 || (d == 0.5 && f % 2 == 1)
  }

  /** The spacing may exceed the requested step, by less than half; NotRoundedDown says when it
      does not. */
  lemma SpacingIsBounded(seg: Segment)
    requires seg.step > 0.0
    ensures Abs(ActualStep(seg)) < 1.5 * seg.step
    ensures Abs(ActualStep(seg)) <= seg.step <==> NotRoundedDown(Abs(seg.Span()) / seg.step)
  {
    SpacingOf(seg.Span(), seg.step, Abs(seg.Span()) / seg.step, Steps(seg));
  }

  lemma SpacingOf(span: real, step: real, q: real, n: nat)
    requires step > 0.0 && q == Abs(span) / step
    requires n == if RoundHalfEven(q) < 1 then 1 else RoundHalfEven(q)
    ensures Abs(span / n as real) < 1.5 * step
    ensures Abs(span / n as real) <= step <==> NotRoundedDown(q)
  {
    hide RoundHalfEven, NotRoundedDown, Abs;
    NonNegativeQuotient(span, step);
    RoundingBounds(q);
    AbsOfQuotient(span, n as real);
    Recompose(Abs(span), step, q);
    QuotientBounds(q, step, n as real);
  }

  lemma NonNegativeQuotient(a: real, n: real)
    requires n > 0.0
    ensures Abs(a) / n >= 0.0
  {
    SignOfQuotient(Abs(a), n);
  }

  lemma Recompose(a: real, n: real, q: real)
    requires n > 0.0 && q == a / n
    ensures a == q * n
  {
  }

  lemma AbsOfQuotient(a: real, n: real)
    requires n > 0.0
    ensures Abs(a / n) == Abs(a) / n
  {
    SignOfQuotient(a, n);
    assert (-a) / n == -(a / n);
  }

  lemma RoundingBounds(q: real)
    requires q >= 0.0
    ensures var n := if RoundHalfEven(q) < 1 then 1 else RoundHalfEven(q);
      q < 1.5 * n as real && (q <= n as real <==> NotRoundedDown(q))
  {
  }

  lemma QuotientAgainst(p: real, n: real, b: real)
    requires n > 0.0
    ensures p / n <= b <==> p <= b * n
    ensures p / n < b <==> p < b * n
  {
    var x := p / n;
    assert x * n == p;
    if x < b {
      ScaledDifference(x, b, n);
    } else if x > b {
      ScaledDifference(b, x, n);
    }
  }

  lemma QuotientBounds(q: real, step: real, n: real)
    requires q >= 0.0 && step > 0.0 && n > 0.0
    ensures q < 1.5 * n ==> q * step / n < 1.5 * step
    ensures q * step / n <= step <==> q <= n
  {
    QuotientAgainst(q * step, n, 1.5 * step);
    QuotientAgainst(q * step, n, step);
    assert (1.5 * n) * step == (1.5 * step) * n && n * step == step * n;
    if q < 1.5 * n {
      ScaledDifference(q, 1.5 * n, step);
    }
    if q <= n {
      Scaled(q, n, step);
    } else {
      ScaledDifference(n, q, step);
    }
  }

  lemma Scaled(a: real, b: real, n: real)
    requires a <= b && n > 0.0
    ensures a * n <= b * n
  {
    if a < b { ScaledDifference(a, b, n); }
  }

  // ---- hysteresis and the linear branch -----------------------------------------------------

  function Reversed(s: seq<real>): (r: seq<real>)
    ensures |r| == |s| && forall i :: 0 <= i < |s| ==> r[i] == s[|s| - 1 - i]
  {
    seq(|s|, i requires 0 <= i < |s| => s[|s| - 1 - i])
  }

  function ApplyHysteresis(values: seq<real>): seq<real> {
    if |values| < 2 then values else values + Reversed(values[..|values| - 1])
  }

  /** There and back: a palindrome around a turning point that is visited once. */
  lemma HysteresisIsAPalindrome(values: seq<real>)
    requires |values| >= 2
    ensures var loop := ApplyHysteresis(values);
      && |loop| == 2 * |values| - 1 && values <= loop
      && (forall i :: 0 <= i < |loop| ==> loop[i] == loop[|loop| - 1 - i])
      && loop[|values| - 1] == values[|values| - 1]
  {
  }

  /** The points, and then all but the last of them in reverse; a single point stays alone. */
  ghost predicate ThereAndBack(points: seq<real>, loop: seq<real>) {
    if points == [] then loop == []
    else
      var last := |points| - 1;
      |loop| == 2 * last + 1
      && forall i :: 0 <= i <= last ==> loop[i] == points[i] && loop[2 * last - i] == points[i]
  }

  datatype Shape =
    | Linear(start: real, end: real, steps: int)
    | Piecewise(segments: seq<Segment>)
    | FromFile(values: seq<real>)

  /** The points of the declared shape, one way: all of them, in place. */
  ghost predicate OneWay(shape: Shape, base: seq<real>) {
    match shape
    case FromFile(values) => base == values
    case Piecewise(segments) =>
      if segments == [] then base == [] else exists counts :: CutEvenly(segments, counts, base)
    case Linear(start, end, steps) => Even(start, end, if steps < 1 then 1 else steps, base)
  }

  /** So many points from start to end, the same distance apart; a single one is the start. */
  ghost predicate Even(start: real, end: real, n: nat, base: seq<real>)
    requires n >= 1
  {
    && |base| == n && base[0] == start && (n >= 2 ==> base[n - 1] == end)
    && forall i :: 0 < i < n ==> (base[i] - base[i - 1]) * (n - 1) as real == end - start
  }

  /** The points one way, and the way back if it is asked for; an error names the first segment that
      does not fit. */
  method BuildAxisSweep(shape: Shape, hysteresis: bool) returns (r: Result<seq<real>>, ghost base: seq<real>)
    ensures r.Err? <==> shape.Piecewise? && !Contiguous(shape.segments)
    ensures r.Err? ==>
      r.index < |shape.segments| && !Fits(shape.segments, r.index)
      && forall i :: 0 <= i < r.index ==> Fits(shape.segments, i)
    ensures r.Ok? ==> OneWay(shape, base) && if hysteresis then ThereAndBack(base, r.value) else r.value == base
  {
    hide Fits, Laid, Offset, CutEvenly, Even;
    base := [];
    var points: seq<real>;
    match shape {
      case FromFile(values) => points := values;
      case Piecewise(segments) =>
        r := BuildPiecewiseSweep(segments);
        if r.Err? {
          return;
        }
        points := r.value;
      case Linear(start, end, steps) =>
        points := LinearSweep(start, end, if steps < 1 then 1 else steps);
    }
    base := points;
    r := Ok(if hysteresis then ApplyHysteresis(points) else points);
  }

  method LinearSweep(start: real, end: real, n: nat) returns (base: seq<real>)
    requires n >= 1
    ensures Even(start, end, n, base)
  {
    hide LinearPoint;
    if n == 1 {
      return [start];
    }
    base := seq(n, i requires 0 <= i < n => LinearPoint(start, end - start, (n - 1) as real, i));
    LinearIsEven(start, end - start, (n - 1) as real, base);
  }

  function LinearPoint(start: real, d: real, m: real, i: nat): real
    requires m > 0.0
  {
    start + i as real * d / m
  }

  lemma LinearIsEven(start: real, d: real, m: real, base: seq<real>)
    requires |base| >= 2 && m == (|base| - 1) as real
    requires forall i :: 0 <= i < |base| ==> base[i] == LinearPoint(start, d, m, i)
    ensures base[0] == start && base[|base| - 1] == start + d
    ensures forall i :: 0 < i < |base| ==> (base[i] - base[i - 1]) * m == d
  {
    LastOfLinear(d, m);
    forall i | 0 < i < |base| ensures (base[i] - base[i - 1]) * m == d {
      EvenlySpaced(d, i as real, m);
      assert (i - 1) as real == i as real - 1.0;
    }
  }

  lemma LastOfLinear(d: real, m: real)
    requires m > 0.0
    ensures m * d / m == d
  {
  }

  lemma EvenlySpaced(d: real, i: real, m: real)
    requires m > 0.0
    ensures (i * d / m - (i - 1.0) * d / m) * m == d
  {
    assert (i * d / m) * m == i * d;
    assert ((i - 1.0) * d / m) * m == (i - 1.0) * d;
  }
}
