/** Exact statistics of a finite list of readings, and how they combine. */
module Statistics {

  function Sum(s: seq<real>): real {
    if s == [] then 0.0 else Sum(s[..|s| - 1]) + s[|s| - 1]
  }

  function Sq(a: real): real { a * a }

  function SumSq(s: seq<real>): real {
    if s == [] then 0.0 else SumSq(s[..|s| - 1]) + Sq(s[|s| - 1])
  }

  /** The sum of squared distances from `m`. */
  function SumDev(s: seq<real>, m: real): real {
    if s == [] then 0.0 else SumDev(s[..|s| - 1], m) + Sq(s[|s| - 1] - m)
  }

  function Min(a: real, b: real): real { if b < a then b else a }

  function Max(a: real, b: real): real { if b > a then b else a }

  function Low(s: seq<real>): real
    requires s != []
  {
    if |s| == 1 then s[0] else Min(Low(s[..|s| - 1]), s[|s| - 1])
  }

  function High(s: seq<real>): real
    requires s != []
  {
    if |s| == 1 then s[0] else Max(High(s[..|s| - 1]), s[|s| - 1])
  }

  function Mean(s: seq<real>): real
    requires s != []
  {
    Sum(s) / |s| as real
  }

  /** The population variance, by its definition: the mean squared distance from the mean. */
  function Variance(s: seq<real>): real
    requires s != []
  {
    SumDev(s, Mean(s)) / |s| as real
  }

  function Flatten<T>(groups: seq<seq<T>>): seq<T> {
    if groups == [] then [] else Flatten(groups[..|groups| - 1]) + groups[|groups| - 1]
  }

  // ---- laws --------------------------------------------------------------------------------

  lemma {:induction false} SumsAppend(a: seq<real>, b: seq<real>)
    ensures Sum(a + b) == Sum(a) + Sum(b)
    ensures SumSq(a + b) == SumSq(a) + SumSq(b)
  {
    if b == [] {
      assert a + b == a;
    } else {
      assert (a + b)[..|a + b| - 1] == a + b[..|b| - 1];
      SumsAppend(a, b[..|b| - 1]);
    }
  }

  lemma {:induction false} ExtremesAppend(a: seq<real>, b: seq<real>)
    requires a != [] && b != []
    ensures Low(a + b) == Min(Low(a), Low(b))
    ensures High(a + b) == Max(High(a), High(b))
  {
    assert (a + b)[..|a + b| - 1] == a + b[..|b| - 1];
    if |b| == 1 {
      assert a + b[..|b| - 1] == a;
    } else {
      ExtremesAppend(a, b[..|b| - 1]);
    }
  }

  lemma {:induction false} ExtremesAreAttained(s: seq<real>)
    requires s != []
    ensures Low(s) in s && High(s) in s
    ensures forall x :: x in s ==> Low(s) <= x <= High(s)
  {
    if |s| > 1 {
      ExtremesAreAttained(s[..|s| - 1]);
      assert s == s[..|s| - 1] + [s[|s| - 1]];
    }
  }

  /** The same sum from the moments about zero: q the sum of squares, t the sum, n the count. */
  function FromMoments(q: real, t: real, n: real, m: real): real {
    q - 2.0 * m * t + n * Sq(m)
  }

  lemma OneMoreDeviation(q: real, t: real, n: real, m: real, x: real)
    ensures FromMoments(q, t, n, m) + Sq(x - m) == FromMoments(q + Sq(x), t + x, n + 1.0, m)
  {
  }

  lemma SquareIsNonNegative(a: real)
    ensures Sq(a) >= 0.0
  {
  }

  lemma {:induction false} DeviationsExpand(s: seq<real>, m: real)
    ensures SumDev(s, m) == FromMoments(SumSq(s), Sum(s), |s| as real, m)
    ensures SumDev(s, m) >= 0.0
  {
    if s != [] {
      hide FromMoments, Sq;
      var rest, x := s[..|s| - 1], s[|s| - 1];
      DeviationsExpand(rest, m);
      SquareIsNonNegative(x - m);
      OneMoreDeviation(SumSq(rest), Sum(rest), |rest| as real, m, x);
      assert |s| as real == |rest| as real + 1.0;
    }
  }

  /** E[X^2] - E[X]^2 is the variance, and it is never negative. */
  lemma VarianceByMoments(s: seq<real>)
    requires s != []
    ensures SumSq(s) / |s| as real - Sq(Mean(s)) == Variance(s)
    ensures Variance(s) >= 0.0
  {
    hide FromMoments, Sq;
    DeviationsExpand(s, Mean(s));
    MomentsOf(SumDev(s, Mean(s)), SumSq(s), Sum(s), |s| as real, Mean(s));
  }

  lemma MomentsOf(d: real, q: real, t: real, n: real, m: real)
    requires n > 0.0 && m == t / n && d == FromMoments(q, t, n, m) && d >= 0.0
    ensures q / n - Sq(m) == d / n >= 0.0
  {
    assert t == n * m;
    assert m * t == n * Sq(m);
    assert d == q - n * Sq(m);
    DivideThrough(q, n, Sq(m));
  }

  lemma DivideThrough(a: real, n: real, b: real)
    requires n > 0.0
    ensures (a - n * b) / n == a / n - b
  {
  }

  /** n times the sum of squares is at least the square of the sum. */
  lemma SquareOfSumIsBounded(s: seq<real>)
    ensures |s| as real * SumSq(s) >= Sq(Sum(s))
  {
    if s != [] {
      hide Sq;
      VarianceByMoments(s);
      BoundFromMoments(SumSq(s), Sum(s), |s| as real, Mean(s));
    }
  }

  lemma BoundFromMoments(q: real, t: real, n: real, m: real)
    requires n > 0.0 && m == t / n && q / n - Sq(m) >= 0.0
    ensures n * q >= Sq(t)
  {
    var e := q / n;
    assert q == n * e && t == n * m;
    MultiplyThrough(e, Sq(m), n);
    MultiplyThrough(n * e, n * Sq(m), n);
    assert n * q == n * (n * e);
    assert Sq(t) == n * (n * Sq(m));
  }

  lemma MultiplyThrough(a: real, b: real, n: real)
    requires a >= b && n > 0.0
    ensures n * a >= n * b
  {
  }

  lemma {:induction false} FlattenAppend<T>(a: seq<seq<T>>, b: seq<seq<T>>)
    ensures Flatten(a + b) == Flatten(a) + Flatten(b)
  {
    if b == [] {
      assert a + b == a;
    } else {
      assert (a + b)[..|a + b| - 1] == a + b[..|b| - 1];
      FlattenAppend(a, b[..|b| - 1]);
    }
  }
}
