/** The System-Condition standard: the condition values and the pure policy that turns a
    collection of them into an enforcement verdict. */
module Conditions {
  datatype Option<+T> = None | Some(value: T)

  type Name = string

  datatype Severity = Advisory | Hold | Critical

  datatype Origin = Comm | Envelope | Safety | Trend

  /** A condition key: the producer's prefix ("comm:", "envelope:", "safety:", "trend:")
      and the name that follows it. */
  datatype Key = Key(prefix: Origin, name: Name)

  datatype Kind = Stale | Disconnected | Flag(flag: Name) | EnvelopeBreach | Check(check: Name)

  datatype Condition = Condition(
    key: Key, origin: Origin, severity: Severity, kind: Kind, sources: seq<Name>,
    affected: Option<set<Name>>, since: real, acknowledged: bool)
  {
    /** Scope follows from severity: critical is station-wide, a hold names at least one VI. */
    predicate WellFormed(): (ok: bool)
      ensures ok && severity.Critical? ==> affected.None?
    {
      && (severity.Critical? ==> affected.None?)
      && (severity.Hold? ==> affected.Some? && affected.value != {})
    }

    predicate Holds(vi: Name) {
      severity.Hold? && affected.Some? && vi in affected.value
    }
  }

  datatype Verdict = Verdict(
    held: map<Name, Condition>, emergency: seq<Condition>, runFailure: Option<(Name, Condition)>)

  // ---- the order of names and keys ---------------------------------------------------------

  /** String order, as Python compares two strings. */
  predicate NameLeq(a: Name, b: Name) {
    if a == [] then true
    else if b == [] then false
    else if a[0] == b[0] then NameLeq(a[1..], b[1..])
    else a[0] < b[0]
  }

  /** The four prefixes differ before either ends, so the prefix decides first. */
  predicate KeyLeq(a: Key, b: Key) {
    if a.prefix == b.prefix then NameLeq(a.name, b.name)
    else Rank(a.prefix) < Rank(b.prefix)
  }

  function Rank(o: Origin): nat {
    match o
    case Comm => 0
    case Envelope => 1
    case Safety => 2
    case Trend => 3
  }

  /** String order: a beginning comes first, else the first difference decides. */
  ghost predicate Precedes(a: string, b: string) {
    a <= b || exists i :: 0 <= i < |a| && i < |b| && a[..i] == b[..i] && a[i] < b[i]
  }

  lemma SameFirst(c: char, x: string, y: string)
    ensures Precedes([c] + x, [c] + y) <==> Precedes(x, y)
  {
    SamePrefix([c], x, y);
  }

  lemma {:induction false} NameLeqIsStringOrder(a: Name, b: Name)
    ensures NameLeq(a, b) <==> Precedes(a, b)
  {
    if a != [] && b != [] {
      var x, y := a[1..], b[1..];
      assert a == [a[0]] + x && b == [b[0]] + y;
      if a[0] == b[0] {
        NameLeqIsStringOrder(x, y);
        SameFirst(a[0], x, y);
      } else if a[0] < b[0] {
        FirstLetters([a[0]], [b[0]], x, y);
      } else {
        FirstLetters([b[0]], [a[0]], y, x);
      }
    }
  }

  /** A key as it is written. */
  ghost function Text(k: Key): string {
    Prefix(k.prefix) + k.name
  }

  ghost function Prefix(o: Origin): string {
    match o
    case Comm => "comm:"
    case Envelope => "envelope:"
    case Safety => "safety:"
    case Trend => "trend:"
  }

  lemma SamePrefix(p: string, a: string, b: string)
    ensures Precedes(p + a, p + b) <==> Precedes(a, b)
  {
    var x, y := p + a, p + b;
    assert a <= b <==> x <= y by {
      if x <= y {
        assert a == x[|p|..] && b[..|a|] == y[|p|..][..|a|];
      }
    }
    if i :| 0 <= i < |a| && i < |b| && a[..i] == b[..i] && a[i] < b[i] {
      assert x[..|p| + i] == p + a[..i] && y[..|p| + i] == p + b[..i];
      assert x[|p| + i] < y[|p| + i];
    }
    if i :| 0 <= i < |x| && i < |y| && x[..i] == y[..i] && x[i] < y[i] {
      assert i >= |p|;
      assert a[..i - |p|] == x[..i][|p|..] && b[..i - |p|] == y[..i][|p|..];
      assert a[i - |p|] < b[i - |p|];
    }
  }

  lemma FirstLetters(p: string, q: string, a: string, b: string)
    requires p != [] && q != [] && p[0] < q[0]
    ensures Precedes(p + a, q + b) && !Precedes(q + b, p + a)
  {
    var x, y := p + a, q + b;
    assert x[..0] == y[..0] && x[0] < y[0];
    assert forall i :: 0 < i <= |x| && i <= |y| && x[..i] == y[..i] ==> x[..i][0] == y[..i][0];
  }

  /** The order of keys is the order of their texts. */
  lemma KeyLeqIsTextOrder(a: Key, b: Key)
    ensures KeyLeq(a, b) <==> Precedes(Text(a), Text(b))
  {
    hide Precedes;
    NameLeqIsStringOrder(a.name, b.name);
    if a.prefix == b.prefix {
      SamePrefix(Prefix(a.prefix), a.name, b.name);
    } else if Rank(a.prefix) < Rank(b.prefix) {
      FirstLetters(Prefix(a.prefix), Prefix(b.prefix), a.name, b.name);
    } else {
      FirstLetters(Prefix(b.prefix), Prefix(a.prefix), b.name, a.name);
    }
  }

  lemma {:induction false} NameLeqTotal(a: Name, b: Name)
    ensures NameLeq(a, b) || NameLeq(b, a)
    ensures NameLeq(a, b) && NameLeq(b, a) ==> a == b
  {
    if a != [] && b != [] && a[0] == b[0] {
      NameLeqTotal(a[1..], b[1..]);
      assert a == [a[0]] + a[1..] && b == [b[0]] + b[1..];
    }
  }

  lemma {:induction false} NameLeqTransitive(a: Name, b: Name, c: Name)
    requires NameLeq(a, b) && NameLeq(b, c)
    ensures NameLeq(a, c)
  {
    if a != [] && b != [] && c != [] && a[0] == b[0] == c[0] {
      NameLeqTransitive(a[1..], b[1..], c[1..]);
    }
  }

  lemma KeyLeqTotal(a: Key, b: Key)
    ensures KeyLeq(a, b) || KeyLeq(b, a)
    ensures KeyLeq(a, b) && KeyLeq(b, a) ==> a == b
  {
    NameLeqTotal(a.name, b.name);
  }

  lemma KeyLeqTransitive(a: Key, b: Key, c: Key)
    requires KeyLeq(a, b) && KeyLeq(b, c)
    ensures KeyLeq(a, c)
  {
    if a.prefix == b.prefix == c.prefix {
      NameLeqTransitive(a.name, b.name, c.name);
    }
  }

  // ---- sorting by key ----------------------------------------------------------------------

  ghost predicate Sorted(s: seq<Condition>) {
    forall i, j :: 0 <= i < j < |s| ==> KeyLeq(s[i].key, s[j].key)
  }

  ghost predicate DistinctKeys(s: seq<Condition>) {
    forall i, j :: 0 <= i < j < |s| ==> s[i].key != s[j].key
  }

  function Insert(s: seq<Condition>, c: Condition): (r: seq<Condition>)
    ensures multiset(r) == multiset(s) + multiset{c}
  {
    if s == [] then [c]
    else
      assert s == [s[0]] + s[1..];
      if KeyLeq(s[0].key, c.key) then [s[0]] + Insert(s[1..], c) else [c] + s
  }

  /** sorted(conditions, key=...): a stable sort. */
  function SortByKey(s: seq<Condition>): (r: seq<Condition>)
    ensures multiset(r) == multiset(s)
  {
    if s == [] then []
    else
      assert s == s[..|s| - 1] + [s[|s| - 1]];
      Insert(SortByKey(s[..|s| - 1]), s[|s| - 1])
  }

  lemma {:induction false} InsertKeepsOrder(s: seq<Condition>, c: Condition)
    requires Sorted(s)
    ensures Sorted(Insert(s, c))
  {
    if s != [] {
      if KeyLeq(s[0].key, c.key) {
        InsertKeepsOrder(s[1..], c);
        var rest := Insert(s[1..], c);
        forall j | 0 <= j < |rest| ensures KeyLeq(s[0].key, rest[j].key) {
          assert rest[j] in multiset(rest);
          assert rest[j] == c || rest[j] in s[1..];
        }
      } else {
        KeyLeqTotal(c.key, s[0].key);
        forall j | 0 < j < |s| ensures KeyLeq(c.key, s[j].key) {
          KeyLeqTransitive(c.key, s[0].key, s[j].key);
        }
      }
    }
  }

  lemma {:induction false} SortByKeySorts(s: seq<Condition>)
    ensures Sorted(SortByKey(s))
  {
    if s != [] {
      SortByKeySorts(s[..|s| - 1]);
      InsertKeepsOrder(SortByKey(s[..|s| - 1]), s[|s| - 1]);
    }
  }

  lemma SortedHead(a: seq<Condition>, b: seq<Condition>)
    requires Sorted(a) && Sorted(b) && DistinctKeys(a) && multiset(a) == multiset(b) && a != []
    ensures b != [] && a[0] == b[0]
  {
    assert a[0] in multiset(a);
    assert b != [];
    assert b[0] in multiset(b);
    var i :| 0 <= i < |a| && a[i] == b[0];
    var j :| 0 <= j < |b| && b[j] == a[0];
    KeyLeqTotal(a[0].key, b[0].key);
    if i > 0 && j > 0 {
      assert false;
    }
  }

  lemma TailsAgree(a: seq<Condition>, b: seq<Condition>)
    requires a != [] && b != [] && a[0] == b[0] && multiset(a) == multiset(b)
    ensures multiset(a[1..]) == multiset(b[1..])
  {
    assert a == [a[0]] + a[1..] && b == [b[0]] + b[1..];
    assert multiset(a[1..]) == multiset(a) - multiset{a[0]};
    assert multiset(b[1..]) == multiset(b) - multiset{b[0]};
  }

  lemma {:induction false} SortedIsUnique(a: seq<Condition>, b: seq<Condition>)
    requires Sorted(a) && Sorted(b) && DistinctKeys(a) && multiset(a) == multiset(b)
    ensures a == b
  {
    if a == [] {
      assert |multiset(b)| == |b|;
    } else {
      SortedHead(a, b);
      TailsAgree(a, b);
      SortedIsUnique(a[1..], b[1..]);
      assert a == [a[0]] + a[1..] && b == [b[0]] + b[1..];
    }
  }

  // ---- what a verdict must say -------------------------------------------------------------

  /** Every critical condition as often as it was given, and nothing else. */
  ghost predicate CriticalExactly(s: seq<Condition>, emergency: seq<Condition>) {
    forall c :: multiset(emergency)[c] == if c.severity.Critical? then multiset(s)[c] else 0
  }

  /** `c` is the hold on `vi` that comes first in key order. */
  ghost predicate LeastHold(s: seq<Condition>, vi: Name, c: Condition) {
    c in s && c.Holds(vi) && forall d :: d in s && d.Holds(vi) ==> KeyLeq(c.key, d.key)
  }

  lemma EmergencyIffCritical(s: seq<Condition>, emergency: seq<Condition>)
    requires CriticalExactly(s, emergency)
    ensures emergency != [] <==> exists c :: c in s && c.severity.Critical?
  {
    if emergency != [] {
      assert emergency[0] in multiset(emergency);
      assert emergency[0] in multiset(s);
    }
    if c :| c in s && c.severity.Critical? {
      assert c in multiset(s);
      assert c in multiset(emergency);
    }
  }

  /** Every held VI, and only those, mapped to its least-key hold. */
  ghost predicate HeldExactly(s: seq<Condition>, held: map<Name, Condition>) {
    && (forall c, vi :: c in s && c.Holds(vi) ==> vi in held)
    && (forall vi :: vi in held ==> LeastHold(s, vi, held[vi]))
  }

  ghost predicate FailureExactly(held: map<Name, Condition>, watched: set<Name>, runActive: bool,
          failure: Option<(Name, Condition)>)
  {
    match failure
    case None => !runActive || (forall vi :: vi in watched ==> vi !in held)
    case Some((vi, c)) =>
      runActive && vi in watched && vi in held && c == held[vi]
      && forall w :: w in watched && w in held ==> NameLeq(vi, w)
  }

  /** The enforcement decision, from the conditions in any order. */
  method Decide(conditions: seq<Condition>, watched: set<Name>, runActive: bool) returns (v: Verdict)
    requires forall c :: c in conditions ==> c.WellFormed()
    ensures HeldExactly(conditions, v.held)
    ensures Sorted(v.emergency) && CriticalExactly(conditions, v.emergency)
    ensures FailureExactly(v.held, watched, runActive, v.runFailure)
  {
    var ordered := SortByKey(conditions);
    SortByKeySorts(conditions);
    SameElements(ordered, conditions);
    var emergency := CriticalsIn(ordered);
    var held := HeldIn(ordered);
    var failure: Option<(Name, Condition)> := None;
    if runActive {
      var heldWatched := set vi | vi in watched && vi in held;
      if heldWatched != {} {
        var first := LeastName(heldWatched);
        failure := Some((first, held[first]));
      } else {
        assert forall vi :: vi in watched && vi in held ==> vi in heldWatched;
      }
    }
    v := Verdict(held, emergency, failure);
  }

  method CriticalsIn(ordered: seq<Condition>) returns (emergency: seq<Condition>)
    requires Sorted(ordered)
    ensures Sorted(emergency) && CriticalExactly(ordered, emergency)
  {
    emergency := [];
    for i := 0 to |ordered|
      invariant CriticalExactly(ordered[..i], emergency)
      invariant Sorted(emergency)
      invariant forall c :: c in emergency ==> c in ordered[..i]
    {
      assert ordered[..i + 1] == ordered[..i] + [ordered[i]];
      if ordered[i].severity.Critical? {
        forall c | c in emergency ensures KeyLeq(c.key, ordered[i].key) {
          var j :| 0 <= j < i && ordered[j] == c;
        }
        emergency := emergency + [ordered[i]];
      }
    }
    assert ordered[..|ordered|] == ordered;
  }

  method HeldIn(ordered: seq<Condition>) returns (held: map<Name, Condition>)
    requires Sorted(ordered) && forall c :: c in ordered ==> c.WellFormed()
    ensures HeldExactly(ordered, held)
  {
    held := map[];
    for i := 0 to |ordered|
      invariant HeldExactly(ordered[..i], held)
    {
      var c := ordered[i];
      assert c in ordered;
      if c.severity.Hold? {
        ghost var before := held;
        var todo := c.affected.value;
        while todo != {}
          invariant todo <= c.affected.value
          invariant before.Keys <= held.Keys
          invariant forall vi :: vi in before ==> held[vi] == before[vi]
          invariant forall vi :: vi in held && vi !in before ==> held[vi] == c && vi in c.affected.value
          invariant forall vi :: vi in c.affected.value - todo ==> vi in held
          decreases todo
        {
          var vi :| vi in todo;
          if vi !in held {
            held := held[vi := c];
          }
          todo := todo - {vi};
        }
        HeldStep(ordered, i, before, held);
      } else {
        HeldSkip(ordered, i, held);
      }
    }
    assert ordered[..|ordered|] == ordered;
  }

  lemma HeldStep(ordered: seq<Condition>, i: nat, before: map<Name, Condition>, held: map<Name, Condition>)
    requires i < |ordered| && Sorted(ordered) && ordered[i].severity.Hold? && ordered[i].affected.Some?
    requires HeldExactly(ordered[..i], before)
    requires before.Keys <= held.Keys && forall vi :: vi in before ==> held[vi] == before[vi]
    requires forall vi :: vi in held && vi !in before ==> held[vi] == ordered[i] && vi in ordered[i].affected.value
    requires forall vi :: vi in ordered[i].affected.value ==> vi in held
    ensures HeldExactly(ordered[..i + 1], held)
  {
    var c := ordered[i];
    assert ordered[..i + 1] == ordered[..i] + [c];
    KeyLeqTotal(c.key, c.key);
    forall vi | vi in held ensures LeastHold(ordered[..i + 1], vi, held[vi]) {
      if vi in before {
        assert held[vi] in ordered[..i];
        assert KeyLeq(held[vi].key, c.key);
      } else {
        assert forall d :: d in ordered[..i] ==> !d.Holds(vi);
      }
    }
  }

  lemma HeldSkip(ordered: seq<Condition>, i: nat, held: map<Name, Condition>)
    requires i < |ordered| && !ordered[i].severity.Hold? && HeldExactly(ordered[..i], held)
    ensures HeldExactly(ordered[..i + 1], held)
  {
    assert ordered[..i + 1] == ordered[..i] + [ordered[i]];
    forall vi | vi in held ensures LeastHold(ordered[..i + 1], vi, held[vi]) {
      assert LeastHold(ordered[..i], vi, held[vi]);
    }
  }

  method LeastName(names: set<Name>) returns (least: Name)
    requires names != {}
    ensures least in names && forall n :: n in names ==> NameLeq(least, n)
  {
    least :| least in names;
    var rest := names - {least};
    NameLeqTotal(least, least);
    while rest != {}
      invariant rest <= names && least in names - rest
      invariant forall n :: n in names - rest ==> NameLeq(least, n)
      decreases rest
    {
      var n :| n in rest;
      NameLeqTotal(n, n);
      NameLeqTotal(n, least);
      if !NameLeq(least, n) {
        forall m | m in names - rest ensures NameLeq(n, m) { NameLeqTransitive(n, least, m); }
        least := n;
      }
      rest := rest - {n};
    }
  }

  /** The verdict does not depend on the order the conditions arrive in, as long as their
      keys are distinct: the two verdicts of any two arrangements are equal. */
  lemma VerdictIgnoresOrder(a: seq<Condition>, b: seq<Condition>, watched: set<Name>, runActive: bool, v: Verdict,
          w: Verdict)
    requires multiset(a) == multiset(b) && DistinctKeys(a)
    requires HeldExactly(a, v.held) && HeldExactly(b, w.held)
    requires Sorted(v.emergency) && CriticalExactly(a, v.emergency)
    requires Sorted(w.emergency) && CriticalExactly(b, w.emergency)
    requires FailureExactly(v.held, watched, runActive, v.runFailure)
    requires FailureExactly(w.held, watched, runActive, w.runFailure)
    ensures v == w
  {
    SameElements(a, b);
    forall vi | vi in v.held ensures vi in w.held && v.held[vi] == w.held[vi] {
      KeyLeqTotal(v.held[vi].key, w.held[vi].key);
      SameKeySame(a, v.held[vi], w.held[vi]);
    }
    assert v.held == w.held by {
      forall vi | vi in w.held ensures vi in v.held { }
    }
    assert multiset(v.emergency) == multiset(w.emergency);
    DistinctKeysBelow(a, v.emergency);
    SortedIsUnique(v.emergency, w.emergency);
    if v.runFailure.Some? && w.runFailure.Some? {
      NameLeqTotal(v.runFailure.value.0, w.runFailure.value.0);
    }
  }

  lemma SameElements(a: seq<Condition>, b: seq<Condition>)
    requires multiset(a) == multiset(b)
    ensures forall c :: c in a <==> c in b
  {
    assert forall c :: c in a <==> c in multiset(a);
    assert forall c :: c in b <==> c in multiset(b);
  }

  lemma SameKeySame(a: seq<Condition>, c: Condition, d: Condition)
    requires DistinctKeys(a) && c in a && d in a && c.key == d.key
    ensures c == d
  {
  }

  lemma DistinctKeysBelow(a: seq<Condition>, b: seq<Condition>)
    requires DistinctKeys(a) && CriticalExactly(a, b)
    ensures DistinctKeys(b)
  {
    forall i, j | 0 <= i < j < |b| ensures b[i].key != b[j].key {
      if b[i].key == b[j].key {
        assert b[i] in multiset(b) && b[j] in multiset(b);
        assert b[i] in multiset(a) && b[j] in multiset(a);
        SameKeySame(a, b[i], b[j]);
        assert b == b[..i] + [b[i]] + b[i + 1..j] + [b[j]] + b[j + 1..];
        OnceEach(a, b[i]);
      }
    }
  }

  lemma {:induction false} OnceEach(a: seq<Condition>, c: Condition)
    requires DistinctKeys(a)
    ensures multiset(a)[c] <= 1
  {
    if a != [] {
      OnceEach(a[1..], c);
      assert a == [a[0]] + a[1..];
      if c == a[0] {
        assert c !in a[1..];
        assert c !in multiset(a[1..]);
      }
    }
  }

  /** One critical, station-wide condition per envelope breach. */
  function EnvelopeConditions(breaches: seq<Name>, now: real): (r: seq<Condition>)
    ensures |r| == |breaches|
    ensures forall i :: 0 <= i < |r| ==>
      && r[i].WellFormed() && r[i].severity.Critical? && r[i].affected.None? && r[i].key == Key(Envelope, breaches[i])
      && r[i].origin.Envelope? && r[i].kind.EnvelopeBreach? && r[i].sources == [] && r[i].since == now
      && !r[i].acknowledged
  {
    seq(|breaches|, i requires 0 <= i < |breaches| =>
      Condition(Key(Envelope, breaches[i]), Envelope, Critical, EnvelopeBreach, [], None, now, false))
  }
}
