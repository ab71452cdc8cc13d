/** Reading trend files backwards: lines newest first from fixed-size tail chunks, and records up to
    the first one that is too old. */
module TrendReader {
  import opened Conditions

  newtype Byte = x: int | 0 <= x < 256

  const NEWLINE: Byte := 10

  type Line = seq<Byte>

  function Reverse<T>(s: seq<T>): seq<T> {
    if s == [] then [] else [s[|s| - 1]] + Reverse(s[..|s| - 1])
  }

  lemma {:induction false} ReverseAppend<T>(a: seq<T>, b: seq<T>)
    ensures Reverse(a + b) == Reverse(b) + Reverse(a)
  {
    if b == [] {
      assert a + b == a;
    } else {
      assert (a + b)[..|a + b| - 1] == a + b[..|b| - 1];
      ReverseAppend(a, b[..|b| - 1]);
    }
  }

  lemma {:induction false} ReverseTwice<T>(s: seq<T>)
    ensures Reverse(Reverse(s)) == s
  {
    if s != [] {
      var last := s[|s| - 1];
      ReverseTwice(s[..|s| - 1]);
      ReverseAppend([last], Reverse(s[..|s| - 1]));
      assert Reverse([last]) == [last] by { assert [last][..0] == []; }
    }
  }

  // ---- splitting at newlines ----------------------------------------------------------------

  /** data.split(b"\n"): one more part than there are newlines. */
  function Split(b: seq<Byte>): (parts: seq<Line>)
    ensures |parts| > 0
  {
    if b == [] then [[]]
    else if b[0] == NEWLINE then [[]] + Split(b[1..])
    else [[b[0]] + Split(b[1..])[0]] + Split(b[1..])[1..]
  }

  /** The parts join back to the bytes. */
  function Join(parts: seq<Line>): seq<Byte>
    requires |parts| > 0
  {
    if |parts| == 1 then parts[0] else parts[0] + [NEWLINE] + Join(parts[1..])
  }

  lemma {:induction false} SplitIsExact(b: seq<Byte>)
    ensures Join(Split(b)) == b
    ensures forall i :: 0 <= i < |Split(b)| ==> NEWLINE !in Split(b)[i]
  {
    if b != [] {
      SplitIsExact(b[1..]);
    }
  }

  lemma {:induction false} SplitOneLine(line: Line)
    requires NEWLINE !in line
    ensures Split(line) == [line]
  {
    if line != [] {
      SplitOneLine(line[1..]);
      assert line == [line[0]] + line[1..];
    }
  }

  lemma SplitFirst(b: seq<Byte>)
    requires b != []
    ensures Split(b) ==
      if b[0] == NEWLINE then [[]] + Split(b[1..]) else [[b[0]] + Split(b[1..])[0]] + Split(b[1..])[1..]
  {
  }

  lemma {:induction false} SplitAppend(a: seq<Byte>, b: seq<Byte>)
    ensures var p, q := Split(a), Split(b);
      Split(a + b) == p[..|p| - 1] + [p[|p| - 1] + q[0]] + q[1..]
  {
    hide Split;
    var q := Split(b);
    if a == [] {
      EmptySplit();
      assert a + b == b;
      assert [] + q[0] == q[0];
      assert [q[0]] + q[1..] == q;
    } else {
      assert (a + b)[1..] == a[1..] + b;
      SplitFirst(a);
      SplitFirst(a + b);
      SplitAppend(a[1..], b);
      GrowFirst(a[0], Split(a[1..]), q, Split(a[1..] + b));
    }
  }

  /** Putting one more byte in front does the same to the parts of `a` and of `a + b`. */
  lemma GrowFirst(x: Byte, p: seq<Line>, q: seq<Line>, r: seq<Line>)
    requires p != [] && q != [] && r == p[..|p| - 1] + [p[|p| - 1] + q[0]] + q[1..]
    ensures var p' := [[x] + p[0]] + p[1..];
      [[x] + r[0]] + r[1..] == p'[..|p'| - 1] + [p'[|p'| - 1] + q[0]] + q[1..]
    ensures var p' := [[]] + p;
      [[]] + r == p'[..|p'| - 1] + [p'[|p'| - 1] + q[0]] + q[1..]
  {
    var p' := [[x] + p[0]] + p[1..];
    if |p| == 1 {
      assert [x] + (p[0] + q[0]) == ([x] + p[0]) + q[0];
    } else {
      assert p'[..|p'| - 1] == [[x] + p[0]] + p[1..|p| - 1];
      assert r[1..] == p[1..|p| - 1] + [p[|p| - 1] + q[0]] + q[1..];
    }
  }

  /** A chunk is split together with the fragment left over from the bytes after it. */
  lemma SplitChunk(chunk: seq<Byte>, rest: seq<Byte>)
    ensures Split(chunk + rest) == Split(chunk + Split(rest)[0]) + Split(rest)[1..]
  {
    hide Split;
    var left := Split(rest)[0];
    SplitIsExact(rest);
    SplitOneLine(left);
    SplitAppend(chunk, rest);
    SplitAppend(chunk, left);
    assert [left][1..] == [];
  }

  /** Nothing comes after a final newline. */
  function WithoutFinalEmpty(parts: seq<Line>): seq<Line> {
    if parts != [] && parts[|parts| - 1] == [] then parts[..|parts| - 1] else parts
  }

  /** The file's lines, oldest first. */
  function Lines(b: seq<Byte>): seq<Line> {
    WithoutFinalEmpty(Split(b))
  }

  /** The same, except that an empty first line is not seen. */
  function LinesSeen(b: seq<Byte>): seq<Line> {
    (if Split(b)[0] == [] then [] else [Split(b)[0]]) + WithoutFinalEmpty(Split(b)[1..])
  }

  lemma OnlyAnEmptyFirstLineIsMissed(b: seq<Byte>)
    ensures Lines(b) == LinesSeen(b) || Lines(b) == [[]] + LinesSeen(b)
    ensures Lines(b) == LinesSeen(b) <==> b == [] || b[0] != NEWLINE
  {
    var parts := Split(b);
    assert parts == [parts[0]] + parts[1..];
  }

  lemma LastPartNotEmpty(chunk: seq<Byte>, rest: seq<Byte>)
    requires rest != [] && Split(rest)[1..] == []
    ensures var parts := Split(chunk + Split(rest)[0]); parts[|parts| - 1] != []
  {
    SplitIsExact(rest);
    assert Split(rest) == [Split(rest)[0]];
    SplitAppend(chunk, rest);
  }

  /** Lines newest first, whatever the chunk size. */
  method IterLinesReverse(file: seq<Byte>, chunkSize: nat) returns (lines: seq<Line>)
    requires chunkSize >= 1
    ensures lines == Reverse(LinesSeen(file))
  {
    var remaining := |file|;
    var leftover: Line := [];
    var atEofChunk := true;
    lines := [];
    hide Split, Reverse;
    EmptySplit();
    assert file[remaining..] == [] && Split([])[1..] == [];
    while remaining > 0
      invariant 0 <= remaining <= |file|
      invariant atEofChunk <==> remaining == |file|
      invariant leftover == Split(file[remaining..])[0]
      invariant lines == Reverse(WithoutFinalEmpty(Split(file[remaining..])[1..]))
    {
      ghost var rest := file[remaining..];
      var readSize := if chunkSize < remaining then chunkSize else remaining;
      remaining := remaining - readSize;
      var chunk := file[remaining..remaining + readSize];
      var parts := Split(chunk + leftover);
      leftover := parts[0];
      var tailParts := parts[1..];
      if atEofChunk && tailParts != [] && tailParts[|tailParts| - 1] == [] {
        tailParts := tailParts[..|tailParts| - 1];
      }
      lines := lines + Reverse(tailParts);
      ChunkStep(chunk, rest, atEofChunk, tailParts);
      assert file[remaining..] == chunk + rest;
      atEofChunk := false;
    }
    assert file[0..] == file;
    ReverseOne(leftover);
    ReverseAppend([leftover], WithoutFinalEmpty(Split(file)[1..]));
    assert [] + WithoutFinalEmpty(Split(file)[1..]) == WithoutFinalEmpty(Split(file)[1..]);
    if leftover != [] {
      lines := lines + [leftover];
    }
  }

  lemma EmptySplit()
    ensures Split([]) == [[]] && WithoutFinalEmpty([]) == [] && Reverse<Line>([]) == []
  {
  }

  lemma ReverseOne<T>(x: T)
    ensures Reverse([x]) == [x] && Reverse<T>([]) == []
  {
    assert [x][..0] == [];
  }

  lemma ChunkStep(chunk: seq<Byte>, rest: seq<Byte>, atEof: bool, tail: seq<Line>)
    requires chunk != [] && (atEof <==> rest == [])
    requires var parts := Split(chunk + Split(rest)[0]);
      tail == if atEof then WithoutFinalEmpty(parts[1..]) else parts[1..]
    ensures Split(chunk + rest)[0] == Split(chunk + Split(rest)[0])[0]
    ensures Reverse(WithoutFinalEmpty(Split(chunk + rest)[1..]))
         == Reverse(WithoutFinalEmpty(Split(rest)[1..])) + Reverse(tail)
  {
    hide Split, Reverse;
    var parts := Split(chunk + Split(rest)[0]);
    var later := Split(rest)[1..];
    SplitChunk(chunk, rest);
    assert Split(chunk + rest)[1..] == parts[1..] + later;
    ReverseAppend(tail, WithoutFinalEmpty(later));
    if atEof {
      EmptySplit();
      assert parts[1..] + later == parts[1..];
      assert tail + [] == tail;
    } else if later == [] {
      LastPartNotEmpty(chunk, rest);
      assert parts[1..] + later == parts[1..];
      assert tail + [] == tail;
    } else {
      assert WithoutFinalEmpty(parts[1..] + later) == parts[1..] + WithoutFinalEmpty(later);
    }
  }

  // ---- records ------------------------------------------------------------------------------

  datatype Record<V> = Record(t: real, v: V)

  /** What a line parses to; None for a blank, malformed or otherwise unusable line. */
  type Parser<!V> = Line -> Option<Record<V>>

  function Parsed<V>(lines: seq<Line>, parse: Parser<V>): seq<Record<V>> {
    if lines == [] then []
    else Parsed(lines[..|lines| - 1], parse) + ParsedOne(lines[|lines| - 1], parse)
  }

  function ParsedOne<V>(line: Line, parse: Parser<V>): seq<Record<V>> {
    match parse(line)
    case Some(r) => [r]
    case None => []
  }

  lemma {:induction false} ParsedAppend<V>(a: seq<Line>, b: seq<Line>, parse: Parser<V>)
    ensures Parsed(a + b, parse) == Parsed(a, parse) + Parsed(b, parse)
  {
    if b == [] {
      assert a + b == a;
    } else {
      assert (a + b)[..|a + b| - 1] == a + b[..|b| - 1];
      ParsedAppend(a, b[..|b| - 1], parse);
    }
  }

  lemma ParsedSingle<V>(line: Line, parse: Parser<V>)
    ensures Parsed([line], parse) == ParsedOne(line, parse)
  {
    assert [line][..0] == [];
  }

  /** The blank first line that the backward reader does not see holds no record anyway. */
  lemma SeenLinesHoldAllRecords<V>(file: seq<Byte>, parse: Parser<V>)
    requires parse([]).None?
    ensures Parsed(LinesSeen(file), parse) == Parsed(Lines(file), parse)
  {
    OnlyAnEmptyFirstLineIsMissed(file);
    ParsedAppend([[]], LinesSeen(file), parse);
    ParsedSingle<V>([], parse);
  }

  /** Every usable record of the tier, oldest first; the files come newest first. */
  function AllRecords<V>(files: seq<seq<Byte>>, parse: Parser<V>): seq<Record<V>> {
    if files == [] then [] else AllRecords(files[1..], parse) + Parsed(Lines(files[0]), parse)
  }

  predicate Within(r: Record, lower: real, now: real) {
    lower <= r.t <= now
  }

  /** The forward filter: every record of the window, in order. */
  function InWindow<V>(records: seq<Record<V>>, lower: real, now: real): seq<Record<V>> {
    if records == [] then []
    else
      var last := records[|records| - 1];
      InWindow(records[..|records| - 1], lower, now) + if Within(last, lower, now) then [last] else []
  }

  /** The records after the last one that is too old. */
  function Recent<V>(records: seq<Record<V>>, lower: real): seq<Record<V>> {
    if records == [] || records[|records| - 1].t < lower then []
    else Recent(records[..|records| - 1], lower) + [records[|records| - 1]]
  }

  lemma {:induction false} InWindowAppend<V>(a: seq<Record<V>>, b: seq<Record<V>>, lower: real, now: real)
    ensures InWindow(a + b, lower, now) == InWindow(a, lower, now) + InWindow(b, lower, now)
  {
    if b == [] {
      assert a + b == a;
    } else {
      assert (a + b)[..|a + b| - 1] == a + b[..|b| - 1];
      InWindowAppend(a, b[..|b| - 1], lower, now);
    }
  }

  lemma {:induction false} RecentIs<V>(old': seq<Record<V>>, recent: seq<Record<V>>, lower: real)
    requires old' == [] || old'[|old'| - 1].t < lower
    requires forall i :: 0 <= i < |recent| ==> recent[i].t >= lower
    ensures Recent(old' + recent, lower) == recent
  {
    if recent == [] {
      assert old' + recent == old';
    } else {
      var n := |recent| - 1;
      assert (old' + recent)[..|old' + recent| - 1] == old' + recent[..n];
      RecentIs(old', recent[..n], lower);
    }
  }

  ghost predicate NoneTooOld<V>(records: seq<Record<V>>, lower: real) {
    forall i :: 0 <= i < |records| ==> records[i].t >= lower
  }

  /** Newest-first with early stop: exactly the window's records among those after the last one that
      is too old. Lines that do not parse stop nothing. */
  method ReadTier<V>(files: seq<seq<Byte>>, parse: Parser<V>, lower: real, now: real, chunkSize: nat)
    returns (records: seq<Record<V>>)
    requires chunkSize >= 1 && parse([]).None?
    ensures records == InWindow(Recent(AllRecords(files, parse), lower), lower, now)
  {
    hide Parsed, InWindow, Recent, Reverse, Split, LinesSeen, Lines;
    EmptyReads<V>(lower, now);
    records := [];
    ghost var done: seq<Record<V>> := [];
    var stop, i := false, 0;
    assert files[0..] == files;
    while i < |files| && !stop
      invariant 0 <= i <= |files| && NoneTooOld(done, lower)
      invariant records == Reverse(InWindow(done, lower, now))
      invariant !stop ==> AllRecords(files, parse) == AllRecords(files[i..], parse) + done
      invariant stop ==> Recent(AllRecords(files, parse), lower) == done
    {
      var lines := IterLinesReverse(files[i], chunkSize);
      ghost var newer := done;
      records, done, stop := ReadFile(lines, parse, lower, now, records, done);
      FileRead(files, i, parse, lines, newer, done, stop, lower);
      i := i + 1;
    }
    if !stop {
      assert files[i..] == [] && [] + done == done;
      RecentIs([], done, lower);
    }
    ReverseTwice(InWindow(done, lower, now));
    records := Reverse(records);
  }

  lemma EmptyReads<V>(lower: real, now: real)
    ensures InWindow<V>([], lower, now) == [] && Reverse<Record<V>>([]) == []
  {
  }

  /** `lines` newest first, on top of the newer records already read. */
  method ReadFile<V>(lines: seq<Line>, parse: Parser<V>, lower: real, now: real, found: seq<Record<V>>,
          ghost newer: seq<Record<V>>)
    returns (records: seq<Record<V>>, ghost done: seq<Record<V>>, stop: bool)
    requires found == Reverse(InWindow(newer, lower, now)) && NoneTooOld(newer, lower)
    ensures records == Reverse(InWindow(done, lower, now)) && NoneTooOld(done, lower)
    ensures !stop ==> done == Parsed(Reverse(lines), parse) + newer
    ensures stop ==> StopsAt(Parsed(Reverse(lines), parse) + newer, done, lower)
  {
    hide Parsed, InWindow, Reverse;
    records, done := found, newer;
    NothingParsed(parse, newer);
    assert lines[..0] == [];
    for j := 0 to |lines|
      invariant records == Reverse(InWindow(done, lower, now)) && NoneTooOld(done, lower)
      invariant done == Parsed(Reverse(lines[..j]), parse) + newer
    {
      OneMoreLine(lines, j, parse, newer);
      match parse(lines[j])
      case None =>
        assert [] + done == done;
      case Some(r) =>
        if r.t < lower {
          StoppedHere(lines, j, parse, newer, done, r);
          return records, done, true;
        }
        OneMoreRecord(r, done, lower, now);
        if r.t <= now {
          records := records + [r];
        }
        done := [r] + done;
    }
    assert lines[..|lines|] == lines;
    stop := false;
  }

  /** `all` is `done`, and before it a record that is too old. */
  ghost predicate StopsAt<V>(all: seq<Record<V>>, done: seq<Record<V>>, lower: real) {
    && |done| < |all| && all[|all| - |done|..] == done
    && all[|all| - |done| - 1].t < lower
  }

  lemma NothingParsed<V>(parse: Parser<V>, newer: seq<Record<V>>)
    ensures Parsed(Reverse([]), parse) + newer == newer
  {
  }

  lemma OneMoreLine<V>(lines: seq<Line>, j: nat, parse: Parser<V>, newer: seq<Record<V>>)
    requires j < |lines|
    ensures Parsed(Reverse(lines[..j + 1]), parse) + newer
         == ParsedOne(lines[j], parse) + (Parsed(Reverse(lines[..j]), parse) + newer)
  {
    hide Parsed;
    assert lines[..j + 1] == lines[..j] + [lines[j]];
    assert Reverse(lines[..j + 1]) == [lines[j]] + Reverse(lines[..j]) by {
      assert lines[..j + 1][..j] == lines[..j];
    }
    ParsedAppend([lines[j]], Reverse(lines[..j]), parse);
    ParsedSingle(lines[j], parse);
  }

  lemma OneMoreRecord<V>(r: Record<V>, done: seq<Record<V>>, lower: real, now: real)
    ensures Reverse(InWindow([r] + done, lower, now))
         == Reverse(InWindow(done, lower, now)) + if Within(r, lower, now) then [r] else []
  {
    InWindowAppend([r], done, lower, now);
    assert [r][..0] == [];
    var first := InWindow([r], lower, now);
    assert first == if Within(r, lower, now) then [r] else [];
    ReverseAppend(first, InWindow(done, lower, now));
    if Within(r, lower, now) { ReverseOne(r); }
  }

  lemma StoppedHere<V>(lines: seq<Line>, j: nat, parse: Parser<V>, newer: seq<Record<V>>, done: seq<Record<V>>,
          r: Record<V>)
    requires j < |lines| && parse(lines[j]) == Some(r)
    requires done == Parsed(Reverse(lines[..j]), parse) + newer
    ensures forall lower :: r.t < lower ==> StopsAt(Parsed(Reverse(lines), parse) + newer, done, lower)
  {
    hide Parsed, Reverse;
    var older := lines[j + 1..];
    assert lines == lines[..j + 1] + older;
    ReverseAppend(lines[..j + 1], older);
    ParsedAppend(Reverse(older), Reverse(lines[..j + 1]), parse);
    OneMoreLine(lines, j, parse, newer);
    var all := Parsed(Reverse(lines), parse) + newer;
    assert all == Parsed(Reverse(older), parse) + ([r] + done);
  }

  lemma FileRead<V>(files: seq<seq<Byte>>, i: nat, parse: Parser<V>, lines: seq<Line>, newer: seq<Record<V>>,
          done: seq<Record<V>>, stop: bool, lower: real)
    requires i < |files| && parse([]).None? && lines == Reverse(LinesSeen(files[i]))
    requires AllRecords(files, parse) == AllRecords(files[i..], parse) + newer && NoneTooOld(done, lower)
    requires if stop then StopsAt(Parsed(Reverse(lines), parse) + newer, done, lower)
             else done == Parsed(Reverse(lines), parse) + newer
    ensures !stop ==> AllRecords(files, parse) == AllRecords(files[i + 1..], parse) + done
    ensures stop ==> Recent(AllRecords(files, parse), lower) == done
  {
    hide Parsed, Reverse, Recent, Lines, LinesSeen;
    ReverseTwice(LinesSeen(files[i]));
    SeenLinesHoldAllRecords(files[i], parse);
    assert files[i..][1..] == files[i + 1..];
    var older := AllRecords(files[i + 1..], parse);
    var here := Parsed(Lines(files[i]), parse) + newer;
    assert AllRecords(files, parse) == older + here;
    if stop {
      StopJoins(older, here, done, lower);
    }
  }

  lemma StopJoins<V>(older: seq<Record<V>>, here: seq<Record<V>>, done: seq<Record<V>>, lower: real)
    requires StopsAt(here, done, lower) && NoneTooOld(done, lower)
    ensures Recent(older + here, lower) == done
  {
    hide Recent;
    var k := |here| - |done|;
    assert here == here[..k] + done;
    assert older + here == (older + here[..k]) + done;
    RecentIs(older + here[..k], done, lower);
  }

  // ---- when the early stop is exact ---------------------------------------------------------

  /** No record of the window lies before one that is too old. */
  ghost predicate NothingHidden<V>(records: seq<Record<V>>, lower: real, now: real) {
    forall i, j :: 0 <= i < j < |records| && records[j].t < lower ==> !Within(records[i], lower, now)
  }

  lemma {:induction false} RecentSplits<V>(records: seq<Record<V>>, lower: real)
    ensures var k := |records| - |Recent(records, lower)|;
      && 0 <= k && Recent(records, lower) == records[k..] && (k > 0 ==> records[k - 1].t < lower)
      && forall m :: k <= m < |records| ==> records[m].t >= lower
  {
    if records != [] && records[|records| - 1].t >= lower {
      RecentSplits(records[..|records| - 1], lower);
      var k := |records| - |Recent(records, lower)|;
      assert records[k..] == records[..|records| - 1][k..] + [records[|records| - 1]];
      forall m | k <= m < |records| - 1 ensures records[m].t >= lower {
        assert records[..|records| - 1][m] == records[m];
      }
    }
  }

  lemma {:induction false} InWindowEmpty<V>(records: seq<Record<V>>, lower: real, now: real)
    ensures InWindow(records, lower, now) == [] <==> forall i :: 0 <= i < |records| ==> !Within(records[i], lower, now)
  {
    if records != [] {
      InWindowEmpty(records[..|records| - 1], lower, now);
      assert forall i :: 0 <= i < |records| - 1 ==> records[..|records| - 1][i] == records[i];
    }
  }

  lemma HiddenBefore<V>(records: seq<Record<V>>, k: nat, lower: real, now: real)
    requires k <= |records| && (k > 0 ==> records[k - 1].t < lower)
    requires forall m :: k <= m < |records| ==> records[m].t >= lower
    ensures NothingHidden(records, lower, now) <==> forall i :: 0 <= i < k ==> !Within(records[i], lower, now)
  {
    if NothingHidden(records, lower, now) {
      forall i | 0 <= i < k ensures !Within(records[i], lower, now) {
      }
    } else {
      var i, j :| 0 <= i < j < |records| && records[j].t < lower && Within(records[i], lower, now);
      assert i < k;
    }
  }

  lemma SameAfterNothing<T>(a: seq<T>, b: seq<T>)
    ensures b == a + b <==> a == []
  {
    assert |a + b| == |a| + |b|;
    assert a == [] ==> a + b == b;
  }

  /** The scan equals the forward filter exactly when no record of the window is hidden behind an
      older one; in particular on every append-ordered tier. */
  lemma EarlyStopIsExact<V>(records: seq<Record<V>>, lower: real, now: real)
    ensures InWindow(Recent(records, lower), lower, now) == InWindow(records, lower, now) <==>
      NothingHidden(records, lower, now)
    ensures (forall i, j :: 0 <= i < j < |records| ==> records[i].t <= records[j].t) ==>
      NothingHidden(records, lower, now)
  {
    hide Recent, InWindow;
    RecentSplits(records, lower);
    var k := |records| - |Recent(records, lower)|;
    assert records == records[..k] + records[k..];
    InWindowAppend(records[..k], records[k..], lower, now);
    InWindowEmpty(records[..k], lower, now);
    HiddenBefore(records, k, lower, now);
    SameAfterNothing(InWindow(records[..k], lower, now), InWindow(records[k..], lower, now));
  }
}
