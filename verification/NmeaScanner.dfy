/**
 The sentence scanner (core/nmea_scanner.py): its two regular expressions as an
 explicit search, leftmost and then shortest.
 */
module NmeaScanner {
  import opened Common

  datatype Span = Span(start: nat, end: nat)

  datatype ScanMatch = ScanMatch(sentence: Span, tag: Option<Span>)

  predicate Talker(a: char, b: char) {
    (a == 'A' && b in {'I', 'B', 'D', 'N', 'R', 'S', 'T', 'X'}) || (a == 'B' && b == 'S')
  }

  /** `!`, a talker, `VDM` or, if asked for, `VDO`, and a comma. */
  predicate StartsAt(p: string, i: nat, includeVdo: bool) {
    && i + 7 <= |p| && p[i] == '!' && Talker(p[i + 1], p[i + 2]) && p[i + 3] == 'V' && p[i + 4] == 'D'
    && (p[i + 5] == 'M' || (includeVdo && p[i + 5] == 'O')) && p[i + 6] == ','
  }

  predicate Hex(c: char) {
    '0' <= c <= '9' || 'A' <= c <= 'F' || 'a' <= c <= 'f'
  }

  predicate ChecksumAt(p: string, j: nat) {
    j + 3 <= |p| && p[j] == '*' && Hex(p[j + 1]) && Hex(p[j + 2])
  }

  predicate LineBreak(c: char) {
    c == '\r' || c == '\n'
  }

  /** The end of the first checksum from `j` on, if no line break comes before it. */
  function BodyEnd(p: string, j: nat): (e: Option<nat>)
    ensures e.Some? ==> j + 3 <= e.value <= |p|
    decreases |p| - j
  {
    if j >= |p| then None
    else if ChecksumAt(p, j) then Some(j + 3)
    else if LineBreak(p[j]) then None
    else BodyEnd(p, j + 1)
  }

  /** A match of the pattern that begins at `i`. */
  function MatchAt(p: string, i: nat, includeVdo: bool): (e: Option<nat>)
    ensures e.Some? ==> i + 10 <= e.value <= |p|
  {
    if StartsAt(p, i, includeVdo) then BodyEnd(p, i + 7) else None
  }

  /** What the pattern asks of a stretch of the payload. */
  predicate IsSentence(p: string, i: nat, e: nat, includeVdo: bool) {
    && StartsAt(p, i, includeVdo) && i + 10 <= e <= |p| && ChecksumAt(p, e - 3)
    && forall j :: i + 7 <= j < e - 3 ==> !LineBreak(p[j])
  }

  lemma {:induction false} BodyEndIsFirst(p: string, j: nat, e: nat)
    ensures BodyEnd(p, j) == Some(e) <==>
              && j + 3 <= e <= |p| && ChecksumAt(p, e - 3)
              && (forall k :: j <= k < e - 3 ==> !LineBreak(p[k]) && !ChecksumAt(p, k))
    decreases |p| - j
  {
    if j < |p| && !ChecksumAt(p, j) && !LineBreak(p[j]) {
      BodyEndIsFirst(p, j + 1, e);
    }
  }

  /** A match is the shortest sentence at its place. */
  lemma MatchIsShortest(p: string, i: nat, e: nat, includeVdo: bool)
    ensures MatchAt(p, i, includeVdo) == Some(e) <==>
              IsSentence(p, i, e, includeVdo) && forall f: nat :: IsSentence(p, i, f, includeVdo) ==> e <= f
  {
    hide BodyEnd, StartsAt;
    BodyEndIsFirst(p, i + 7, e);
    if IsSentence(p, i, e, includeVdo) && forall f: nat :: IsSentence(p, i, f, includeVdo) ==> e <= f {
      forall k | i + 7 <= k < e - 3 ensures !ChecksumAt(p, k) {
        assert ChecksumAt(p, k) ==> IsSentence(p, i, k + 3, includeVdo);
      }
    }
    if MatchAt(p, i, includeVdo) == Some(e) {
      forall f: nat | IsSentence(p, i, f, includeVdo) ensures e <= f {
        assert ChecksumAt(p, f - 3);
      }
    }
  }

  // ------------------------------------------------------------------- the whole scan

  /** `finditer`: from left to right, going on behind each match. */
  function Spans(p: string, from: nat, includeVdo: bool): seq<Span>
    decreases |p| - from
  {
    if from >= |p| then []
    else
      match MatchAt(p, from, includeVdo)
      case Some(e) => [Span(from, e)] + Spans(p, e, includeVdo)
      case None => Spans(p, from + 1, includeVdo)
  }

  predicate Ordered(spans: seq<Span>, i: int, j: int)
    requires 0 <= i < |spans| && 0 <= j < |spans|
  {
    spans[i].end <= spans[j].start
  }

  predicate Covered(spans: seq<Span>, i: nat) {
    exists k :: 0 <= k < |spans| && spans[k].start <= i < spans[k].end
  }

  predicate AllMatch(p: string, from: nat, includeVdo: bool, spans: seq<Span>) {
    forall k :: 0 <= k < |spans| ==>
      from <= spans[k].start && MatchAt(p, spans[k].start, includeVdo) == Some(spans[k].end)
  }

  predicate AllOrdered(spans: seq<Span>) {
    forall i, j :: 0 <= i < j < |spans| ==> Ordered(spans, i, j)
  }

  ghost predicate AllCovered(p: string, from: nat, includeVdo: bool, spans: seq<Span>) {
    forall i: nat :: from <= i && MatchAt(p, i, includeVdo).Some? ==> Covered(spans, i)
  }

  lemma MoreMatch(p: string, from: nat, e: nat, includeVdo: bool, rest: seq<Span>)
    requires MatchAt(p, from, includeVdo) == Some(e) && AllMatch(p, e, includeVdo, rest) && from <= e
    ensures AllMatch(p, from, includeVdo, [Span(from, e)] + rest)
  {
    hide MatchAt;
  }

  lemma MoreOrdered(p: string, from: nat, e: nat, includeVdo: bool, rest: seq<Span>)
    requires AllMatch(p, e, includeVdo, rest) && AllOrdered(rest)
    ensures AllOrdered([Span(from, e)] + rest)
  {
    hide MatchAt;
    var s := [Span(from, e)] + rest;
    forall i, j | 0 <= i < j < |s| ensures Ordered(s, i, j) {
      if i > 0 { assert Ordered(rest, i - 1, j - 1); }
    }
  }

  lemma MoreCovered(p: string, from: nat, e: nat, includeVdo: bool, rest: seq<Span>)
    requires AllCovered(p, e, includeVdo, rest)
    ensures AllCovered(p, from, includeVdo, [Span(from, e)] + rest)
  {
    hide MatchAt;
    var s := [Span(from, e)] + rest;
    forall i: nat | from <= i && MatchAt(p, i, includeVdo).Some? ensures Covered(s, i) {
      if i < e {
        assert s[0].start <= i < s[0].end;
      } else {
        assert Covered(rest, i);
        var k :| 0 <= k < |rest| && rest[k].start <= i < rest[k].end;
        assert s[k + 1] == rest[k];
      }
    }
  }

  lemma LaterCovered(p: string, from: nat, includeVdo: bool, rest: seq<Span>)
    requires AllCovered(p, from + 1, includeVdo, rest) && MatchAt(p, from, includeVdo).None?
    ensures AllCovered(p, from, includeVdo, rest)
  {
    hide MatchAt, Covered;
  }

  /** Found are matches in order that do not overlap, and a match begins nowhere else but inside them. */
  lemma {:induction false} ScanFindsAll(p: string, from: nat, includeVdo: bool)
    ensures var s := Spans(p, from, includeVdo);
            AllMatch(p, from, includeVdo, s) && AllOrdered(s) && AllCovered(p, from, includeVdo, s)
    decreases |p| - from
  {
    if from >= |p| { return; }
    var m := MatchAt(p, from, includeVdo);
    hide MatchAt, AllOrdered, AllCovered;
    if m.Some? {
      ScanFindsAll(p, m.value, includeVdo);
      var rest := Spans(p, m.value, includeVdo);
      MoreMatch(p, from, m.value, includeVdo, rest);
      MoreOrdered(p, from, m.value, includeVdo, rest);
      MoreCovered(p, from, m.value, includeVdo, rest);
    } else {
      ScanFindsAll(p, from + 1, includeVdo);
      LaterCovered(p, from, includeVdo, Spans(p, from + 1, includeVdo));
    }
  }

  /** `rfind(c, 0, n)`. */
  function LastBefore(p: string, c: char, n: nat): (k: Option<nat>)
    requires n <= |p|
    ensures k.Some? ==> k.value < n && p[k.value] == c && forall i :: k.value < i < n ==> p[i] != c
    ensures k.None? ==> forall i :: 0 <= i < n ==> p[i] != c
  {
    if n == 0 then None else if p[n - 1] == c then Some(n - 1) else LastBefore(p, c, n - 1)
  }

  /** `_find_adjacent_tag`: the text between the two backslashes right before a sentence. */
  function FindAdjacentTag(p: string, start: nat): Option<Span>
    requires start <= |p|
  {
    if start == 0 || p[start - 1] != '\\' then None
    else
      match LastBefore(p, '\\', start - 1)
      case None => None
      case Some(t) => Some(Span(t, start))
  }

  function Located(p: string, spans: seq<Span>): seq<ScanMatch>
    requires forall k :: 0 <= k < |spans| ==> spans[k].start <= |p|
  {
    seq(|spans|, k requires 0 <= k < |spans| => ScanMatch(spans[k], FindAdjacentTag(p, spans[k].start)))
  }

  lemma SpansAreInside(p: string, from: nat, includeVdo: bool)
    ensures forall k :: 0 <= k < |Spans(p, from, includeVdo)| ==> Spans(p, from, includeVdo)[k].start <= |p|
  {
    hide Spans;
    ScanFindsAll(p, from, includeVdo);
  }

  lemma LocatedAppend(p: string, spans: seq<Span>, span: Span)
    requires forall k :: 0 <= k < |spans + [span]| ==> (spans + [span])[k].start <= |p|
    ensures forall k :: 0 <= k < |spans| ==> spans[k].start <= |p|
    ensures span.start <= |p|
    ensures Located(p, spans + [span]) == Located(p, spans) + [ScanMatch(span, FindAdjacentTag(p, span.start))]
  {
    hide FindAdjacentTag;
    forall k | 0 <= k < |spans| ensures spans[k].start <= |p| { assert (spans + [span])[k] == spans[k]; }
    assert (spans + [span])[|spans|] == span;
  }

  /** `scan_nmea_sentences`. */
  method ScanNmeaSentences(payload: string, includeVdo: bool) returns (matches: seq<ScanMatch>)
    ensures forall k :: 0 <= k < |Spans(payload, 0, includeVdo)| ==> Spans(payload, 0, includeVdo)[k].start <= |payload|
    ensures matches == Located(payload, Spans(payload, 0, includeVdo))
  {
    hide MatchAt, FindAdjacentTag, Located, Spans;
    SpansAreInside(payload, 0, includeVdo);
    ghost var all := Spans(payload, 0, includeVdo);
    ghost var found: seq<Span> := [];
    NothingLocated(payload);
    matches := [];
    var from := 0;
    while from < |payload|
      invariant all == found + Spans(payload, from, includeVdo)
      invariant forall k :: 0 <= k < |found| ==> found[k].start <= |payload|
      invariant matches == Located(payload, found)
      decreases |payload| - from
    {
      var end := MatchAt(payload, from, includeVdo);
      if end.Some? {
        FirstSpan(payload, from, end.value, includeVdo);
        var span := Span(from, end.value);
        Regrouped(found, span, Spans(payload, end.value, includeVdo));
        OneMoreInside(payload, found, span);
        LocatedAppend(payload, found, span);
        found := found + [span];
        matches := matches + [ScanMatch(span, FindAdjacentTag(payload, from))];
        from := end.value;
      } else {
        NoSpanHere(payload, from, includeVdo);
        from := from + 1;
      }
    }
    NoSpanHere(payload, from, includeVdo);
    assert found + [] == found;
  }

  lemma Regrouped(found: seq<Span>, span: Span, rest: seq<Span>)
    ensures found + ([span] + rest) == (found + [span]) + rest
  {
  }

  lemma OneMoreInside(p: string, found: seq<Span>, span: Span)
    requires span.start <= |p| && forall k :: 0 <= k < |found| ==> found[k].start <= |p|
    ensures forall k :: 0 <= k < |found + [span]| ==> (found + [span])[k].start <= |p|
  {
  }

  lemma NoSpanHere(p: string, from: nat, includeVdo: bool)
    ensures from >= |p| ==> Spans(p, from, includeVdo) == []
    ensures from < |p| && MatchAt(p, from, includeVdo).None? ==>
              Spans(p, from, includeVdo) == Spans(p, from + 1, includeVdo)
  {
    hide MatchAt;
  }

  lemma NothingLocated(p: string)
    ensures Located(p, []) == []
  {
  }

  // --------------------------------------------------------------------- locality

  lemma {:induction false} BodyEndIsLocal(p: string, q: string, j: nat, s: nat, e: nat)
    requires BodyEnd(p, j) == Some(e) && s + (e - j) <= |q| && p[j..e] == q[s..s + (e - j)]
    ensures BodyEnd(q, s) == Some(s + (e - j))
  {
    hide BodyEnd;
    BodyEndIsFirst(p, j, e);
    BodyEndIsFirst(q, s, s + (e - j));
    var n := e - j;
    assert forall k :: 0 <= k < n ==> p[j..e][k] == p[j + k] && q[s..s + n][k] == q[s + k];
    forall k | s <= k < s + n - 3 ensures !LineBreak(q[k]) && !ChecksumAt(q, k) {
      var i := k - s;
      assert p[j + i] == q[s + i] && p[j + i + 1] == q[s + i + 1] && p[j + i + 2] == q[s + i + 2];
      assert !LineBreak(p[j + i]) && !ChecksumAt(p, j + i);
    }
    assert p[j + n - 3] == q[s + n - 3] && p[j + n - 2] == q[s + n - 2] && p[j + n - 1] == q[s + n - 1];
  }

  /** Whether there is a match depends on the matched text alone. */
  lemma MatchIsLocal(p: string, q: string, i: nat, s: nat, e: nat, includeVdo: bool)
    requires MatchAt(p, i, includeVdo) == Some(e) && s + (e - i) <= |q| && p[i..e] == q[s..s + (e - i)]
    ensures MatchAt(q, s, includeVdo) == Some(s + (e - i))
  {
    hide BodyEnd;
    var n := e - i;
    assert forall k :: 0 <= k < n ==> p[i..e][k] == p[i + k] && q[s..s + n][k] == q[s + k];
    assert p[i] == q[s] && p[i + 1] == q[s + 1] && p[i + 2] == q[s + 2] && p[i + 3] == q[s + 3];
    assert p[i + 4] == q[s + 4] && p[i + 5] == q[s + 5] && p[i + 6] == q[s + 6];
    assert p[i + 7..e] == q[s + 7..s + n] by {
      assert p[i + 7..e] == p[i..e][7..] && q[s + 7..s + n] == q[s..s + n][7..];
    }
    BodyEndIsLocal(p, q, i + 7, s + 7, e);
  }

  /** A text that is one whole match, as the scanner returns it. */
  predicate WholeMatch(line: string, includeVdo: bool) {
    MatchAt(line, 0, includeVdo) == Some(|line|)
  }

  /** The text of every span the scanner returns is one whole match. */
  lemma ScannedLines(p: string, from: nat, includeVdo: bool, k: nat)
    requires k < |Spans(p, from, includeVdo)|
    ensures var s := Spans(p, from, includeVdo)[k]; s.start <= s.end <= |p| && WholeMatch(p[s.start..s.end], includeVdo)
  {
    hide Spans;
    ScanFindsAll(p, from, includeVdo);
    var s := Spans(p, from, includeVdo)[k];
    MatchIsLocal(p, p[s.start..s.end], s.start, 0, s.end, includeVdo);
  }

  lemma {:induction false} NothingToFind(p: string, from: nat, includeVdo: bool)
    requires forall i :: from <= i < |p| ==> p[i] != '!'
    ensures Spans(p, from, includeVdo) == []
    decreases |p| - from
  {
    if from < |p| { NothingToFind(p, from + 1, includeVdo); }
  }

  lemma {:induction false} SkipsTo(p: string, from: nat, goal: nat, includeVdo: bool)
    requires from <= goal <= |p| && forall i :: from <= i < goal ==> p[i] != '!'
    ensures Spans(p, from, includeVdo) == Spans(p, goal, includeVdo)
    decreases goal - from
  {
    if from < goal { SkipsTo(p, from + 1, goal, includeVdo); }
  }

  /** One line between texts without exclamation mark is found once, and nothing else. */
  lemma OneLineIsFound(before: string, line: string, after: string, includeVdo: bool)
    requires WholeMatch(line, includeVdo)
    requires (forall i :: 0 <= i < |before| ==> before[i] != '!') && (forall i :: 0 <= i < |after| ==> after[i] != '!')
    ensures Spans(before + line + after, 0, includeVdo) == [Span(|before|, |before| + |line|)]
  {
    hide MatchAt, Spans;
    var p := before + line + after;
    var (b, e) := (|before|, |before| + |line|);
    MatchNeedsRoom(line, includeVdo);
    assert line[0..|line|] == line && p[b..e] == line;
    MatchIsLocal(line, p, 0, b, |line|, includeVdo);
    SkipsTo(p, 0, b, includeVdo);
    NothingToFind(p, e, includeVdo);
    FirstSpan(p, b, e, includeVdo);
  }

  lemma FirstSpan(p: string, from: nat, e: nat, includeVdo: bool)
    requires MatchAt(p, from, includeVdo) == Some(e)
    ensures Spans(p, from, includeVdo) == [Span(from, e)] + Spans(p, e, includeVdo)
  {
    hide BodyEnd;
  }

  lemma MatchNeedsRoom(line: string, includeVdo: bool)
    requires WholeMatch(line, includeVdo)
    ensures |line| >= 10
  {
  }
}
