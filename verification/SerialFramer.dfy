/** `SerialLineFramer` (nmea_sproxy/input_adapters.py): lines out of bytes that arrive in chunks of any size. */
module SerialFramer {
  import opened Common

  predicate IsEnd(c: char) {
    c == '\r' || c == '\n'
  }

  function FirstEnd(s: string): (p: nat)
    ensures p <= |s| && (p < |s| ==> IsEnd(s[p])) && forall i :: 0 <= i < p ==> !IsEnd(s[i])
  {
    if s == [] || IsEnd(s[0]) then 0
    else
      var p := 1 + FirstEnd(s[1..]);
      assert forall i :: 0 < i < p ==> s[i] == s[1..][i - 1];
      p
  }

  /** How many bytes end a line: CRLF is one end. */
  function EndLength(s: string, p: nat): nat
    requires p < |s|
  {
    if s[p] == '\r' && p + 1 < |s| && s[p + 1] == '\n' then 2 else 1
  }

  /** The ended pieces of a whole stream, and what follows the last end. */
  datatype Pieces = Pieces(ended: seq<string>, rest: string)

  function SplitLines(s: string): Pieces
    decreases |s|
  {
    var p := FirstEnd(s);
    if p == |s| then Pieces([], s)
    else
      var tail := SplitLines(s[p + EndLength(s, p)..]);
      Pieces([s[..p]] + tail.ended, tail.rest)
  }

  /** The pieces that are lines. */
  function Short(pieces: seq<string>, max: nat): seq<string> {
    if pieces == [] then []
    else
      var n := |pieces| - 1;
      Short(pieces[..n], max) + if |pieces[n]| <= max then [pieces[n]] else []
  }

  function CountLong(pieces: seq<string>, max: nat): nat {
    if pieces == [] then 0
    else
      var n := |pieces| - 1;
      CountLong(pieces[..n], max) + if |pieces[n]| <= max then 0 else 1
  }

  function Lines(s: string, max: nat): seq<string> {
    Short(SplitLines(s).ended, max)
  }

  /** Longer lines, also the one still going on, each counted once. */
  function Overlong(s: string, max: nat): nat {
    CountLong(SplitLines(s).ended, max) + if |SplitLines(s).rest| > max then 1 else 0
  }

  predicate EndsWithCr(s: string) {
    s != [] && s[|s| - 1] == '\r'
  }

  lemma FirstEndIs(s: string, p: nat)
    requires p <= |s| && (p < |s| ==> IsEnd(s[p])) && forall i :: 0 <= i < p ==> !IsEnd(s[i])
    ensures FirstEnd(s) == p
  {
  }

  /** A stream with its first end at `p`. */
  lemma FirstLine(s: string, p: nat)
    requires p < |s| && IsEnd(s[p]) && forall i :: 0 <= i < p ==> !IsEnd(s[i])
    ensures var tail := SplitLines(s[p + EndLength(s, p)..]);
            SplitLines(s) == Pieces([s[..p]] + tail.ended, tail.rest)
  {
    FirstEndIs(s, p);
  }

  lemma NoEnd(s: string)
    requires forall i :: 0 <= i < |s| ==> !IsEnd(s[i])
    ensures SplitLines(s) == Pieces([], s)
  {
    FirstEndIs(s, |s|);
  }

  lemma FirstByteAfter(s: string, b: char)
    requires forall i :: 0 <= i < |s| ==> !IsEnd(s[i])
    ensures SplitLines(s + [b]) == if IsEnd(b) then Pieces([s], "") else Pieces([], s + [b])
  {
    hide SplitLines;
    var t := s + [b];
    if IsEnd(b) {
      FirstLine(t, |s|);
      NoEnd("");
      assert t[..|s|] == s && t[|s| + 1..] == "" && [s] + [] == [s];
    } else {
      NoEnd(t);
    }
  }

  /** The newline that completes a CRLF. */
  lemma CompletesCrLf(s: string)
    requires s != [] && s[|s| - 1] == '\r' && forall i :: 0 <= i < |s| - 1 ==> !IsEnd(s[i])
    ensures SplitLines(s + ['\n']) == SplitLines(s)
  {
    hide SplitLines;
    var p := |s| - 1;
    FirstLine(s, p);
    FirstLine(s + ['\n'], p);
    assert s[p + 1..] == "" && (s + ['\n'])[p + 2..] == "" && (s + ['\n'])[..p] == s[..p];
  }

  lemma Prepended(piece: string, tail: Pieces)
    ensures [piece] + (tail.ended + [tail.rest]) == ([piece] + tail.ended) + [tail.rest]
  {
  }

  /** One more byte. */
  lemma {:induction false} OneMoreByte(s: string, b: char)
    ensures SplitLines(s + [b])
            == (if EndsWithCr(s) && b == '\n' then SplitLines(s)
                else if IsEnd(b) then Pieces(SplitLines(s).ended + [SplitLines(s).rest], "")
                else Pieces(SplitLines(s).ended, SplitLines(s).rest + [b]))
    decreases |s|
  {
    hide SplitLines, FirstEnd;
    var t := s + [b];
    var p := FirstEnd(s);
    if p == |s| {
      NoEnd(s);
      FirstByteAfter(s, b);
      assert [] + [s] == [s];
    } else if p + 1 == |s| && s[p] == '\r' && b == '\n' {
      CompletesCrLf(s);
    } else {
      var q := p + EndLength(s, p);
      FirstLine(s, p);
      FirstLine(t, p);
      assert t[..p] == s[..p] && t[q..] == s[q..] + [b];
      OneMoreByte(s[q..], b);
      Prepended(s[..p], SplitLines(s[q..]));
      assert q < |s| ==> s[q..][|s| - q - 1] == s[|s| - 1];
      assert q == |s| && b == '\n' ==> !EndsWithCr(s);
    }
  }

  lemma OneMorePiece(pieces: seq<string>, piece: string, max: nat)
    ensures Short(pieces + [piece], max) == Short(pieces, max) + if |piece| <= max then [piece] else []
    ensures CountLong(pieces + [piece], max) == CountLong(pieces, max) + if |piece| <= max then 0 else 1
  {
    assert (pieces + [piece])[..|pieces|] == pieces;
  }

  /** The pieces are the stream without its ends: none has one inside. */
  lemma {:induction false} PiecesHaveNoEnds(s: string, i: nat, j: nat)
    ensures i < |SplitLines(s).ended| && j < |SplitLines(s).ended[i]| ==> !IsEnd(SplitLines(s).ended[i][j])
    ensures j < |SplitLines(s).rest| ==> !IsEnd(SplitLines(s).rest[j])
    decreases |s|
  {
    var p := FirstEnd(s);
    if p < |s| { PiecesHaveNoEnds(s[p + EndLength(s, p)..], if i > 0 then i - 1 else 0, j); }
  }

  /** Pieces with their line ends put back. */
  function Glued(ended: seq<string>, ends: seq<string>, rest: string): string
    requires |ended| == |ends|
  {
    if ended == [] then rest else ended[0] + ends[0] + Glued(ended[1..], ends[1..], rest)
  }

  predicate IsLineEnd(s: string) {
    s == "\r" || s == "\n" || s == "\r\n"
  }

  /** The split loses nothing: the pieces, each with the CR, LF or CRLF that ended it, are the stream. */
  lemma {:induction false} PiecesAreTheStream(s: string) returns (ends: seq<string>)
    ensures |ends| == |SplitLines(s).ended| && forall i :: 0 <= i < |ends| ==> IsLineEnd(ends[i])
    ensures Glued(SplitLines(s).ended, ends, SplitLines(s).rest) == s
    decreases |s|
  {
    hide SplitLines, FirstEnd;
    var p := FirstEnd(s);
    ends := [];
    if p == |s| {
      NoEnd(s);
    } else {
      var q := p + EndLength(s, p);
      FirstLine(s, p);
      var tail := SplitLines(s[q..]);
      var rest := PiecesAreTheStream(s[q..]);
      ends := [s[p..q]] + rest;
      assert s == s[..p] + s[p..q] + s[q..];
      assert ([s[..p]] + tail.ended)[1..] == tail.ended && ends[1..] == rest;
    }
  }

  class SerialLineFramer {
    const maxLineBytes: nat
    var buffer: string
    var discardingOverlong: bool
    var previousWasCr: bool
    /** Everything fed since the last reset. */
    ghost var seen: string

    ghost predicate Valid()
      reads this
    {
      var rest := SplitLines(seen).rest;
      && maxLineBytes >= 1
      && buffer == (if |rest| > maxLineBytes then "" else rest)
      && discardingOverlong == (|rest| > maxLineBytes)
      && previousWasCr == EndsWithCr(seen)
    }

    constructor (maxLineBytes: nat)
      requires maxLineBytes >= 1
      ensures Valid() && seen == "" && this.maxLineBytes == maxLineBytes
    {
      this.maxLineBytes := maxLineBytes;
      buffer, discardingOverlong, previousWasCr, seen := "", false, false, "";
    }

    method Reset()
      requires Valid()
      modifies this
      ensures Valid() && seen == ""
    {
      buffer, discardingOverlong, previousWasCr, seen := "", false, false, "";
    }

    /** `_finish_line`. */
    method FinishLine() returns (line: Option<string>)
      modifies this`buffer, this`discardingOverlong
      ensures buffer == "" && !discardingOverlong
      ensures line == if old(discardingOverlong) then None else Some(old(buffer))
    {
      line := if discardingOverlong then None else Some(buffer);
      buffer, discardingOverlong := "", false;
    }

    /** The body of the loop over the bytes of a chunk. */
    method FeedByte(byte: char) returns (line: Option<string>, dropped: bool)
      requires Valid()
      modifies this
      ensures Valid() && seen == old(seen) + [byte]
      ensures Lines(seen, maxLineBytes)
              == Lines(old(seen), maxLineBytes) + if line.Some? then [line.value] else []
      ensures Overlong(seen, maxLineBytes) == Overlong(old(seen), maxLineBytes) + if dropped then 1 else 0
    {
      hide SplitLines, Short, CountLong;
      OneMoreByte(seen, byte);
      OneMorePiece(SplitLines(seen).ended, SplitLines(seen).rest, maxLineBytes);
      assert Lines(seen, maxLineBytes) + [] == Lines(seen, maxLineBytes);
      line, dropped := None, false;
      seen := seen + [byte];
      if previousWasCr {
        previousWasCr := false;
        if byte == '\n' {
          return;
        }
      }
      if byte == '\r' {
        line := FinishLine();
        previousWasCr := true;
      } else if byte == '\n' {
        line := FinishLine();
      } else if discardingOverlong {
      } else if |buffer| >= maxLineBytes {
        buffer, discardingOverlong, dropped := "", true, true;
      } else {
        buffer := buffer + [byte];
      }
    }

    /**
     `feed`.  However the stream is cut into chunks, the lines emitted so far are
     the ended pieces of the whole stream that are not too long, in order, and
     every longer one was counted once.
     */
    method Feed(chunk: string) returns (lines: seq<string>, overlongDropped: nat)
      requires Valid()
      modifies this
      ensures Valid() && seen == old(seen) + chunk && |buffer| <= maxLineBytes
      ensures Lines(seen, maxLineBytes) == Lines(old(seen), maxLineBytes) + lines
      ensures Overlong(seen, maxLineBytes) == Overlong(old(seen), maxLineBytes) + overlongDropped
    {
      hide Lines, Overlong, SplitLines;
      lines, overlongDropped := [], 0;
      assert seen + chunk[..0] == seen && Lines(seen, maxLineBytes) + [] == Lines(seen, maxLineBytes);
      for i := 0 to |chunk|
        invariant Valid() && seen == old(seen) + chunk[..i]
        invariant Lines(seen, maxLineBytes) == Lines(old(seen), maxLineBytes) + lines
        invariant Overlong(seen, maxLineBytes) == Overlong(old(seen), maxLineBytes) + overlongDropped
      {
        var line, dropped := FeedByte(chunk[i]);
        assert chunk[..i + 1] == chunk[..i] + [chunk[i]];
        if line.Some? {
          lines := lines + [line.value];
        }
        if dropped {
          overlongDropped := overlongDropped + 1;
        }
      }
      assert chunk[..|chunk|] == chunk;
    }
  }
}
