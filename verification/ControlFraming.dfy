/**
 The request framing of the routing control socket
 (core/routing_control_unix.py): newline-terminated frames out of a stream that
 arrives in chunks of any size.
 */
module ControlFraming {
  import opened Common
  import opened Text

  const READ_CHUNK_SIZE := 65_536

  /** A byte stream; `sizes` tells how much each read gets. */
  class Reader {
    var pending: string
    var sizes: seq<nat>

    constructor (stream: string, sizes: seq<nat>)
      ensures pending == stream
    {
      pending, this.sizes := stream, sizes;
    }

    /** At least one and at most `limit` bytes, or nothing at the end of the stream. */
    method Read(limit: nat) returns (chunk: string)
      requires limit >= 1
      modifies this
      ensures old(pending) == chunk + pending && |chunk| <= limit && (chunk == "" <==> old(pending) == "")
    {
      var size := if sizes == [] then limit else sizes[0];
      sizes := if sizes == [] then [] else sizes[1..];
      var n := Min(Max(1, Min(size, limit)), |pending|);
      chunk, pending := pending[..n], pending[n..];
    }
  }

  datatype End = Closed | FrameTooLarge | ResponseFailed

  datatype Service = Service(frames: seq<string>, end: End)

  function After(frame: string, rest: Service): Service {
    Service([frame] + rest.frames, rest.end)
  }

  /**
   What becomes of the newline-separated pieces of a whole stream: all are
   handled, a non-empty unterminated tail too, up to the first that is too long
   or whose response fails.  `k` counts the frames handled before.
   */
  function Serve(pieces: seq<string>, max: nat, succeeds: nat -> bool, k: nat): Service {
    if pieces == [] then Service([], Closed)
    else if |pieces[0]| > max then Service([], FrameTooLarge)
    else if |pieces| == 1 then Service(if pieces[0] == "" then [] else pieces, Closed)
    else if !succeeds(k) then Service([pieces[0]], ResponseFailed)
    else After(pieces[0], Serve(pieces[1..], max, succeeds, k + 1))
  }

  /** `buffer.find`. */
  function NewlineAt(s: string): (p: nat)
    ensures p <= |s| && (p < |s| ==> s[p] == '\n') && Free(s[..p], '\n')
  {
    if s == [] || s[0] == '\n' then 0
    else
      var p := 1 + NewlineAt(s[1..]);
      assert forall i :: 0 < i < p ==> s[..p][i] == s[1..][..p - 1][i - 1];
      p
  }

  lemma FirstPiece(buffer: string, pending: string)
    requires NewlineAt(buffer) < |buffer|
    ensures var p := NewlineAt(buffer);
            Split(buffer + pending, '\n') == [buffer[..p]] + Split(buffer[p + 1..] + pending, '\n')
  {
    var p := NewlineAt(buffer);
    assert buffer + pending == buffer[..p] + ['\n'] + (buffer[p + 1..] + pending);
    SplitHead(buffer[..p], '\n', buffer[p + 1..] + pending);
  }

  lemma {:induction false} NoNewlineYet(buffer: string, pending: string)
    requires Free(buffer, '\n')
    ensures |Split(buffer + pending, '\n')[0]| >= |buffer|
  {
    if buffer != [] {
      assert (buffer + pending)[1..] == buffer[1..] + pending;
      assert forall i :: 0 <= i < |buffer[1..]| ==> buffer[1..][i] == buffer[i + 1];
      NoNewlineYet(buffer[1..], pending);
    }
  }

  lemma Handled(frames: seq<string>, frame: string, rest: Service)
    ensures Service(frames + After(frame, rest).frames, rest.end) == Service((frames + [frame]) + rest.frames, rest.end)
  {
    assert frames + ([frame] + rest.frames) == (frames + [frame]) + rest.frames;
  }

  /** `_serve_connection`.  `peak` is the largest buffer; `succeeds(k)` tells whether frame `k` gets its response. */
  method ServeConnection(reader: Reader, max: nat, succeeds: nat -> bool) returns (service: Service, peak: nat)
    requires max >= 1
    modifies reader
    ensures service == Serve(Split(old(reader.pending), '\n'), max, succeeds, 0)
    ensures peak <= max + 1
  {
    hide Split, NewlineAt;
    var buffer, frames := "", [];
    ghost var stream := reader.pending;
    peak := 0;
    assert buffer + reader.pending == stream;
    Empty(Serve(Split(stream, '\n'), max, succeeds, 0));
    while true
      invariant |buffer| <= peak <= max + 1
      invariant var rest := Serve(Split(buffer + reader.pending, '\n'), max, succeeds, |frames|);
                Serve(Split(stream, '\n'), max, succeeds, 0) == Service(frames + rest.frames, rest.end)
      decreases 2 * |reader.pending| + |buffer|
    {
      var newline := NewlineAt(buffer);
      if newline < |buffer| {
        FirstPiece(buffer, reader.pending);
        var frame := buffer[..newline];
        buffer := buffer[newline + 1..];
        ghost var pieces := Split(buffer + reader.pending, '\n');
        assert ([frame] + pieces)[1..] == pieces;
        if |frame| > max {
          return Service(frames, FrameTooLarge), peak;
        }
        Handled(frames, frame, Serve(pieces, max, succeeds, |frames| + 1));
        frames := frames + [frame];
        if !succeeds(|frames| - 1) {
          return Service(frames, ResponseFailed), peak;
        }
        continue;
      }
      assert Free(buffer, '\n') by { assert buffer[..newline] == buffer; }
      if |buffer| > max {
        NoNewlineYet(buffer, reader.pending);
        assert frames + [] == frames;
        return Service(frames, FrameTooLarge), peak;
      }
      ghost var before := reader.pending;
      var chunk := reader.Read(Min(READ_CHUNK_SIZE, max + 1 - |buffer|));
      if chunk == "" {
        assert buffer + before == buffer;
        SplitHead(buffer, '\n', "");
        assert frames + [] == frames;
        if buffer != "" {
          frames := frames + [buffer];
        }
        return Service(frames, Closed), peak;
      }
      assert (buffer + chunk) + reader.pending == buffer + before;
      buffer := buffer + chunk;
      peak := Max(peak, |buffer|);
    }
  }

  lemma Empty(s: Service)
    ensures Service([] + s.frames, s.end) == s
  {
    assert [] + s.frames == s.frames;
  }

  predicate Succeeded(succeeds: nat -> bool, n: nat) {
    succeeds(n)
  }

  /** Frame `n` is the one whose response failed. */
  predicate FailedLast(s: Service, k: nat, n: nat) {
    s.end == ResponseFailed && n == k + |s.frames| - 1
  }

  /**
   The frames are the pieces before the first that is too long, up to the first
   whose response fails, and up to an empty tail.
   */
  ghost predicate ServedAs(s: Service, pieces: seq<string>, max: nat, succeeds: nat -> bool, k: nat) {
    && pieces != [] && s.frames <= pieces
    && (forall i :: 0 <= i < |s.frames| ==> |pieces[i]| <= max)
    && (forall n: nat :: k <= n < k + |s.frames| && n < k + |pieces| - 1 && !FailedLast(s, k, n) ==> Succeeded(succeeds, n))
    && (s.end == ResponseFailed ==> 0 < |s.frames| < |pieces| && !Succeeded(succeeds, k + |s.frames| - 1))
    && (s.end == FrameTooLarge ==> |s.frames| < |pieces| && |pieces[|s.frames|]| > max)
    && (s.end == Closed ==> s.frames == if pieces[|pieces| - 1] == "" then pieces[..|pieces| - 1] else pieces)
  }

  lemma OneMoreServed(head: string, rest: Service, tail: seq<string>, max: nat, succeeds: nat -> bool, k: nat)
    requires |head| <= max && Succeeded(succeeds, k) && ServedAs(rest, tail, max, succeeds, k + 1)
    ensures ServedAs(After(head, rest), [head] + tail, max, succeeds, k)
  {
    hide Succeeded;
    var pieces := [head] + tail;
    var s := After(head, rest);
    assert pieces[|pieces| - 1] == tail[|tail| - 1];
    assert [head] + tail[..|tail| - 1] == pieces[..|pieces| - 1];
    forall i | 0 <= i < |s.frames| ensures |pieces[i]| <= max {
      if i > 0 { assert pieces[i] == tail[i - 1]; }
    }
  }

  lemma EndsHere(pieces: seq<string>, max: nat, succeeds: nat -> bool, k: nat)
    requires pieces != [] && (|pieces[0]| > max || |pieces| == 1 || !Succeeded(succeeds, k))
    ensures ServedAs(Serve(pieces, max, succeeds, k), pieces, max, succeeds, k)
  {
    if |pieces[0]| <= max && |pieces| == 1 && pieces[0] == "" {
      assert pieces[..0] == [];
    }
  }

  lemma {:induction false} ServedPieces(pieces: seq<string>, max: nat, succeeds: nat -> bool, k: nat)
    requires pieces != []
    ensures ServedAs(Serve(pieces, max, succeeds, k), pieces, max, succeeds, k)
  {
    hide ServedAs;
    if |pieces[0]| <= max && |pieces| > 1 && Succeeded(succeeds, k) {
      var (head, tail) := (pieces[0], pieces[1..]);
      ServedPieces(tail, max, succeeds, k + 1);
      assert pieces == [head] + tail;
      OneMoreServed(head, Serve(tail, max, succeeds, k + 1), tail, max, succeeds, k);
    } else {
      EndsHere(pieces, max, succeeds, k);
    }
  }
}
