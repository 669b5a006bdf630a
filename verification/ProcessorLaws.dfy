/**
 What the data-plane processor (core/python_data_plane.py) guarantees, proved on
 the model of ProcessorModel.dfy: metadata of a completed message comes from its
 own generation only; messages go out whole; and over every run the filter
 records exactly what is sent.  What that means for the targets is in
 Repetition.dfy.
 */
module ProcessorLaws {
  import opened Common
  import opened AcceptanceLog
  import opened KeyOrder
  import opened AssemblyModel
  import opened Dedup
  import opened ProcessorModel

  // ------------------------------------------------------------- metadata of a message

  predicate HasC(gen: Generation, m: nat) {
    exists i :: 0 <= i < |gen| && gen[i].c == Some(m)
  }

  /** The header time of a completed message is the smallest valid `c` of its generation, also when that is zero. */
  lemma CompletedTime(gen: Generation, c: Settings, m: nat, wall: int)
    requires HasC(gen, m) && forall n :: HasC(gen, n) ==> m <= n
    ensures HeaderTime(CompletedStamp(gen, c), wall) == if c.preserveC then m else wall
  {
    SmallestCIsMinimum(gen);
    var i :| 0 <= i < |gen| && gen[i].c == Some(m);
    assert HasC(gen, SmallestC(gen).value);
  }

  lemma CompletedTimeWithoutC(gen: Generation, c: Settings, wall: int)
    requires forall n :: !HasC(gen, n)
    ensures HeaderTime(CompletedStamp(gen, c), wall) == wall
  {
    SmallestCIsMinimum(gen);
    if SmallestC(gen).Some? { assert HasC(gen, SmallestC(gen).value); }
  }

  /** A single sentence differs in one case: its `c` of zero is replaced by the wall clock. */
  lemma SingleTime(s: Sentence, c: Settings, wall: int)
    ensures HeaderTime(SingleStamp(s, c), wall)
            == if c.preserveC && s.c.Some? && s.c.value != 0 then s.c.value else wall
  {
  }

  predicate HasGid(gen: Generation, gid: string) {
    exists i :: 0 <= i < |gen| && GidOf(gen[i]) == Some(gid)
  }

  lemma GidsAre(gen: Generation, gid: string)
    ensures gid in Gids(gen) <==> HasGid(gen, gid)
  {
    if gid in Gids(gen) {
      var s :| s in gen && GidOf(s) == Some(gid);
      assert GidOf(gen[IndexOf(gen, s)]) == Some(gid);
    }
  }

  /** The group id is kept exactly if the generation agrees on one; otherwise a new one is made. */
  lemma CompletedGroupId(gen: Generation, made: string, c: Settings)
    ensures forall gid :: c.preserveGid && HasGid(gen, gid) && (forall other :: HasGid(gen, other) ==> other == gid) ==>
              CompletedGid(gen, made, c) == gid
    ensures (!c.preserveGid || !(exists gid :: HasGid(gen, gid) && forall other :: HasGid(gen, other) ==> other == gid)) ==>
              CompletedGid(gen, made, c) == made
  {
    forall gid ensures gid in Gids(gen) <==> HasGid(gen, gid) { GidsAre(gen, gid); }
    forall gid | HasGid(gen, gid) && forall other :: HasGid(gen, other) ==> other == gid ensures Gids(gen) == {gid} {
    }
    if |Gids(gen)| == 1 {
      var gid := Only(Gids(gen));
      forall other | HasGid(gen, other) ensures other == gid { OnlyOne(Gids(gen), gid, other); }
      assert HasGid(gen, gid);
    }
  }

  /**
   A generation that has ended is forgotten: after its key was discarded, or its
   message completed, nothing of it is left, and a new generation of the key
   starts with the present sentence alone.
   */
  lemma EndedGenerationsAreForgotten(st: State, a: Arriving, frame: Frame, snapshot: Snapshot, c: Settings)
    requires ValidLimits(c.limits) && st.gens.Keys == st.groups.Keys
    requires Lookups(snapshot) <= |a.readings.ticks|
    ensures var o := Feed(st.groups, a.sentence.fragment, a.readings.now, c.limits).1;
            var next := ProcessOne(st, a, frame, snapshot, c).0;
            && next.gens.Keys == next.groups.Keys
            && (forall k :: k in o.discarded && k in next.gens ==> o.key == Some(k) && next.gens[k] == [a.sentence])
            && (o.status == Complete ==> o.key.value !in next.gens)
            && (forall k :: k in next.gens && k !in o.discarded ==>
                  next.gens[k] == Arrivals(st.gens, k) + (if o.key == Some(k) then [a.sentence] else []))
  {
    KeysFollowGroups(st, a, frame, snapshot, c);
    RespondIsProcessOne(st, a, frame, snapshot, c);
    FeedShapes(st, a, c);
    hide Feed, ProcessOne, Emit, NextGens, LiveGeneration, CompletedStamp, CompletedGid, LatestS;
  }

  /** The keys of all three contexts are keys of live groups. */
  lemma ContextsWithinGroups(st: State, c: Settings)
    requires st.gens.Keys == st.groups.Keys
    ensures SContext(st.gens).Keys <= st.groups.Keys
    ensures CContext(st.gens, c).Keys <= st.groups.Keys
    ensures GidContext(st.gens, c).Keys <= st.groups.Keys
  {
  }

  // ------------------------------------------------------------------ whole messages

  /** The parts of a message are all its lines in order, to one common list of targets. */
  lemma PartsStayTogether(
    lines: seq<string>, stamp: Stamp, gid: string, s: string, targets: seq<nat>, wall: int, tagSingle: bool)
    ensures var outputs := MessageParts(lines, stamp, gid, s, targets, wall, tagSingle);
            && |outputs| == |lines|
            && (forall i :: 0 <= i < |lines| ==>
                  && outputs[i].line == lines[i] && outputs[i].targets == targets && outputs[i].first == (i == 0)
                  && (|lines| > 1 ==> outputs[i].g == Some((i + 1, |lines|, gid))))
  {
  }

  /** A completed message has as many lines as its group declared. */
  lemma CompleteHasAllLines(g: Groups, f: Fragment, clock: int, now: int, l: Limits)
    requires ValidLimits(l) && Sane(g, clock) && clock <= now && ValidFragment(f) && f.key.total >= 2
    requires FeedPart(g, f, now, l).1.status == Complete
    ensures |FeedPart(g, f, now, l).1.sentences| == f.key.total
  {
    OwnOutcome(g, f, now, l);
    hide FeedPart;
    var p := AssemblyModel.Generation(g, f.key, now, l);
    assert f.key in g ==> SaneParts(f.key, g[f.key], clock);
    var fragments := p.fragments[f.ordinal := f.text];
    assert fragments.Keys == p.fragments.Keys + {f.ordinal};
    assert |fragments.Keys| == |p.fragments.Keys| + 1 == |p.fragments| + 1;
    CountingIsEnough(fragments.Keys, f.key.total);
  }

  // -------------------------------------------------------------------- no repetition

  /** What a batch of outputs is recorded as in the filter: one key per target, or one for all. */
  function Recorded(outputs: seq<Output>, lines: seq<string>, mode: Mode): seq<DedupKey> {
    if outputs == [] then []
    else if mode == Global then [DedupKey(None, lines)]
    else ScopedKeys(outputs[0].targets, lines)
  }

  function ScopedKeys(targets: seq<nat>, lines: seq<string>): seq<DedupKey> {
    seq(|targets|, i requires 0 <= i < |targets| => DedupKey(Some(targets[i]), lines))
  }

  function LinesOf(outputs: seq<Output>): seq<string> {
    seq(|outputs|, i requires 0 <= i < |outputs| => outputs[i].line)
  }

  function KeysOf(log: Log<DedupKey>): seq<DedupKey> {
    seq(|log|, i requires 0 <= i < |log| => log[i].key)
  }

  /** Every target that is found eligible is recorded, in order, and no other. */
  lemma {:induction false} EligibleIsRecorded(
    f: Filter, message: seq<string>, targets: seq<nat>, ticks: seq<int>, c: Settings)
    requires Sound(f, c.ttl, c.cap) && |targets| <= |ticks| && Rising(f.clock, ticks)
    ensures var (after, eligible) := Eligible(f, message, targets, ticks, c);
            && Sound(after, c.ttl, c.cap) && after.clock <= Last(f.clock, ticks)
            && KeysOf(after.log) == KeysOf(f.log) + ScopedKeys(eligible, message)
    decreases |targets|
  {
    LastIsLate(f.clock, ticks);
    if targets != [] {
      var key := DedupKey(Some(targets[0]), message);
      OfferedRefinesLog(f, key, ticks[0], c.ttl, c.cap);
      var next := Offered(f, key, ticks[0], c.ttl, c.cap);
      EligibleIsRecorded(next, message, targets[1..], ticks[1..], c);
      var others := Eligible(next, message, targets[1..], ticks[1..], c).1;
      if !Blocks(f.log, key, ticks[0], c.ttl, c.cap) {
        assert KeysOf(next.log) == KeysOf(f.log) + [key];
        assert ScopedKeys([targets[0]] + others, message) == [key] + ScopedKeys(others, message);
      }
    }
  }

  lemma {:induction false} LastIsLate(clock: int, ticks: seq<int>)
    requires Rising(clock, ticks)
    ensures clock <= Last(clock, ticks)
    ensures |ticks| > 0 ==> ticks[0] <= Last(clock, ticks) && Last(ticks[0], ticks[1..]) == Last(clock, ticks)
    decreases |ticks|
  {
    if |ticks| > 1 { LastIsLate(ticks[0], ticks[1..]); }
  }

  /** A message is sent exactly to those it is recorded for. */
  lemma EmissionIsRecorded(
    f: Filter, lines: seq<string>, stamp: Stamp, gid: string, s: Option<string>,
    frame: Frame, snapshot: Snapshot, r: Readings, c: Settings)
    requires Sound(f, c.ttl, c.cap) && Lookups(snapshot) <= |r.ticks| && Rising(f.clock, r.ticks) && lines != []
    ensures var (after, outputs) := Emit(f, lines, stamp, gid, s, frame, snapshot, r, c);
            && Sound(after, c.ttl, c.cap) && after.clock <= Last(f.clock, r.ticks)
            && KeysOf(after.log) == KeysOf(f.log) + Recorded(outputs, lines, snapshot.mode)
            && (outputs != [] ==> LinesOf(outputs) == lines)
  {
    LastIsLate(f.clock, r.ticks);
    match snapshot.mode
    case Global =>
      var key := DedupKey(None, lines);
      OfferedRefinesLog(f, key, r.ticks[0], c.ttl, c.cap);
      assert !Blocks(f.log, key, r.ticks[0], c.ttl, c.cap) ==>
               KeysOf(f.log + [Entry(key, r.ticks[0])]) == KeysOf(f.log) + [key];
    case PerTarget =>
      EligibleIsRecorded(f, lines, snapshot.targets, r.ticks, c);
  }

  /** One sentence of a run. */
  datatype Turn = Turn(a: Arriving, frame: Frame, snapshot: Snapshot)

  /** Clock readings for a whole run. */
  predicate Timely(turns: seq<Turn>, clock: int, tick: int)
    decreases |turns|
  {
    turns == [] ||
    (var r := turns[0].a.readings;
     && Lookups(turns[0].snapshot) <= |r.ticks| && clock <= r.now && Rising(tick, r.ticks)
     && Timely(turns[1..], r.now, Last(tick, r.ticks)))
  }

  lemma {:induction false} TimelyEarlier(turns: seq<Turn>, clock: int, tick: int, earlier: int)
    requires Timely(turns, clock, tick) && earlier <= tick
    ensures Timely(turns, clock, earlier)
    decreases |turns|
  {
    if turns != [] {
      var ticks := turns[0].a.readings.ticks;
      assert Rising(earlier, ticks) && Last(earlier, ticks) <= Last(tick, ticks);
      TimelyEarlier(turns[1..], turns[0].a.readings.now, Last(tick, ticks), Last(earlier, ticks));
    }
  }

  /** The state after a run and everything its outputs are recorded as, in order. */
  ghost function Run(st: State, turns: seq<Turn>, c: Settings): (State, seq<DedupKey>)
    decreases |turns|
  {
    if turns == [] || Lookups(turns[0].snapshot) > |turns[0].a.readings.ticks| then (st, []) else
    var t := turns[0];
    var (mid, outputs) := ProcessOne(st, t.a, t.frame, t.snapshot, c);
    var (end, rest) := Run(mid, turns[1..], c);
    (end, Recorded(outputs, LinesOf(outputs), t.snapshot.mode) + rest)
  }

  /** What every sentence keeps. */
  ghost predicate Good(st: State, clock: int, tick: int, c: Settings) {
    && ValidLimits(c.limits) && ValidCapacity(c.cap)
    && st.gens.Keys == st.groups.Keys && Sane(st.groups, clock)
    && Sound(st.filter, c.ttl, c.cap) && st.filter.clock <= tick
  }

  lemma NothingSent(log: Log<DedupKey>, mode: Mode)
    ensures KeysOf(log) == KeysOf(log) + Recorded([], LinesOf([]), mode)
  {
  }

  lemma FeedSane(st: State, a: Arriving, clock: int, c: Settings)
    requires ValidLimits(c.limits) && Sane(st.groups, clock) && clock <= a.readings.now
    ensures var (next, o) := Feed(st.groups, a.sentence.fragment, a.readings.now, c.limits);
            && Sane(next, a.readings.now)
            && (o.status == Single || o.status == Complete ==> o.sentences != [])
  {
    var f := a.sentence.fragment;
    if Shortcut(f, c.limits).None? {
      FeedKeepsSane(st.groups, f.value, clock, a.readings.now, c.limits);
      if FeedPart(st.groups, f.value, a.readings.now, c.limits).1.status == Complete {
        CompleteHasAllLines(st.groups, f.value, clock, a.readings.now, c.limits);
      }
      hide FeedPart;
    }
  }

  lemma TurnKeepsGood(st: State, t: Turn, clock: int, tick: int, c: Settings)
    requires Good(st, clock, tick, c)
    requires var r := t.a.readings;
             Lookups(t.snapshot) <= |r.ticks| && clock <= r.now && Rising(st.filter.clock, r.ticks) && Rising(tick, r.ticks)
    ensures var (next, outputs) := ProcessOne(st, t.a, t.frame, t.snapshot, c);
            && Good(next, t.a.readings.now, Last(tick, t.a.readings.ticks), c)
            && KeysOf(next.filter.log) == KeysOf(st.filter.log) + Recorded(outputs, LinesOf(outputs), t.snapshot.mode)
  {
    var (s, r) := (t.a.sentence, t.a.readings);
    KeysFollowGroups(st, t.a, t.frame, t.snapshot, c);
    FeedSane(st, t.a, clock, c);
    LastIsLate(tick, r.ticks);
    LastIsLate(st.filter.clock, r.ticks);
    NothingSent(st.filter.log, t.snapshot.mode);
    var (next, o) := Feed(st.groups, s.fragment, r.now, c.limits);
    hide Feed, Emit, NextGens, KeysOf, Recorded, LinesOf, Sound;
    if o.status == Single {
      EmissionIsRecorded(st.filter, o.sentences, SingleStamp(s, c), SingleGid(s, r.gid, c), s.s, t.frame, t.snapshot, r, c);
    } else if o.status == Complete && o.key.Some? {
      var was := LiveGeneration(st, o.key.value, r.now, c);
      EmissionIsRecorded(
        st.filter, o.sentences, CompletedStamp(was + [s], c), CompletedGid(was + [s], r.gid, c), Or(s.s, LatestS(was)),
        t.frame, t.snapshot, r, c);
    }
  }

  lemma GoodReadings(st: State, clock: int, tick: int, c: Settings, ticks: seq<int>)
    requires Good(st, clock, tick, c) && Rising(tick, ticks)
    ensures Rising(st.filter.clock, ticks)
  {
  }

  lemma RunUnfolds(st: State, turns: seq<Turn>, c: Settings)
    requires turns != [] && Lookups(turns[0].snapshot) <= |turns[0].a.readings.ticks|
    ensures var t := turns[0];
            var (mid, outputs) := ProcessOne(st, t.a, t.frame, t.snapshot, c);
            var (end, rest) := Run(mid, turns[1..], c);
            Run(st, turns, c) == (end, Recorded(outputs, LinesOf(outputs), t.snapshot.mode) + rest)
  {
    hide ProcessOne;
  }

  lemma Joined(a: seq<DedupKey>, b: seq<DedupKey>, d: seq<DedupKey>)
    ensures (a + b) + d == a + (b + d) && a + [] == a
  {
  }

  lemma {:induction false} EveryRunIsRecorded(st: State, turns: seq<Turn>, clock: int, tick: int, c: Settings)
    returns (late: int, lateTick: int)
    requires Good(st, clock, tick, c) && Timely(turns, clock, tick)
    ensures var (end, sent) := Run(st, turns, c);
            Good(end, late, lateTick, c) && KeysOf(end.filter.log) == KeysOf(st.filter.log) + sent
    decreases |turns|
  {
    late, lateTick := clock, tick;
    if turns == [] {
      Joined(KeysOf(st.filter.log), [], []);
      return;
    }
    var (t, r) := (turns[0], turns[0].a.readings);
    RunUnfolds(st, turns, c);
    GoodReadings(st, clock, tick, c, r.ticks);
    hide ProcessOne, Good, KeysOf, Recorded, LinesOf, Run;
    TurnKeepsGood(st, t, clock, tick, c);
    var (mid, outputs) := ProcessOne(st, t.a, t.frame, t.snapshot, c);
    late, lateTick := EveryRunIsRecorded(mid, turns[1..], r.now, Last(tick, r.ticks), c);
    Joined(KeysOf(st.filter.log), Recorded(outputs, LinesOf(outputs), t.snapshot.mode), Run(mid, turns[1..], c).1);
  }

  lemma GoodStart(now: int, c: Settings)
    requires ValidLimits(c.limits) && ValidCapacity(c.cap)
    ensures Good(State(map[], map[], Empty(now)), now, now, c) && KeysOf(Empty(now).log) == []
  {
    EmptyIsSound<DedupKey>(now, c.ttl, c.cap);
  }
}
