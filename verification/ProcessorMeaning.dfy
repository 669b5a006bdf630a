/**
 What the outputs of the data-plane processor (core/python_data_plane.py) carry:
 time, group id, source name and targets of every message it sends, said on the
 arrivals of the message's own generation, the configuration and the log of the
 duplicate filter.
 */
module ProcessorMeaning {
  import opened Common
  import opened AcceptanceLog
  import opened KeyOrder
  import opened AssemblyModel
  import opened Dedup
  import opened ProcessorModel
  import opened ProcessorLaws

  // ---------------------------------------------------------------------- source names

  /** What is left of a name: without spaces around it, at most fifteen characters, unsafe ones replaced. */
  predicate Cleaned(name: string, core: string, result: string) {
    && |result| == Min(|core|, 15)
    && (forall i :: 0 <= i < |result| ==> result[i] == if SafeChar(core[i]) then core[i] else '_')
    && (core != "" ==> !ProcessorModel.Spaced(core[0]) && !ProcessorModel.Spaced(core[|core| - 1]))
    && (exists from: nat :: from + |core| <= |name| && StandsAt(name, core, from))
  }

  /** The text is there, with only spaces before and after it. */
  predicate StandsAt(name: string, core: string, from: nat)
    requires from + |core| <= |name|
  {
    name[from..from + |core|] == core && AllSpaced(name[..from]) && AllSpaced(name[from + |core|..])
  }

  predicate AllSpaced(s: string) {
    forall i :: 0 <= i < |s| ==> ProcessorModel.Spaced(s[i])
  }

  lemma SpaceInFront(s: string, core: string, from: nat)
    requires s != "" && ProcessorModel.Spaced(s[0]) && from + |core| < |s| && StandsAt(s[1..], core, from)
    ensures StandsAt(s, core, from + 1)
  {
    assert s[from + 1..from + 1 + |core|] == s[1..][from..from + |core|];
    assert s[from + 1 + |core|..] == s[1..][from + |core|..];
    assert s[..from + 1] == [s[0]] + s[1..][..from];
  }

  lemma SpaceBehind(s: string, core: string, from: nat)
    requires s != "" && ProcessorModel.Spaced(s[|s| - 1]) && from + |core| < |s| && StandsAt(s[..|s| - 1], core, from)
    ensures StandsAt(s, core, from)
  {
    var init := s[..|s| - 1];
    assert s[from..from + |core|] == init[from..from + |core|] && s[..from] == init[..from];
    assert s[from + |core|..] == init[from + |core|..] + [s[|s| - 1]];
  }

  lemma {:induction false} StripMeans(s: string) returns (from: nat)
    ensures var core := Strip(s);
            && from + |core| <= |s| && StandsAt(s, core, from)
            && (core != "" ==> !ProcessorModel.Spaced(core[0]) && !ProcessorModel.Spaced(core[|core| - 1]))
    decreases |s|
  {
    hide AllSpaced, StandsAt;
    if s != "" && ProcessorModel.Spaced(s[0]) {
      var before := StripMeans(s[1..]);
      from := before + 1;
      SpaceInFront(s, Strip(s[1..]), before);
    } else if s != "" && ProcessorModel.Spaced(s[|s| - 1]) {
      from := StripMeans(s[..|s| - 1]);
      SpaceBehind(s, Strip(s[..|s| - 1]), from);
    } else {
      from := 0;
      StandsAlone(s);
    }
  }

  lemma StandsAlone(s: string)
    ensures StandsAt(s, s, 0)
  {
    assert s[..0] == "" && s[|s|..] == "" && s[0..|s|] == s;
  }

  lemma SanitizeMeans(name: string) returns (core: string)
    ensures Cleaned(name, core, Sanitize(name))
  {
    core := Strip(name);
    var from := StripMeans(name);
    assert StandsAt(name, core, from);
  }

  /** A value that is there and not empty. */
  predicate Given(s: Option<string>) {
    s.Some? && s.value != ""
  }

  /**
   The source of a message: the station of this mixer; else the alias of the
   input, or without one the `s` of the message, unless that is ANONYMOUS; else the
   `s` in front of the frame; else the address; else ANONYMOUS.
   */
  function SourceOf(
    station: Option<string>, alias: Option<string>, incoming: Option<string>, leading: Option<string>, ip: Option<string>): string
  {
    if Given(station) then Sanitize(station.value)
    else if Given(alias) && alias.value != "ANONYMOUS" then Sanitize(alias.value)
    else if !Given(alias) && Given(incoming) && incoming.value != "ANONYMOUS" then Sanitize(incoming.value)
    else if Given(leading) then Sanitize(leading.value)
    else if Given(ip) then Sanitize(ip.value)
    else "ANONYMOUS"
  }

  // ---------------------------------------------------------------------------- outputs

  /** All lines of one message, in order, under one time, group id, source and list of targets. */
  predicate SentAs(
    outputs: seq<Output>, lines: seq<string>, time: int, gid: string, source: string, targets: seq<nat>, tagSingle: bool)
  {
    && |outputs| == |lines|
    && forall i :: 0 <= i < |lines| ==>
         && outputs[i].line == lines[i] && outputs[i].first == (i == 0) && outputs[i].time == time
         && outputs[i].s == source && outputs[i].targets == targets
         && outputs[i].g == if |lines| > 1 || tagSingle then Some((i + 1, |lines|, gid)) else None
  }

  /** The targets at the marked places, in order. */
  function Picked(targets: seq<nat>, marks: seq<bool>): seq<nat>
    requires |targets| == |marks|
  {
    if targets == [] then []
    else (if marks[0] then [targets[0]] else []) + Picked(targets[1..], marks[1..])
  }

  predicate Distinct(targets: seq<nat>) {
    forall i, j :: 0 <= i < j < |targets| ==> targets[i] != targets[j]
  }

  /** The filter's log refuses the message for this target at this time. */
  predicate Refused(log: Log<DedupKey>, target: nat, lines: seq<string>, at: int, c: Settings) {
    Blocks(log, DedupKey(Some(target), lines), at, c.ttl, c.cap)
  }

  /** The filter's log when the i-th target is looked up: the targets before it that get the message are in it. */
  function LogBefore(
    log: Log<DedupKey>, targets: seq<nat>, marks: seq<bool>, lines: seq<string>, ticks: seq<int>, i: nat): Log<DedupKey>
    requires i <= |targets| == |marks| <= |ticks|
  {
    if i == 0 then log
    else
      LogBefore(log, targets, marks, lines, ticks, i - 1)
      + if marks[i - 1] then [Entry(DedupKey(Some(targets[i - 1]), lines), ticks[i - 1])] else []
  }

  lemma {:induction false} LogBeforeTail(
    log: Log<DedupKey>, targets: seq<nat>, marks: seq<bool>, lines: seq<string>, ticks: seq<int>, i: nat)
    requires 1 <= i <= |targets| == |marks| <= |ticks|
    ensures LogBefore(log, targets, marks, lines, ticks, i)
            == LogBefore(LogBefore(log, targets, marks, lines, ticks, 1), targets[1..], marks[1..], lines, ticks[1..], i - 1)
  {
    if i > 1 {
      LogBeforeTail(log, targets, marks, lines, ticks, i - 1);
      assert marks[1..][i - 2] == marks[i - 1] && targets[1..][i - 2] == targets[i - 1] && ticks[1..][i - 2] == ticks[i - 1];
    }
  }

  /**
   Which targets get the message: exactly those not refused when it is their turn.
   Among them are all that the log did not refuse to begin with, and without a
   limit on the filter there are no others.
   */
  predicate Chosen(
    log: Log<DedupKey>, targets: seq<nat>, marks: seq<bool>, lines: seq<string>, ticks: seq<int>, c: Settings)
  {
    && |marks| == |targets| <= |ticks|
    && forall i :: 0 <= i < |targets| ==>
         && (marks[i] <==> !Refused(LogBefore(log, targets, marks, lines, ticks, i), targets[i], lines, ticks[i], c))
         && (!Refused(log, targets[i], lines, ticks[i], c) ==> marks[i])
         && (c.cap.None? && Refused(log, targets[i], lines, ticks[i], c) ==> !marks[i])
  }

  /** More acceptances of other keys never make a key refused; without a limit they change nothing. */
  lemma OthersDoNotRefuse(log: Log<DedupKey>, other: Entry<DedupKey>, key: DedupKey, at: int, c: Settings)
    requires other.key != key
    ensures Blocks(log + [other], key, at, c.ttl, c.cap) ==> Blocks(log, key, at, c.ttl, c.cap)
    ensures c.cap.None? ==> (Blocks(log + [other], key, at, c.ttl, c.cap) <==> Blocks(log, key, at, c.ttl, c.cap))
  {
    var more := log + [other];
    if Blocks(more, key, at, c.ttl, c.cap) {
      var i :| 0 <= i < |more| && Armed(more, i, at, c.ttl, c.cap) && more[i].key == key;
      assert Armed(log, i, at, c.ttl, c.cap);
    }
    if c.cap.None? && Blocks(log, key, at, c.ttl, c.cap) {
      var i :| 0 <= i < |log| && Armed(log, i, at, c.ttl, c.cap) && log[i].key == key;
      assert Armed(more, i, at, c.ttl, c.cap);
    }
  }

  lemma ChosenTail(
    log: Log<DedupKey>, targets: seq<nat>, marks: seq<bool>, lines: seq<string>, ticks: seq<int>, first: bool, c: Settings)
    requires Distinct(targets) && 0 < |targets| <= |ticks| && |marks| == |targets| - 1
    requires first <==> !Refused(log, targets[0], lines, ticks[0], c)
    requires var key := DedupKey(Some(targets[0]), lines);
             Chosen(Offer(log, key, ticks[0], c.ttl, c.cap), targets[1..], marks, lines, ticks[1..], c)
    ensures Chosen(log, targets, [first] + marks, lines, ticks, c)
  {
    hide Blocks;
    var key := DedupKey(Some(targets[0]), lines);
    var next := Offer(log, key, ticks[0], c.ttl, c.cap);
    var all := [first] + marks;
    assert all[1..] == marks;
    assert LogBefore(log, targets, all, lines, ticks, 1) == next by {
      assert LogBefore(log, targets, all, lines, ticks, 0) == log;
      assert log + [] == log;
    }
    forall i | 0 <= i < |targets|
      ensures all[i] <==> !Refused(LogBefore(log, targets, all, lines, ticks, i), targets[i], lines, ticks[i], c)
      ensures !Refused(log, targets[i], lines, ticks[i], c) ==> all[i]
      ensures c.cap.None? && Refused(log, targets[i], lines, ticks[i], c) ==> !all[i]
    {
      if i > 0 {
        LogBeforeTail(log, targets, all, lines, ticks, i);
        assert targets[1..][i - 1] == targets[i] && ticks[1..][i - 1] == ticks[i] && all[i] == marks[i - 1];
        OthersDoNotRefuse(log, Entry(key, ticks[0]), DedupKey(Some(targets[i]), lines), ticks[i], c);
      }
    }
  }

  lemma {:induction false} EligibleMeans(f: Filter, lines: seq<string>, targets: seq<nat>, ticks: seq<int>, c: Settings)
    returns (marks: seq<bool>)
    requires Sound(f, c.ttl, c.cap) && |targets| <= |ticks| && Rising(f.clock, ticks) && Distinct(targets)
    ensures Chosen(f.log, targets, marks, lines, ticks, c)
    ensures Eligible(f, lines, targets, ticks, c).1 == Picked(targets, marks)
    decreases |targets|
  {
    hide Sound, Chosen, Offered, Blocks;
    SoundSize(f, c);
    if targets == [] {
      marks := [];
      NoneChosen(f.log, targets, lines, ticks, c);
    } else {
      var key := DedupKey(Some(targets[0]), lines);
      OfferedRefinesLog(f, key, ticks[0], c.ttl, c.cap);
      var next := Offered(f, key, ticks[0], c.ttl, c.cap);
      assert Distinct(targets[1..]);
      var rest := EligibleMeans(next, lines, targets[1..], ticks[1..], c);
      var first := !Blocks(f.log, key, ticks[0], c.ttl, c.cap);
      ChosenSizes(next.log, targets[1..], rest, lines, ticks[1..], c);
      ChosenTail(f.log, targets, rest, lines, ticks, first, c);
      marks := [first] + rest;
      assert marks[1..] == rest;
    }
  }

  lemma SoundSize(f: Filter, c: Settings)
    requires Sound(f, c.ttl, c.cap)
    ensures f.gone <= |f.log|
  {
  }

  lemma NoneChosen(log: Log<DedupKey>, targets: seq<nat>, lines: seq<string>, ticks: seq<int>, c: Settings)
    requires targets == []
    ensures Chosen(log, targets, [], lines, ticks, c)
  {
  }

  lemma ChosenSizes(
    log: Log<DedupKey>, targets: seq<nat>, marks: seq<bool>, lines: seq<string>, ticks: seq<int>, c: Settings)
    requires Chosen(log, targets, marks, lines, ticks, c)
    ensures |marks| == |targets|
  {
  }

  /** To whom a message goes: to all targets or nobody, or to the chosen ones. */
  ghost predicate GoesTo(
    log: Log<DedupKey>, snapshot: Snapshot, lines: seq<string>, ticks: seq<int>, sent: bool, targets: seq<nat>, c: Settings)
  {
    match snapshot.mode
    case Global =>
      && |ticks| > 0 && targets == snapshot.targets
      && (sent <==> !Blocks(log, DedupKey(None, lines), ticks[0], c.ttl, c.cap))
    case PerTarget =>
      && (sent <==> targets != [])
      && (exists marks ::
            && Chosen(log, snapshot.targets, marks, lines, ticks, c)
            && |marks| == |snapshot.targets| && targets == Picked(snapshot.targets, marks))
  }

  lemma EmissionMeans(
    f: Filter, lines: seq<string>, stamp: Stamp, gid: string, s: Option<string>,
    frame: Frame, snapshot: Snapshot, r: Readings, c: Settings) returns (targets: seq<nat>)
    requires Sound(f, c.ttl, c.cap) && Lookups(snapshot) <= |r.ticks| && Rising(f.clock, r.ticks)
    requires lines != [] && (snapshot.mode == PerTarget ==> Distinct(snapshot.targets))
    ensures var outputs := Emit(f, lines, stamp, gid, s, frame, snapshot, r, c).1;
            && GoesTo(f.log, snapshot, lines, r.ticks, outputs != [], targets, c)
            && (outputs != [] ==>
                  SentAs(outputs, lines, HeaderTime(stamp, r.wall), gid,
                         SourceOf(c.station, frame.alias, s, frame.leadingS, frame.remoteIp), targets, c.tagSingle))
  {
    hide Sound, Decide, MessageParts, ChooseS, Or, SourceOf, GoesTo, SentAs, HeaderTime;
    targets := DecisionMeans(f, lines, snapshot, r.ticks, c);
    var (after, sent, chosen) := Decide(f, lines, snapshot, r.ticks, c);
    var name := ChooseS(c.station, Or(frame.alias, s), frame.leadingS, frame.remoteIp);
    SourceIsChosen(c.station, frame.alias, s, frame.leadingS, frame.remoteIp);
    PartsAreSentAs(lines, stamp, gid, name, targets, r.wall, c.tagSingle);
  }

  lemma DecisionMeans(f: Filter, lines: seq<string>, snapshot: Snapshot, ticks: seq<int>, c: Settings)
    returns (targets: seq<nat>)
    requires Sound(f, c.ttl, c.cap) && Lookups(snapshot) <= |ticks| && Rising(f.clock, ticks)
    requires snapshot.mode == PerTarget ==> Distinct(snapshot.targets)
    ensures var (after, sent, chosen) := Decide(f, lines, snapshot, ticks, c);
            targets == chosen && GoesTo(f.log, snapshot, lines, ticks, sent, targets, c)
  {
    hide Sound, Blocks, Offered, Chosen, Picked, Eligible;
    SoundSize(f, c);
    targets := Decide(f, lines, snapshot, ticks, c).2;
    match snapshot.mode {
      case Global =>
      case PerTarget =>
        var marks := EligibleMeans(f, lines, snapshot.targets, ticks, c);
        ChosenSizes(f.log, snapshot.targets, marks, lines, ticks, c);
        assert Chosen(f.log, snapshot.targets, marks, lines, ticks, c) && targets == Picked(snapshot.targets, marks);
    }
  }

  /** The two candidates of the program are the ones of `SourceOf`. */
  lemma SourceIsChosen(
    station: Option<string>, alias: Option<string>, incoming: Option<string>, leading: Option<string>, ip: Option<string>)
    ensures ChooseS(station, Or(alias, incoming), leading, ip) == SourceOf(station, alias, incoming, leading, ip)
  {
    hide Sanitize;
  }

  lemma PartsAreSentAs(
    lines: seq<string>, stamp: Stamp, gid: string, s: string, targets: seq<nat>, wall: int, tagSingle: bool)
    ensures var outputs := MessageParts(lines, stamp, gid, s, targets, wall, tagSingle);
            |outputs| == |lines| && SentAs(outputs, lines, HeaderTime(stamp, wall), gid, s, targets, tagSingle)
  {
    hide HeaderTime;
  }

  // ------------------------------------------------------------------- single sentences

  /** A message of one part: its own `c` unless that is missing or zero, its own group id if it is kept, its own `s`. */
  lemma SingleMessage(st: State, a: Arriving, frame: Frame, snapshot: Snapshot, c: Settings) returns (targets: seq<nat>)
    requires Sound(st.filter, c.ttl, c.cap) && Lookups(snapshot) <= |a.readings.ticks|
    requires Rising(st.filter.clock, a.readings.ticks) && (snapshot.mode == PerTarget ==> Distinct(snapshot.targets))
    requires a.sentence.fragment.Some? && a.sentence.fragment.value.ordinal == a.sentence.fragment.value.key.total == 1
    ensures var outputs := ProcessOne(st, a, frame, snapshot, c).1;
            var (s, r) := (a.sentence, a.readings);
            var lines := [s.fragment.value.text];
            var time := if c.preserveC && s.c.Some? && s.c.value != 0 then s.c.value else r.wall;
            var gid := if c.preserveGid && s.g.Some? && s.g.value.preservable.Some? then s.g.value.preservable.value else r.gid;
            && GoesTo(st.filter.log, snapshot, lines, r.ticks, outputs != [], targets, c)
            && (outputs != [] ==>
                  SentAs(outputs, lines, time, gid,
                         SourceOf(c.station, frame.alias, s.s, frame.leadingS, frame.remoteIp), targets, c.tagSingle))
  {
    hide Emit, FeedPart, Sound, GoesTo, SentAs, SourceOf;
    var (s, r) := (a.sentence, a.readings);
    targets := EmissionMeans(
      st.filter, [s.fragment.value.text], SingleStamp(s, c), SingleGid(s, r.gid, c), s.s, frame, snapshot, r, c);
  }

  // ------------------------------------------------------------------ completed messages

  /** The arrivals of the generation a completed message belongs to: those before, if it is still alive, and the last. */
  function OwnGeneration(st: State, key: Key, s: Sentence, now: int, c: Settings): Generation {
    (if key in st.groups && now - st.groups[key].progress < c.limits.timeout && key in st.gens then st.gens[key] else [])
    + [s]
  }

  /** The least `c` of the generation if it is preserved and there is one, otherwise the wall clock. */
  ghost predicate TimeOf(gen: Generation, time: int, wall: int, c: Settings) {
    if c.preserveC && exists m :: HasC(gen, m)
    then time >= 0 && HasC(gen, time) && forall m :: HasC(gen, m) ==> time <= m
    else time == wall
  }

  /** The group id the generation agrees on if it is preserved and there is exactly one, otherwise the new one. */
  ghost predicate GroupIdOf(gen: Generation, gid: string, made: string, c: Settings) {
    if c.preserveGid && exists x :: OnlyGid(gen, x) then OnlyGid(gen, gid) else gid == made
  }

  ghost predicate OnlyGid(gen: Generation, gid: string) {
    HasGid(gen, gid) && forall other :: HasGid(gen, other) ==> other == gid
  }

  /** The last arrival that has both `s` and a group tag. */
  predicate LatestAt(gen: Generation, i: int) {
    0 <= i < |gen| && NamesSource(gen[i]) && forall j :: i < j < |gen| ==> !NamesSource(gen[j])
  }

  /** The `s` of the last arrival, or else of the latest one before it that had both `s` and a group tag. */
  ghost predicate IncomingOf(gen: Generation, incoming: Option<string>) {
    && gen != []
    && var n := |gen| - 1;
    if Given(gen[n].s) then incoming == gen[n].s
    else if exists i :: 0 <= i < n && NamesSource(gen[i]) then
      exists i :: 0 <= i < n && LatestAt(gen[..n], i) && incoming == gen[i].s
    else incoming == None
  }

  lemma LatestStays(gen: Generation, s: Sentence, i: int)
    requires LatestAt(gen, i) && !NamesSource(s)
    ensures LatestAt(gen + [s], i)
  {
    var more := gen + [s];
    forall j | i < j < |more| ensures !NamesSource(more[j]) {
      if j < |gen| { assert more[j] == gen[j]; }
    }
  }

  lemma LatestIsLast(gen: Generation, s: Sentence)
    requires NamesSource(s)
    ensures LatestAt(gen + [s], |gen|)
  {
  }

  lemma LatestStep(gen: Generation, s: Sentence)
    ensures LatestS(gen + [s]) == if NamesSource(s) then s.s else LatestS(gen)
  {
    assert (gen + [s])[..|gen|] == gen;
  }

  /** The last arrival that names a source is the one whose `s` is taken; without one there is none. */
  lemma {:induction false} LatestSMeans(gen: Generation) returns (i: int)
    ensures i >= 0 ==> LatestAt(gen, i) && LatestS(gen) == gen[i].s
    ensures i < 0 ==> LatestS(gen) == None && forall j :: 0 <= j < |gen| ==> !NamesSource(gen[j])
  {
    i := -1;
    if gen != [] {
      hide LatestS, LatestAt, NamesSource;
      var (init, s) := (gen[..|gen| - 1], gen[|gen| - 1]);
      i := LatestSMeans(init);
      assert gen == init + [s];
      LatestStep(init, s);
      if NamesSource(s) {
        i := |init|;
        LatestIsLast(init, s);
      } else if i >= 0 {
        LatestStays(init, s, i);
        LatestIsInside(init, i);
      } else {
        assert forall j :: 0 <= j < |init| ==> gen[j] == init[j];
      }
    }
  }

  lemma LatestIsInside(gen: Generation, i: int)
    requires LatestAt(gen, i)
    ensures 0 <= i < |gen| && NamesSource(gen[i])
  {
  }

  lemma IncomingMeans(was: Generation, s: Sentence)
    ensures IncomingOf(was + [s], Or(s.s, LatestS(was)))
  {
    var i := LatestSMeans(was);
    assert (was + [s])[..|was|] == was;
    if i >= 0 { assert NamesSource((was + [s])[i]); }
  }

  lemma TimeMeans(gen: Generation, wall: int, c: Settings)
    ensures TimeOf(gen, HeaderTime(CompletedStamp(gen, c), wall), wall, c)
  {
    hide HeaderTime, CompletedStamp, SmallestC;
    SmallestCIsMinimum(gen);
    if exists m :: HasC(gen, m) {
      var m :| HasC(gen, m);
      var least := LeastC(gen, m);
      CompletedTime(gen, c, least, wall);
    } else {
      CompletedTimeWithoutC(gen, c, wall);
    }
  }

  /** There is a least one. */
  lemma {:induction false} LeastC(gen: Generation, m: nat) returns (least: nat)
    requires HasC(gen, m)
    ensures HasC(gen, least) && forall n :: HasC(gen, n) ==> least <= n
    decreases m
  {
    if n: nat :| n < m && HasC(gen, n) {
      least := LeastC(gen, n);
    } else {
      least := m;
    }
  }

  lemma GroupIdMeans(gen: Generation, made: string, c: Settings)
    ensures GroupIdOf(gen, CompletedGid(gen, made, c), made, c)
  {
    hide CompletedGid;
    CompletedGroupId(gen, made, c);
    if c.preserveGid {
      if gid :| OnlyGid(gen, gid) {
        assert CompletedGid(gen, made, c) == gid;
      }
    }
  }

  /**
   A message that completes goes out under the least valid `c` of the arrivals of
   its own generation, the one group id they agree on and one source name; and in
   no other case than these two does a sentence send anything.
   */
  lemma CompletedMessage(
    st: State, a: Arriving, frame: Frame, snapshot: Snapshot, clock: int, tick: int, c: Settings)
    returns (time: int, gid: string, incoming: Option<string>, targets: seq<nat>)
    requires Good(st, clock, tick, c) && clock <= a.readings.now
    requires Lookups(snapshot) <= |a.readings.ticks| && Rising(st.filter.clock, a.readings.ticks)
    requires snapshot.mode == PerTarget ==> Distinct(snapshot.targets)
    requires Feed(st.groups, a.sentence.fragment, a.readings.now, c.limits).1.status == Complete
    ensures var o := Feed(st.groups, a.sentence.fragment, a.readings.now, c.limits).1;
            var outputs := ProcessOne(st, a, frame, snapshot, c).1;
            var (lines, r) := (o.sentences, a.readings);
            && a.sentence.fragment.Some?
            && var gen := OwnGeneration(st, a.sentence.fragment.value.key, a.sentence, r.now, c);
            && TimeOf(gen, time, r.wall, c) && GroupIdOf(gen, gid, r.gid, c) && IncomingOf(gen, incoming)
            && GoesTo(st.filter.log, snapshot, lines, r.ticks, outputs != [], targets, c)
            && (outputs != [] ==>
                  SentAs(outputs, lines, time, gid,
                         SourceOf(c.station, frame.alias, incoming, frame.leadingS, frame.remoteIp), targets, c.tagSingle))
  {
    hide HeaderTime, CompletedStamp, CompletedGid, LatestS, Or, Emit, FeedPart, GoesTo, SentAs, SourceOf, Sound,
         TimeOf, GroupIdOf, IncomingOf, NextGens;
    FeedSane(st, a, clock, c);
    var (s, r) := (a.sentence, a.readings);
    var o := Feed(st.groups, s.fragment, r.now, c.limits).1;
    OwnKey(st.groups, s.fragment, r.now, c.limits);
    var key := s.fragment.value.key;
    var was := LiveGeneration(st, key, r.now, c);
    var gen := was + [s];
    time := HeaderTime(CompletedStamp(gen, c), r.wall);
    gid := CompletedGid(gen, r.gid, c);
    incoming := Or(s.s, LatestS(was));
    TimeMeans(gen, r.wall, c);
    GroupIdMeans(gen, r.gid, c);
    IncomingMeans(was, s);
    targets := EmissionMeans(st.filter, o.sentences, CompletedStamp(gen, c), gid, incoming, frame, snapshot, r, c);
  }

  lemma OwnKey(g: Groups, f: Option<Fragment>, now: int, l: Limits)
    requires Feed(g, f, now, l).1.status == Complete
    ensures f.Some? && Feed(g, f, now, l).1.key == Some(f.value.key)
  {
  }

  /** Nothing else is sent. */
  lemma OthersSendNothing(st: State, a: Arriving, frame: Frame, snapshot: Snapshot, c: Settings)
    requires Lookups(snapshot) <= |a.readings.ticks|
    ensures var o := Feed(st.groups, a.sentence.fragment, a.readings.now, c.limits).1;
            o.status != Single && o.status != Complete ==>
              ProcessOne(st, a, frame, snapshot, c).1 == [] && ProcessOne(st, a, frame, snapshot, c).0.filter == st.filter
  {
    hide Feed, Emit, NextGens, CompletedStamp, CompletedGid;
  }

  /** A frame sends what its sentences send, one after the other, each from the state the ones before it left. */
  lemma {:induction false} FrameSendsAll(
    st: State, a: seq<Arriving>, frame: Frame, snapshot: Snapshot, c: Settings)
    returns (states: seq<State>, sent: seq<seq<Output>>)
    requires forall i :: 0 <= i < |a| ==> Lookups(snapshot) <= |a[i].readings.ticks|
    ensures |states| == |a| + 1 && |sent| == |a| && states[0] == st
    ensures forall i :: 0 <= i < |a| ==> (states[i + 1], sent[i]) == ProcessOne(states[i], a[i], frame, snapshot, c)
    ensures Process(st, a, frame, snapshot, c) == (states[|a|], Together(sent))
    decreases |a|
  {
    hide ProcessOne;
    if a == [] {
      states, sent := [st], [];
    } else {
      var (mid, first) := ProcessOne(st, a[0], frame, snapshot, c);
      var later, rest := FrameSendsAll(mid, a[1..], frame, snapshot, c);
      states, sent := [st] + later, [first] + rest;
      assert sent[1..] == rest;
      forall i | 0 <= i < |a| ensures (states[i + 1], sent[i]) == ProcessOne(states[i], a[i], frame, snapshot, c) {
        if i > 0 { assert a[1..][i - 1] == a[i]; }
      }
    }
  }

  /** Batches one after the other. */
  function Together(batches: seq<seq<Output>>): seq<Output> {
    if batches == [] then [] else batches[0] + Together(batches[1..])
  }
}
