/**
 What the data-plane processor (core/python_data_plane.py) must do, on values.
 For every live assembler group this model keeps all arrivals of its present
 generation; what a completed message is tagged with is computed from those
 arrivals alone.  The class in Processor.dfy, with its three context
 dictionaries, is proved against it.
 */
module ProcessorModel {
  import opened Common
  import opened AcceptanceLog
  import opened KeyOrder
  import opened AssemblyModel
  import opened Dedup

  // --------------------------------------------------------------------- inputs

  /** `g` of a TAG block; the group id is kept only if it is numeric. */
  datatype GroupTag = GroupTag(preservable: Option<string>)

  /** One parsed sentence with the TAG values that belong to it. */
  datatype Sentence = Sentence(fragment: Option<Fragment>, s: Option<string>, c: Option<nat>, g: Option<GroupTag>)

  /** Clock readings and the generated group id used while one sentence is processed. */
  datatype Readings = Readings(now: int, ticks: seq<int>, wall: int, gid: string)

  datatype Arriving = Arriving(sentence: Sentence, readings: Readings)

  datatype Frame = Frame(alias: Option<string>, remoteIp: Option<string>, leadingS: Option<string>)

  datatype Mode = Global | PerTarget

  datatype Snapshot = Snapshot(mode: Mode, targets: seq<nat>)

  datatype Settings = Settings(
    station: Option<string>, preserveC: bool, preserveGid: bool, tagSingle: bool, limits: Limits, ttl: int, cap: Capacity)

  // -------------------------------------------------------------------- outputs

  /** The timestamp handed to the header: nothing, a number, or the text "0". */
  datatype Stamp = NoStamp | Number(n: nat) | ZeroText

  /** A falsy timestamp, also the number zero, is replaced by the wall clock. */
  function HeaderTime(stamp: Stamp, wall: int): int {
    match stamp
    case NoStamp => wall
    case Number(n) => if n == 0 then wall else n
    case ZeroText => 0
  }

  datatype Output = Output(
    line: string, first: bool, time: int, s: string, g: Option<(int, int, string)>, targets: seq<nat>)

  // ----------------------------------------------------------------- generations

  type Generation = seq<Sentence>

  function Lower(a: Option<nat>, b: Option<nat>): Option<nat> {
    if a.None? then b else if b.None? then a else Some(Min(a.value, b.value))
  }

  /** The smallest valid `c` of a generation. */
  function SmallestC(gen: Generation): Option<nat> {
    if gen == [] then None else Lower(SmallestC(gen[..|gen| - 1]), gen[|gen| - 1].c)
  }

  function GidOf(s: Sentence): Option<string> {
    if s.g.Some? then s.g.value.preservable else None
  }

  /** The group ids seen in a generation. */
  function Gids(gen: Generation): set<string> {
    set s | s in gen && GidOf(s).Some? :: GidOf(s).value
  }

  predicate NamesSource(s: Sentence) {
    s.s.Some? && s.g.Some?
  }

  /** The `s` of the last arrival that had both `s` and `g`. */
  function LatestS(gen: Generation): Option<string> {
    if gen == [] then None
    else if NamesSource(gen[|gen| - 1]) then gen[|gen| - 1].s
    else LatestS(gen[..|gen| - 1])
  }

  lemma {:induction false} SmallestCIsMinimum(gen: Generation)
    ensures SmallestC(gen).None? <==> forall i :: 0 <= i < |gen| ==> gen[i].c.None?
    ensures SmallestC(gen).Some? ==>
              && (exists i :: 0 <= i < |gen| && gen[i].c == SmallestC(gen))
              && (forall i :: 0 <= i < |gen| && gen[i].c.Some? ==> SmallestC(gen).value <= gen[i].c.value)
  {
    if gen != [] {
      var (init, n) := (gen[..|gen| - 1], |gen| - 1);
      SmallestCIsMinimum(init);
      assert forall i :: 0 <= i < n ==> init[i] == gen[i];
      if SmallestC(gen).Some? {
        if gen[n].c == SmallestC(gen) {
        } else {
          var i :| 0 <= i < |init| && init[i].c == SmallestC(init);
          assert gen[i].c == SmallestC(gen);
        }
      }
    }
  }

  // ----------------------------------------------------------------- source names

  predicate Truthy(s: Option<string>) {
    s.Some? && s.value != ""
  }

  /** Python's `or` on optional texts. */
  function Or(a: Option<string>, b: Option<string>): Option<string> {
    if Truthy(a) then a else b
  }

  predicate SafeChar(c: char) {
    'A' <= c <= 'Z' || 'a' <= c <= 'z' || '0' <= c <= '9' || c == '_'
  }

  function Spaced(c: char): bool {
    c == ' ' || '\t' <= c <= '\r' || 0x1C <= c as int <= 0x1F
  }

  function Strip(s: string): string {
    if s != "" && Spaced(s[0]) then Strip(s[1..])
    else if s != "" && Spaced(s[|s| - 1]) then Strip(s[..|s| - 1])
    else s
  }

  /** `sanitize_s`. */
  function Sanitize(s: string): (r: string)
    ensures |r| <= 15 && forall i :: 0 <= i < |r| ==> SafeChar(r[i])
  {
    var v := Strip(s);
    var safe := seq(|v|, i requires 0 <= i < |v| => if SafeChar(v[i]) then v[i] else '_');
    if |safe| <= 15 then safe else safe[..15]
  }

  /** `choose_s_value_from_candidates`. */
  function ChooseS(station: Option<string>, name: Option<string>, incoming: Option<string>, ip: Option<string>): string {
    if Truthy(station) then Sanitize(station.value)
    else if Truthy(name) && name.value != "ANONYMOUS" then Sanitize(name.value)
    else if Truthy(incoming) then Sanitize(incoming.value)
    else if Truthy(ip) then Sanitize(ip.value)
    else "ANONYMOUS"
  }

  // ---------------------------------------------------------------- deduplication

  /** Readings that never decrease, from `clock` on, enough for `n` lookups. */
  predicate Rising(clock: int, ticks: seq<int>)
    decreases |ticks|
  {
    ticks == [] || (clock <= ticks[0] && Rising(ticks[0], ticks[1..]))
  }

  function Last(clock: int, ticks: seq<int>): int {
    if ticks == [] then clock else ticks[|ticks| - 1]
  }

  function Lookups(snapshot: Snapshot): nat {
    if snapshot.mode == Global then 1 else |snapshot.targets|
  }

  type Filter = Store<DedupKey>

  /** The targets, in order, that have not been given the message lately, and the filter after asking for each. */
  function Eligible(f: Filter, message: seq<string>, targets: seq<nat>, ticks: seq<int>, c: Settings): (r: (Filter, seq<nat>))
    requires |targets| <= |ticks|
    decreases |targets|
  {
    if targets == [] || f.gone > |f.log| then (f, []) else
    var key := DedupKey(Some(targets[0]), message);
    var (rest, others) := Eligible(Offered(f, key, ticks[0], c.ttl, c.cap), message, targets[1..], ticks[1..], c);
    (rest, if Blocks(f.log, key, ticks[0], c.ttl, c.cap) then others else [targets[0]] + others)
  }

  /** Whether the message is sent, and to which targets. */
  function Decide(f: Filter, message: seq<string>, snapshot: Snapshot, ticks: seq<int>, c: Settings): (Filter, bool, seq<nat>)
    requires Lookups(snapshot) <= |ticks|
  {
    if f.gone > |f.log| then (f, false, []) else
    match snapshot.mode
    case Global =>
      var key := DedupKey(None, message);
      (Offered(f, key, ticks[0], c.ttl, c.cap), !Blocks(f.log, key, ticks[0], c.ttl, c.cap), snapshot.targets)
    case PerTarget =>
      var (after, targets) := Eligible(f, message, snapshot.targets, ticks, c);
      (after, targets != [], targets)
  }

  // ------------------------------------------------------------------- one sentence

  /**
   The parts of a message, each with its place in it.  One wall clock reading
   serves all parts; the program reads the clock again for every part whose
   stamp is falsy, so there later parts may carry a later time.
   */
  function MessageParts(
    lines: seq<string>, stamp: Stamp, gid: string, s: string, targets: seq<nat>, wall: int, tagSingle: bool): seq<Output>
  {
    var n := |lines|;
    seq(n, i requires 0 <= i < n =>
      Output(lines[i], i == 0, HeaderTime(stamp, wall), s,
             if n > 1 || tagSingle then Some((i + 1, n, gid)) else None, targets))
  }

  /** The stamp of a completed message: the smallest `c` of its generation. */
  function CompletedStamp(gen: Generation, c: Settings): Stamp {
    if !c.preserveC || SmallestC(gen).None? then NoStamp
    else if SmallestC(gen).value == 0 then ZeroText
    else Number(SmallestC(gen).value)
  }

  /** The group id of a completed message: kept if its generation agrees on exactly one. */
  function CompletedGid(gen: Generation, made: string, c: Settings): string {
    if c.preserveGid && |Gids(gen)| == 1 then Only(Gids(gen)) else made
  }

  lemma OnlyOne(s: set<string>, x: string, y: string)
    requires |s| == 1 && x in s && y in s
    ensures x == y
  {
    if x != y { assert |{x, y}| <= |s| by { assert {x, y} <= s; AssemblyModel.Smaller({x, y}, s); } }
  }

  /** The element of a singleton. */
  function Only(s: set<string>): (x: string)
    requires |s| == 1
    ensures x in s
  {
    forall x, y | x in s && y in s ensures x == y { OnlyOne(s, x, y); }
    var x :| x in s;
    x
  }

  function SingleStamp(s: Sentence, c: Settings): Stamp {
    if c.preserveC && s.c.Some? then Number(s.c.value) else NoStamp
  }

  function SingleGid(s: Sentence, made: string, c: Settings): string {
    if c.preserveGid && GidOf(s).Some? then GidOf(s).value else made
  }

  datatype State = State(groups: Groups, gens: map<Key, Generation>, filter: Filter)

  /** The arrivals of the live generation of a key. */
  function LiveGeneration(st: State, key: Key, now: int, c: Settings): Generation {
    if key in st.groups && !Stale(st.groups[key], now, c.limits.timeout) && key in st.gens then st.gens[key] else []
  }

  /** Every group of `next` keeps its arrivals; the one of `key` gets a new arrival. */
  function NextGens(st: State, next: Groups, key: Key, gen: Generation): map<Key, Generation> {
    map k | k in next && (k == key || k in st.gens) :: if k == key then gen else st.gens[k]
  }

  function Emit(
    f: Filter, lines: seq<string>, stamp: Stamp, gid: string, s: Option<string>,
    frame: Frame, snapshot: Snapshot, r: Readings, c: Settings): (Filter, seq<Output>)
    requires Lookups(snapshot) <= |r.ticks|
  {
    var (after, sent, targets) := Decide(f, lines, snapshot, r.ticks, c);
    var name := ChooseS(c.station, Or(frame.alias, s), frame.leadingS, frame.remoteIp);
    (after, if sent then MessageParts(lines, stamp, gid, name, targets, r.wall, c.tagSingle) else [])
  }

  /** The body of the loop over the sentences of a frame. */
  ghost function ProcessOne(st: State, a: Arriving, frame: Frame, snapshot: Snapshot, c: Settings): (State, seq<Output>)
    requires Lookups(snapshot) <= |a.readings.ticks|
  {
    var (s, r) := (a.sentence, a.readings);
    var (next, o) := Feed(st.groups, s.fragment, r.now, c.limits);
    if o.status == Single then
      var (filter, outputs) := Emit(
        st.filter, o.sentences, SingleStamp(s, c), SingleGid(s, r.gid, c), s.s, frame, snapshot, r, c);
      (st.(filter := filter), outputs)
    else if o.key.None? then (st, [])
    else
      var key := o.key.value;
      var gen := LiveGeneration(st, key, r.now, c) + [s];
      var gens := NextGens(st, next, key, gen);
      if o.status == Complete then
        var incoming := Or(s.s, LatestS(LiveGeneration(st, key, r.now, c)));
        var (filter, outputs) := Emit(
          st.filter, o.sentences, CompletedStamp(gen, c), CompletedGid(gen, r.gid, c), incoming, frame, snapshot, r, c);
        (State(next, gens, filter), outputs)
      else (State(next, gens, st.filter), [])
  }

  /** All sentences of a frame. */
  ghost function Process(st: State, a: seq<Arriving>, frame: Frame, snapshot: Snapshot, c: Settings): (State, seq<Output>)
    decreases |a|
  {
    if a == [] || Lookups(snapshot) > |a[0].readings.ticks| then (st, []) else
    var (mid, first) := ProcessOne(st, a[0], frame, snapshot, c);
    var (end, rest) := Process(mid, a[1..], frame, snapshot, c);
    (end, first + rest)
  }

  // ------------------------------------------------- contexts, as functions of the generations

  type Gens = map<Key, Generation>

  function CContext(gens: Gens, c: Settings): map<Key, nat> {
    map k | k in gens && c.preserveC && SmallestC(gens[k]).Some? :: SmallestC(gens[k]).value
  }

  function GidContext(gens: Gens, c: Settings): map<Key, set<string>> {
    map k | k in gens && c.preserveGid && Gids(gens[k]) != {} :: Gids(gens[k])
  }

  function SContext(gens: Gens): map<Key, string> {
    map k | k in gens && LatestS(gens[k]).Some? :: LatestS(gens[k]).value
  }

  /** The arrivals so far under a key. */
  function Arrivals(gens: Gens, k: Key): Generation {
    if k in gens then gens[k] else []
  }

  lemma ArrivalInC(gens: Gens, k: Key, s: Sentence, c: Settings)
    ensures var (was, now) := (CContext(gens, c), CContext(gens[k := Arrivals(gens, k) + [s]], c));
            now == if c.preserveC && s.c.Some?
                   then was[k := if k in was then Min(was[k], s.c.value) else s.c.value] else was
  {
    var gen := Arrivals(gens, k) + [s];
    assert gen[..|gen| - 1] == Arrivals(gens, k);
    assert SmallestC(gen) == Lower(SmallestC(Arrivals(gens, k)), s.c);
    var (was, now) := (CContext(gens, c), CContext(gens[k := gen], c));
    assert forall j :: j != k ==> (j in now <==> j in was);
    assert k in now <==> c.preserveC && SmallestC(gen).Some?;
    assert k in was <==> c.preserveC && SmallestC(Arrivals(gens, k)).Some?;
  }

  lemma GidsGrow(gen: Generation, s: Sentence)
    ensures Gids(gen + [s]) == Gids(gen) + (if GidOf(s).Some? then {GidOf(s).value} else {})
  {
    assert forall x :: x in gen + [s] <==> x in gen || x == s;
    if GidOf(s).Some? { assert s in gen + [s]; }
  }

  lemma ArrivalInGids(gens: Gens, k: Key, s: Sentence, c: Settings)
    ensures var (was, now) := (GidContext(gens, c), GidContext(gens[k := Arrivals(gens, k) + [s]], c));
            now == if c.preserveGid && GidOf(s).Some?
                   then was[k := (if k in was then was[k] else {}) + {GidOf(s).value}] else was
  {
    GidsGrow(Arrivals(gens, k), s);
    hide Gids;
    var gen := Arrivals(gens, k) + [s];
    var (was, now) := (GidContext(gens, c), GidContext(gens[k := gen], c));
    assert Gids([]) == {} by { NoGids(); }
    assert forall j :: j != k ==> (j in now <==> j in was);
    assert k in now <==> c.preserveGid && Gids(gen) != {};
    assert k in was <==> c.preserveGid && Gids(Arrivals(gens, k)) != {};
    if GidOf(s).None? {
      assert Gids(gen) == Gids(Arrivals(gens, k));
    } else if c.preserveGid {
      assert Gids(gen) == (if k in was then was[k] else {}) + {GidOf(s).value};
    }
  }

  lemma NoGids()
    ensures Gids([]) == {}
  {
  }

  lemma ArrivalInS(gens: Gens, k: Key, s: Sentence)
    ensures var (was, now) := (SContext(gens), SContext(gens[k := Arrivals(gens, k) + [s]]));
            now == if NamesSource(s) then was[k := s.s.value] else was
  {
    var gen := Arrivals(gens, k) + [s];
    assert gen[..|gen| - 1] == Arrivals(gens, k);
    assert LatestS(gen) == if NamesSource(s) then s.s else LatestS(Arrivals(gens, k));
    var (was, now) := (SContext(gens), SContext(gens[k := gen]));
    assert forall j :: j != k ==> (j in now <==> j in was);
    assert k in now <==> LatestS(gen).Some?;
    assert k in was <==> LatestS(Arrivals(gens, k)).Some?;
  }

  /** What the contexts hold of one key. */
  lemma ContextsTell(gens: Gens, key: Key, c: Settings)
    ensures var gen := Arrivals(gens, key);
            && (if key in CContext(gens, c) then c.preserveC && SmallestC(gen) == Some(CContext(gens, c)[key])
                else !c.preserveC || SmallestC(gen).None?)
            && (if key in GidContext(gens, c) then c.preserveGid && Gids(gen) == GidContext(gens, c)[key]
                else !c.preserveGid || Gids(gen) == {})
            && LatestS(gen) == (if key in SContext(gens) then Some(SContext(gens)[key]) else None)
  {
    NoGids();
  }

  lemma DiscardedFromContexts(gens: Gens, keys: set<Key>, c: Settings)
    ensures CContext(gens - keys, c) == CContext(gens, c) - keys
    ensures GidContext(gens - keys, c) == GidContext(gens, c) - keys
    ensures SContext(gens - keys) == SContext(gens) - keys
  {
  }

  /** The discarded keys are what makes the kept arrivals those of live generations. */
  lemma DiscardsKeepGenerations(st: State, f: Fragment, now: int, c: Settings)
    requires ValidLimits(c.limits) && st.gens.Keys == st.groups.Keys
    ensures var (next, o) := FeedPart(st.groups, f, now, c.limits);
            var kept := st.gens - o.discarded;
            && (o.status != Conflict ==> Arrivals(kept, f.key) == LiveGeneration(st, f.key, now, c))
            && (f.key in next <==> o.status == Pending || o.status == Duplicate)
            && (forall k :: k != f.key ==> (k in next <==> k in kept))
  {
    DiscardsAreExact(st.groups, f, now, c.limits);
    hide FeedPart;
  }

  lemma NextGensAre(st: State, next: Groups, key: Key, gen: Generation, kept: Gens)
    requires kept.Keys <= st.gens.Keys && forall k :: k in kept ==> kept[k] == st.gens[k]
    requires forall k :: k != key ==> (k in next <==> k in kept)
    ensures NextGens(st, next, key, gen) == if key in next then kept[key := gen] else kept - {key}
  {
  }

  /** The shapes of a feed, and what the generations become. */
  lemma FeedShapes(st: State, a: Arriving, c: Settings)
    requires ValidLimits(c.limits) && st.gens.Keys == st.groups.Keys
    ensures var (f, now) := (a.sentence.fragment, a.readings.now);
            var (next, o) := Feed(st.groups, f, now, c.limits);
            var kept := st.gens - o.discarded;
            && (o.key.None? <==> o.status in {Invalid, Single, LimitExceeded})
            && (o.key.None? ==> next == st.groups && o.discarded == {})
            && (o.key.Some? ==>
                  var (key, gen) := (o.key.value, LiveGeneration(st, o.key.value, now, c) + [a.sentence]);
                  && (o.status != Conflict ==> gen == Arrivals(kept, key) + [a.sentence])
                  && NextGens(st, next, key, gen)
                     == if o.status in {Pending, Duplicate} then kept[key := gen] else kept - {key})
  {
    var (f, now) := (a.sentence.fragment, a.readings.now);
    if Shortcut(f, c.limits).None? {
      var (next, o) := FeedPart(st.groups, f.value, now, c.limits);
      DiscardsKeepGenerations(st, f.value, now, c);
      OwnOutcome(st.groups, f.value, now, c.limits);
      assert o.key == Some(f.value.key);
      hide FeedPart;
      NextGensAre(st, next, f.value.key, LiveGeneration(st, f.value.key, now, c) + [a.sentence], st.gens - o.discarded);
    }
  }

  datatype Response = Response(gens: Gens, filter: Filter, outputs: seq<Output>)

  /** What follows a feed, in terms of the arrivals kept from generations that did not end. */
  function Respond(
    kept: Gens, f: Filter, status: Status, key: Option<Key>, lines: seq<string>,
    a: Arriving, frame: Frame, snapshot: Snapshot, c: Settings): Response
    requires Lookups(snapshot) <= |a.readings.ticks|
  {
    var (s, r) := (a.sentence, a.readings);
    if status == Single then
      var (filter, outputs) := Emit(f, lines, SingleStamp(s, c), SingleGid(s, r.gid, c), s.s, frame, snapshot, r, c);
      Response(kept, filter, outputs)
    else if key.None? then Response(kept, f, [])
    else
      var was := Arrivals(kept, key.value);
      match status
      case Complete =>
        var (filter, outputs) := Emit(
          f, lines, CompletedStamp(was + [s], c), CompletedGid(was + [s], r.gid, c), Or(s.s, LatestS(was)),
          frame, snapshot, r, c);
        Response(kept - {key.value}, filter, outputs)
      case Conflict => Response(kept - {key.value}, f, [])
      case _ => Response(kept[key.value := was + [s]], f, [])
  }

  /** Answering from kept arrivals is what the model asks for. */
  lemma RespondIsProcessOne(st: State, a: Arriving, frame: Frame, snapshot: Snapshot, c: Settings)
    requires ValidLimits(c.limits) && st.gens.Keys == st.groups.Keys
    requires Lookups(snapshot) <= |a.readings.ticks|
    ensures var (next, o) := Feed(st.groups, a.sentence.fragment, a.readings.now, c.limits);
            var r := Respond(st.gens - o.discarded, st.filter, o.status, o.key, o.sentences, a, frame, snapshot, c);
            ProcessOne(st, a, frame, snapshot, c) == (State(next, r.gens, r.filter), r.outputs)
  {
    FeedShapes(st, a, c);
    LastArrival(st, a, c);
    hide Feed, Emit, NextGens, LiveGeneration, Arrivals, CompletedStamp, CompletedGid, LatestS;
    assert st.gens - {} == st.gens;
  }

  lemma LastArrival(st: State, a: Arriving, c: Settings)
    requires ValidLimits(c.limits) && st.gens.Keys == st.groups.Keys
    ensures var (f, now) := (a.sentence.fragment, a.readings.now);
            var o := Feed(st.groups, f, now, c.limits).1;
            o.key.Some? && o.status != Conflict ==>
              LiveGeneration(st, o.key.value, now, c) == Arrivals(st.gens - o.discarded, o.key.value)
  {
    FeedShapes(st, a, c);
    hide Feed, LiveGeneration, Arrivals, NextGens;
    var (f, now) := (a.sentence.fragment, a.readings.now);
    var o := Feed(st.groups, f, now, c.limits).1;
    if o.key.Some? && o.status != Conflict {
      var (x, y) := (LiveGeneration(st, o.key.value, now, c), Arrivals(st.gens - o.discarded, o.key.value));
      assert (x + [a.sentence])[..|x|] == x && (y + [a.sentence])[..|y|] == y;
      assert |x + [a.sentence]| == |y + [a.sentence]|;
    }
  }

  /** A feed brings in no group but its own. */
  lemma OthersWereThere(g: Groups, f: Option<Fragment>, now: int, l: Limits)
    requires ValidLimits(l)
    ensures var (next, o) := Feed(g, f, now, l);
            o.key.Some? ==> forall k :: k in next && k != o.key.value ==> k in g
  {
    hide FeedPart;
    if Shortcut(f, l).None? {
      DiscardsAreExact(g, f.value, now, l);
      ReportsItsKey(g, f.value, now, l);
    }
  }

  lemma ReportsItsKey(g: Groups, f: Fragment, now: int, l: Limits)
    ensures FeedPart(g, f, now, l).1.key == Some(f.key)
  {
    hide Open, Absorb, Live, Gone;
  }

  lemma OwnConflict(g: Groups, f: Option<Fragment>, now: int, l: Limits)
    requires ValidLimits(l)
    ensures var o := Feed(g, f, now, l).1; o.status == Conflict ==> o.key.Some? && o.key.value in o.discarded
  {
    hide FeedPart, Follows;
    if Shortcut(f, l).None? {
      DiscardsAreExact(g, f.value, now, l);
      ReportsItsKey(g, f.value, now, l);
    }
  }

  lemma NextGensKeys(st: State, next: Groups, key: Key, gen: Generation)
    requires forall k :: k in next && k != key ==> k in st.gens
    ensures NextGens(st, next, key, gen).Keys == next.Keys
  {
  }

  /** The generations are those of the live groups, after every sentence. */
  lemma KeysFollowGroups(st: State, a: Arriving, frame: Frame, snapshot: Snapshot, c: Settings)
    requires ValidLimits(c.limits) && st.gens.Keys == st.groups.Keys
    requires Lookups(snapshot) <= |a.readings.ticks|
    ensures var next := ProcessOne(st, a, frame, snapshot, c).0; next.gens.Keys == next.groups.Keys
  {
    OthersWereThere(st.groups, a.sentence.fragment, a.readings.now, c.limits);
    hide Feed, Emit, NextGens;
    var (next, o) := Feed(st.groups, a.sentence.fragment, a.readings.now, c.limits);
    if o.key.Some? {
      NextGensKeys(st, next, o.key.value, LiveGeneration(st, o.key.value, a.readings.now, c) + [a.sentence]);
    }
  }
}
