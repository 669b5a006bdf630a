/**
 `PythonDataPlaneProcessor` (core/python_data_plane.py): an assembler, a
 duplicate filter and three context dictionaries that must follow the
 assembler's generations, proved against ProcessorModel.dfy.
 */
module Processor {
  import opened Common
  import opened AcceptanceLog
  import opened KeyOrder
  import opened AssemblyModel
  import opened Assembler
  import opened Dedup
  import opened ProcessorModel

  datatype ResetReport = ResetReport(groups: nat, entries: nat, sContexts: nat, cContexts: nat, gidContexts: nat)

  class PythonDataPlaneProcessor {
    const c: Settings
    const assembler: AIVDMAssembler
    const deduplicator: Deduplicator
    var sCtx: map<Key, string>
    var cCtx: map<Key, nat>
    var gidCtx: map<Key, set<string>>
    /** The arrivals of every live generation. */
    ghost var gens: Gens

    ghost function Objects(): set<object>
      reads this, assembler
    {
      {this, deduplicator} + assembler.Objects()
    }

    /** The dictionaries are what the arrivals of the live generations make them. */
    ghost predicate Contexts()
      reads this
    {
      sCtx == SContext(gens) && cCtx == CContext(gens, c) && gidCtx == GidContext(gens, c)
    }

    ghost predicate Wired()
      reads assembler, assembler.Objects(), deduplicator
    {
      && this !in assembler.Objects() && deduplicator !in assembler.Objects()
      && assembler.Valid() && assembler.limits == c.limits
      && deduplicator.Valid() && deduplicator.ttl == c.ttl && deduplicator.maxEntries == c.cap
    }

    ghost predicate Valid()
      reads Objects()
    {
      Wired() && Contexts() && gens.Keys == assembler.model.Keys
    }

    ghost function Abstract(): State
      reads this, assembler, deduplicator
    {
      State(assembler.model, gens, deduplicator.past)
    }

    constructor (c: Settings, ghost now: int)
      requires ValidLimits(c.limits) && ValidCapacity(c.cap)
      ensures assembler.clock == now && Valid() && Abstract() == State(map[], map[], Empty(now)) && this.c == c
      ensures fresh(assembler) && fresh(deduplicator) && assembler.groups == map[]
    {
      hide SContext, CContext, GidContext, Sane, Accounted, Sound;
      NoContexts(c);
      this.c := c;
      assembler := new AIVDMAssembler(c.limits, now);
      deduplicator := new Deduplicator(c.ttl, c.cap, now);
      sCtx, cCtx, gidCtx, gens := map[], map[], map[], map[];
    }

    /** `_discard_multipart_contexts`. */
    method DiscardContexts(keys: seq<Key>)
      modifies this`sCtx, this`cCtx, this`gidCtx
      ensures sCtx == old(sCtx) - (set k | k in keys)
      ensures cCtx == old(cCtx) - (set k | k in keys)
      ensures gidCtx == old(gidCtx) - (set k | k in keys)
    {
      for i := 0 to |keys|
        invariant sCtx == old(sCtx) - (set k | k in keys[..i])
        invariant cCtx == old(cCtx) - (set k | k in keys[..i])
        invariant gidCtx == old(gidCtx) - (set k | k in keys[..i])
      {
        ghost var more := keys[..i + 1];
        assert more == keys[..i] + [keys[i]];
        assert (set k | k in more) == (set k | k in keys[..i]) + {keys[i]};
        sCtx, cCtx, gidCtx := sCtx - {keys[i]}, cCtx - {keys[i]}, gidCtx - {keys[i]};
      }
      assert keys[..|keys|] == keys;
    }

    method NoteC(key: Key, s: Sentence)
      requires cCtx == CContext(gens, c)
      modifies this`cCtx
      ensures cCtx == CContext(gens[key := Arrivals(gens, key) + [s]], c)
    {
      ArrivalInC(gens, key, s, c);
      hide CContext;
      var validC := if c.preserveC then s.c else None;
      if validC.Some? {
        cCtx := cCtx[key := if key in cCtx then Min(cCtx[key], validC.value) else validC.value];
      }
    }

    method NoteGid(key: Key, s: Sentence)
      requires gidCtx == GidContext(gens, c)
      modifies this`gidCtx
      ensures gidCtx == GidContext(gens[key := Arrivals(gens, key) + [s]], c)
    {
      ArrivalInGids(gens, key, s, c);
      hide GidContext;
      if c.preserveGid && GidOf(s).Some? {
        gidCtx := gidCtx[key := (if key in gidCtx then gidCtx[key] else {}) + {GidOf(s).value}];
      }
    }

    method NoteS(key: Key, s: Sentence)
      requires sCtx == SContext(gens)
      modifies this`sCtx
      ensures sCtx == SContext(gens[key := Arrivals(gens, key) + [s]])
    {
      ArrivalInS(gens, key, s);
      hide SContext;
      if s.s.Some? && s.g.Some? {
        sCtx := sCtx[key := s.s.value];
      }
    }

    /** The targets that have not been given the message lately, asked one after the other. */
    method EligibleTargets(message: seq<string>, targets: seq<nat>, ticks: seq<int>) returns (eligible: seq<nat>)
      requires deduplicator.Valid() && deduplicator.ttl == c.ttl && deduplicator.maxEntries == c.cap
      requires |targets| <= |ticks| && Rising(deduplicator.past.clock, ticks)
      modifies deduplicator
      ensures deduplicator.Valid()
      ensures (deduplicator.past, eligible) == Eligible(old(deduplicator.past), message, targets, ticks, c)
      ensures deduplicator.past.clock <= Last(old(deduplicator.past.clock), ticks)
    {
      eligible := [];
      var i := 0;
      ghost var start := deduplicator.past;
      assert targets[0..] == targets && ticks[0..] == ticks;
      WithFirstNone(Eligible(start, message, targets, ticks, c));
      hide WithFirst, Eligible;
      while i < |targets|
        invariant i <= |targets| && deduplicator.Valid()
        invariant Rising(deduplicator.past.clock, ticks[i..])
        invariant Eligible(start, message, targets, ticks, c)
                  == WithFirst(eligible, Eligible(deduplicator.past, message, targets[i..], ticks[i..], c))
        invariant Last(deduplicator.past.clock, ticks[i..]) == Last(start.clock, ticks)
      {
        EligibleStep(deduplicator.past, message, targets[i..], ticks[i..], eligible, c);
        assert ticks[i..][1..] == ticks[i + 1..] && targets[i..][1..] == targets[i + 1..];
        var unique := deduplicator.IsUnique(message, Some(targets[i]), ticks[i]);
        if unique {
          eligible := eligible + [targets[i]];
        }
        i := i + 1;
      }
      assert targets[i..] == [];
      RisingBelowLast(deduplicator.past.clock, ticks[i..]);
      NobodyLeft(deduplicator.past, message, ticks[i..], eligible, c);
    }

    /** Whether a message is sent, and to which targets. */
    method DecideTargets(message: seq<string>, snapshot: Snapshot, ticks: seq<int>)
      returns (sent: bool, targets: seq<nat>)
      requires deduplicator.Valid() && deduplicator.ttl == c.ttl && deduplicator.maxEntries == c.cap
      requires Lookups(snapshot) <= |ticks| && Rising(deduplicator.past.clock, ticks)
      modifies deduplicator
      ensures deduplicator.Valid()
      ensures (deduplicator.past, sent, targets) == Decide(old(deduplicator.past), message, snapshot, ticks, c)
      ensures deduplicator.past.clock <= Last(old(deduplicator.past.clock), ticks)
    {
      RisingBelowLast(deduplicator.past.clock, ticks);
      match snapshot.mode {
        case Global =>
          targets := snapshot.targets;
          sent := deduplicator.IsUnique(message, None, ticks[0]);
        case PerTarget =>
          targets := EligibleTargets(message, snapshot.targets, ticks);
          sent := |targets| > 0;
      }
    }

    /** Builds the outputs of a message part by part. */
    method BuildParts(lines: seq<string>, stamp: Stamp, gid: string, name: string, targets: seq<nat>, wall: int)
      returns (outputs: seq<Output>)
      ensures outputs == MessageParts(lines, stamp, gid, name, targets, wall, c.tagSingle)
    {
      var n := |lines|;
      ghost var parts := MessageParts(lines, stamp, gid, name, targets, wall, c.tagSingle);
      outputs := [];
      for i := 0 to n
        invariant outputs == parts[..i]
      {
        var g := if n > 1 || c.tagSingle then Some((i + 1, n, gid)) else None;
        outputs := outputs + [Output(lines[i], i == 0, HeaderTime(stamp, wall), name, g, targets)];
        assert parts[..i + 1] == parts[..i] + [parts[i]];
      }
      assert parts[..n] == parts;
    }

    /** Decides on a message and builds its outputs. */
    method EmitMessage(
      lines: seq<string>, stamp: Stamp, gid: string, s: Option<string>, frame: Frame, snapshot: Snapshot, r: Readings)
      returns (outputs: seq<Output>)
      requires Wired()
      requires Lookups(snapshot) <= |r.ticks| && Rising(deduplicator.past.clock, r.ticks)
      modifies deduplicator
      ensures Wired()
      ensures (deduplicator.past, outputs)
              == Emit(old(deduplicator.past), lines, stamp, gid, s, frame, snapshot, r, c)
      ensures deduplicator.past.clock <= Last(old(deduplicator.past.clock), r.ticks)
    {
      hide Decide, ChooseS, Rising, Last, MessageParts;
      var sent, targets := DecideTargets(lines, snapshot, r.ticks);
      if sent {
        var name := ChooseS(c.station, Or(frame.alias, s), frame.leadingS, frame.remoteIp);
        outputs := BuildParts(lines, stamp, gid, name, targets, r.wall);
      } else {
        outputs := [];
      }
    }

    /** Ended generations leave the contexts. */
    method ForgetGenerations(keys: seq<Key>)
      requires Contexts()
      modifies this`sCtx, this`cCtx, this`gidCtx, this`gens
      ensures Contexts() && gens == old(gens) - (set k | k in keys)
    {
      DiscardContexts(keys);
      DiscardedFromContexts(gens, (set k | k in keys), c);
      gens := gens - (set k | k in keys);
    }

    /** Feeds the assembler. */
    method FeedAssembler(f: Option<Fragment>, now: int) returns (o: AssemblyOutcome)
      requires Wired() && assembler.clock <= now
      modifies assembler.Objects()
      ensures Wired() && assembler.clock == now && fresh(assembler.Objects() - old(assembler.Objects()))
      ensures this !in assembler.Objects() && this !in old(assembler.Objects())
      ensures var (next, r) := AssemblyModel.Feed(old(assembler.model), f, now, c.limits);
              && assembler.model == next
              && o.status == r.status && o.key == r.key && o.sentences == r.sentences && Lists(o.discarded, r.discarded)
    {
      hide AssemblyModel.Feed, Lists;
      o := assembler.Feed(f, now);
    }

    /** Feeds the assembler and forgets the arrivals of every generation that ended. */
    method FeedSentence(s: Sentence, now: int) returns (o: AssemblyOutcome)
      requires Valid() && assembler.clock <= now
      modifies this`sCtx, this`cCtx, this`gidCtx, this`gens, assembler.Objects()
      ensures Wired() && Contexts() && assembler.clock == now
      ensures fresh(assembler.Objects() - old(assembler.Objects()))
      ensures var (next, r) := AssemblyModel.Feed(old(assembler.model), s.fragment, now, c.limits);
              && assembler.model == next && gens == old(gens) - r.discarded
              && o.status == r.status && o.key == r.key && o.sentences == r.sentences
    {
      hide Contexts, AssemblyModel.Feed, Lists, Wired;
      o := FeedAssembler(s.fragment, now);
      ListsItself(o.discarded, AssemblyModel.Feed(old(assembler.model), s.fragment, now, c.limits).1.discarded);
      ForgetGenerations(o.discarded);
    }

    /** The stamp, group id and source of a completed message, from the contexts; the last arrival is in `c` and `gid`. */
    method SelectMetadata(key: Key, s: Sentence, made: string, ghost was: Generation)
      returns (stamp: Stamp, gid: string, incoming: Option<string>)
      requires was == Arrivals(gens, key) && sCtx == SContext(gens)
      requires cCtx == CContext(gens[key := was + [s]], c) && gidCtx == GidContext(gens[key := was + [s]], c)
      ensures stamp == CompletedStamp(was + [s], c) && gid == CompletedGid(was + [s], made, c)
      ensures incoming == Or(s.s, LatestS(was))
    {
      ContextsTell(gens, key, c);
      ContextsTell(gens[key := was + [s]], key, c);
      hide SContext, CContext, GidContext, SmallestC, Gids, LatestS;
      var selected := if c.preserveC && key in cCtx then Some(cCtx[key]) else None;
      stamp := if selected.None? then NoStamp else if selected.value == 0 then ZeroText else Number(selected.value);
      var observed := if key in gidCtx then gidCtx[key] else {};
      gid := if c.preserveGid && |observed| == 1 then Only(observed) else made;
      incoming := Or(s.s, if key in sCtx then Some(sCtx[key]) else None);
    }

    /** Normal completion consumes the metadata. */
    method ForgetMessage(key: Key, ghost gen: Generation)
      requires sCtx == SContext(gens)
      requires cCtx == CContext(gens[key := gen], c) && gidCtx == GidContext(gens[key := gen], c)
      modifies this`sCtx, this`cCtx, this`gidCtx, this`gens
      ensures Contexts() && gens == old(gens) - {key}
    {
      DiscardContexts([key]);
      assert (set k | k in [key]) == {key};
      DiscardedFromContexts(gens[key := gen], {key}, c);
      DiscardedFromContexts(gens, {key}, c);
      assert gens[key := gen] - {key} == gens - {key};
      gens := gens - {key};
    }

    lemma WiredApart()
      requires Wired()
      ensures this !in assembler.Objects() && deduplicator !in assembler.Objects()
      ensures assembler.limits == c.limits && ValidLimits(c.limits)
    {
    }

    /** A completed message takes its metadata from the contexts and leaves them. */
    method CompleteMessage(key: Key, s: Sentence, lines: seq<string>, frame: Frame, snapshot: Snapshot, r: Readings)
      returns (outputs: seq<Output>)
      requires Wired() && Contexts()
      requires Lookups(snapshot) <= |r.ticks| && Rising(deduplicator.past.clock, r.ticks)
      modifies this`sCtx, this`cCtx, this`gidCtx, this`gens, deduplicator
      ensures Wired() && Contexts() && gens == old(gens) - {key}
      ensures var was := Arrivals(old(gens), key);
              var gen := was + [s];
              (deduplicator.past, outputs)
              == Emit(old(deduplicator.past), lines, CompletedStamp(gen, c), CompletedGid(gen, r.gid, c),
                      Or(s.s, LatestS(was)), frame, snapshot, r, c)
      ensures deduplicator.past.clock <= Last(old(deduplicator.past.clock), r.ticks)
    {
      hide SContext, CContext, GidContext, Emit, CompletedStamp, CompletedGid, LatestS, Arrivals, Wired, Last, Rising, Lookups,
        Or;
      WiredApart();
      ghost var was := Arrivals(gens, key);
      NoteC(key, s);
      NoteGid(key, s);
      var stamp, gid, incoming := SelectMetadata(key, s, r.gid, was);
      outputs := EmitMessage(lines, stamp, gid, incoming, frame, snapshot, r);
      ForgetMessage(key, was + [s]);
    }

    /** An incomplete message takes the arrival into its contexts. */
    method NoteIncomplete(key: Key, s: Sentence)
      requires Contexts()
      modifies this`sCtx, this`cCtx, this`gidCtx, this`gens
      ensures Contexts() && gens == old(gens)[key := Arrivals(old(gens), key) + [s]]
    {
      hide SContext, CContext, GidContext, Arrivals;
      NoteC(key, s);
      NoteGid(key, s);
      NoteS(key, s);
      gens := gens[key := Arrivals(gens, key) + [s]];
    }

    /** What follows a feed. */
    method Answer(o: AssemblyOutcome, a: Arriving, frame: Frame, snapshot: Snapshot) returns (outputs: seq<Output>)
      requires Wired() && Contexts()
      requires o.key.None? <==> o.status in {Invalid, Single, LimitExceeded}
      requires o.status == Conflict ==> o.key.value !in gens
      requires Lookups(snapshot) <= |a.readings.ticks| && Rising(deduplicator.past.clock, a.readings.ticks)
      modifies this`sCtx, this`cCtx, this`gidCtx, this`gens, deduplicator
      ensures Wired() && Contexts()
      ensures Response(gens, deduplicator.past, outputs)
              == Respond(old(gens), old(deduplicator.past), o.status, o.key, o.sentences, a, frame, snapshot, c)
      ensures deduplicator.past.clock <= Last(old(deduplicator.past.clock), a.readings.ticks)
    {
      hide Contexts, Emit, CompletedStamp, CompletedGid, LatestS, Or, Arrivals, Wired, Rising, Last, Lookups, SingleStamp,
        SingleGid;
      WiredApart();
      var (s, r) := (a.sentence, a.readings);
      RisingBelowLast(deduplicator.past.clock, r.ticks);
      outputs := [];
      match o.status {
        case Single =>
          outputs := EmitMessage(o.sentences, SingleStamp(s, c), SingleGid(s, r.gid, c), s.s, frame, snapshot, r);
        case Complete =>
          outputs := CompleteMessage(o.key.value, s, o.sentences, frame, snapshot, r);
        case Pending | Duplicate =>
          NoteIncomplete(o.key.value, s);
        case Conflict =>
          assert gens - {o.key.value} == gens;
        case _ =>
      }
    }

    /** The body of the loop over the sentences of a frame. */
    method ProcessSentence(a: Arriving, frame: Frame, snapshot: Snapshot) returns (outputs: seq<Output>)
      requires Valid() && assembler.clock <= a.readings.now
      requires Lookups(snapshot) <= |a.readings.ticks| && Rising(deduplicator.past.clock, a.readings.ticks)
      modifies Objects()
      ensures Valid() && assembler.clock == a.readings.now && fresh(Objects() - old(Objects()))
      ensures (Abstract(), outputs) == ProcessOne(old(Abstract()), a, frame, snapshot, c)
      ensures deduplicator.past.clock <= Last(old(deduplicator.past.clock), a.readings.ticks)
    {
      hide Contexts, Wired, AssemblyModel.Feed, Respond, ProcessOne, NextGens, LiveGeneration, Arrivals, Last, Rising, Lookups;
      WiredApart();
      ghost var st := Abstract();
      FeedShapes(st, a, c);
      RespondIsProcessOne(st, a, frame, snapshot, c);
      KeysFollowGroups(st, a, frame, snapshot, c);
      OwnConflict(st.groups, a.sentence.fragment, a.readings.now, c.limits);
      var o := FeedSentence(a.sentence, a.readings.now);
      outputs := Answer(o, a, frame, snapshot);
    }

    /** `process`: the sentences of one frame, in order. */
    method Process(a: seq<Arriving>, frame: Frame, snapshot: Snapshot) returns (outputs: seq<Output>)
      requires Valid() && InStep(a, snapshot, assembler.clock, deduplicator.past.clock)
      modifies Objects()
      ensures Valid() && fresh(Objects() - old(Objects()))
      ensures (Abstract(), outputs) == ProcessorModel.Process(old(Abstract()), a, frame, snapshot, c)
    {
      hide ProcessorModel.Process, ProcessOne, WithOutputs, InStep, Valid, Objects, Abstract;
      outputs := [];
      var i := 0;
      ghost var st := Abstract();
      assert a[0..] == a;
      WithOutputsNone(ProcessorModel.Process(st, a, frame, snapshot, c));
      while i < |a|
        invariant i <= |a| && Valid() && fresh(Objects() - old(Objects()))
        invariant InStep(a[i..], snapshot, assembler.clock, deduplicator.past.clock)
        invariant ProcessorModel.Process(st, a, frame, snapshot, c)
                  == WithOutputs(outputs, ProcessorModel.Process(Abstract(), a[i..], frame, snapshot, c))
      {
        InStepHead(a[i..], snapshot, assembler.clock, deduplicator.past.clock);
        ProcessStep(Abstract(), a[i..], frame, snapshot, c, outputs);
        assert a[i..][1..] == a[i + 1..] && a[i..][0] == a[i];
        ghost var tick := Last(deduplicator.past.clock, a[i].readings.ticks);
        ghost var mid := Objects();
        label Before:
        var more := ProcessSentence(a[i], frame, snapshot);
        forall o | o in Objects() && o !in old(Objects())
          ensures fresh(o)
        {
          if o !in mid {
            assert fresh@Before(o);
          }
        }
        InStepEarlier(a[i + 1..], snapshot, assembler.clock, tick, deduplicator.past.clock);
        outputs := outputs + more;
        i := i + 1;
      }
      assert a[i..] == [];
      ProcessEnds(Abstract(), frame, snapshot, c, outputs);
    }

    /** `reset`: assembler, filter, then the contexts. */
    method Reset() returns (report: ResetReport)
      requires Valid()
      modifies Objects()
      ensures Valid() && fresh(Objects() - old(Objects()))
      ensures Abstract() == State(map[], map[], Empty(old(deduplicator.past.clock)))
      ensures report == ResetReport(
                |old(assembler.model)|, |old(deduplicator.cache)|, |old(sCtx)|, |old(cCtx)|, |old(gidCtx)|)
    {
      var keys := assembler.Reset();
      var entries := deduplicator.Reset();
      report := ResetReport(|keys|, entries, |sCtx|, |cCtx|, |gidCtx|);
      sCtx, cCtx, gidCtx, gens := map[], map[], map[], map[];
      NoContexts(c);
    }
  }

  /** Readings for a whole frame: enough of them, and never decreasing. */
  predicate InStep(a: seq<Arriving>, snapshot: Snapshot, clock: int, tick: int)
    decreases |a|
  {
    a == [] ||
    (&& Lookups(snapshot) <= |a[0].readings.ticks|
     && clock <= a[0].readings.now && Rising(tick, a[0].readings.ticks)
     && InStep(a[1..], snapshot, a[0].readings.now, Last(tick, a[0].readings.ticks)))
  }

  function WithOutputs(first: seq<Output>, r: (State, seq<Output>)): (State, seq<Output>) {
    (r.0, first + r.1)
  }

  lemma ProcessEnds(st: State, frame: Frame, snapshot: Snapshot, c: Settings, first: seq<Output>)
    ensures WithOutputs(first, ProcessorModel.Process(st, [], frame, snapshot, c)) == (st, first)
  {
    assert first + [] == first;
  }

  lemma InStepHead(a: seq<Arriving>, snapshot: Snapshot, clock: int, tick: int)
    requires a != [] && InStep(a, snapshot, clock, tick)
    ensures Lookups(snapshot) <= |a[0].readings.ticks| && clock <= a[0].readings.now && Rising(tick, a[0].readings.ticks)
    ensures InStep(a[1..], snapshot, a[0].readings.now, Last(tick, a[0].readings.ticks))
  {
  }

  lemma ProcessStep(
    st: State, a: seq<Arriving>, frame: Frame, snapshot: Snapshot, c: Settings, first: seq<Output>)
    requires a != [] && Lookups(snapshot) <= |a[0].readings.ticks|
    ensures var (mid, more) := ProcessOne(st, a[0], frame, snapshot, c);
            WithOutputs(first, ProcessorModel.Process(st, a, frame, snapshot, c))
            == WithOutputs(first + more, ProcessorModel.Process(mid, a[1..], frame, snapshot, c))
  {
    hide ProcessOne;
    var (mid, more) := ProcessOne(st, a[0], frame, snapshot, c);
    var rest := ProcessorModel.Process(mid, a[1..], frame, snapshot, c).1;
    assert first + (more + rest) == (first + more) + rest;
  }

  lemma {:induction false} RisingEarlier(tick: int, earlier: int, ticks: seq<int>)
    requires Rising(tick, ticks) && earlier <= tick
    ensures Rising(earlier, ticks) && Last(earlier, ticks) <= Last(tick, ticks)
  {
  }

  lemma {:induction false} InStepEarlier(a: seq<Arriving>, snapshot: Snapshot, clock: int, tick: int, earlier: int)
    requires InStep(a, snapshot, clock, tick) && earlier <= tick
    ensures InStep(a, snapshot, clock, earlier)
    decreases |a|
  {
    if a != [] {
      var ticks := a[0].readings.ticks;
      RisingEarlier(tick, earlier, ticks);
      InStepEarlier(a[1..], snapshot, a[0].readings.now, Last(tick, ticks), Last(earlier, ticks));
    }
  }

  lemma WithOutputsNone(r: (State, seq<Output>))
    ensures WithOutputs([], r) == r
  {
    assert [] + r.1 == r.1;
  }

  lemma NoContexts(c: Settings)
    ensures SContext(map[]) == map[] && CContext(map[], c) == map[] && GidContext(map[], c) == map[]
  {
  }

  function WithFirst(first: seq<nat>, r: (Filter, seq<nat>)): (Filter, seq<nat>) {
    (r.0, first + r.1)
  }

  lemma WithFirstNone(r: (Filter, seq<nat>))
    ensures WithFirst([], r) == r
  {
    assert [] + r.1 == r.1;
  }

  lemma NobodyLeft(f: Filter, message: seq<string>, ticks: seq<int>, first: seq<nat>, c: Settings)
    ensures WithFirst(first, Eligible(f, message, [], ticks, c)) == (f, first)
  {
    assert first + [] == first;
  }

  lemma EligibleStep(f: Filter, message: seq<string>, targets: seq<nat>, ticks: seq<int>, first: seq<nat>, c: Settings)
    requires 0 < |targets| <= |ticks| && f.gone <= |f.log|
    ensures var key := DedupKey(Some(targets[0]), message);
            WithFirst(first, Eligible(f, message, targets, ticks, c))
            == WithFirst(
              if Blocks(f.log, key, ticks[0], c.ttl, c.cap) then first else first + [targets[0]],
              Eligible(Offered(f, key, ticks[0], c.ttl, c.cap), message, targets[1..], ticks[1..], c))
  {
    hide Offered, Blocks;
    var key := DedupKey(Some(targets[0]), message);
    var rest := Eligible(Offered(f, key, ticks[0], c.ttl, c.cap), message, targets[1..], ticks[1..], c);
    hide Eligible;
    WithOneMore(first, targets[0], rest);
  }

  lemma WithOneMore(first: seq<nat>, one: nat, r: (Filter, seq<nat>))
    ensures WithFirst(first, (r.0, [one] + r.1)) == WithFirst(first + [one], r)
  {
    assert first + ([one] + r.1) == (first + [one]) + r.1;
  }

  lemma {:induction false} RisingBelowLast(clock: int, ticks: seq<int>)
    requires Rising(clock, ticks)
    ensures clock <= Last(clock, ticks)
    ensures |ticks| > 0 ==> ticks[0] <= Last(clock, ticks)
    decreases |ticks|
  {
    if |ticks| > 1 { RisingBelowLast(ticks[0], ticks[1..]); }
  }
}
