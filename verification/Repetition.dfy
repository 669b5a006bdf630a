/**
 When a target can be given the same message twice within the time-to-live
 (core/python_data_plane.py).  Global deduplication records a message once for
 all targets, per-target deduplication once for each; the two records never
 meet.  So repetition is impossible as long as the mode stays the same, and
 possible as soon as the routing moves from one mode to the other.
 */
module Repetition {
  import opened Common
  import opened AcceptanceLog
  import opened KeyOrder
  import opened AssemblyModel
  import opened Dedup
  import opened ProcessorModel
  import opened ProcessorLaws

  /** A message handed to one target; `entry` is the place of its acceptance in the filter's log. */
  datatype Sending = Sending(target: nat, lines: seq<string>, mode: Mode, entry: nat)

  /** The sendings in the outputs of one sentence. */
  function SendingsOf(outputs: seq<Output>, mode: Mode, place: nat): seq<Sending> {
    if outputs == [] then []
    else
      seq(|outputs[0].targets|, i requires 0 <= i < |outputs[0].targets| =>
        Sending(outputs[0].targets[i], LinesOf(outputs), mode, place + if mode == Global then 0 else i))
  }

  /** All sendings of a run, in order. */
  ghost function Sent(st: State, turns: seq<Turn>, c: Settings): seq<Sending>
    decreases |turns|
  {
    if turns == [] || Lookups(turns[0].snapshot) > |turns[0].a.readings.ticks| then [] else
    var t := turns[0];
    var (mid, outputs) := ProcessOne(st, t.a, t.frame, t.snapshot, c);
    SendingsOf(outputs, t.snapshot.mode, |st.filter.log|) + Sent(mid, turns[1..], c)
  }

  predicate NoDuplicates(s: seq<nat>) {
    forall i, j :: 0 <= i < j < |s| ==> s[i] != s[j]
  }

  /** Target tables name a target once. */
  predicate TargetsDiffer(turns: seq<Turn>) {
    forall i :: 0 <= i < |turns| ==> NoDuplicates(turns[i].snapshot.targets)
  }

  predicate SameMessage(x: Sending, y: Sending) {
    x.target == y.target && x.lines == y.lines
  }

  /** Acceptance times of two sendings. */
  predicate LifetimeApart(log: Log<DedupKey>, x: Sending, y: Sending, ttl: int) {
    x.entry < |log| && y.entry < |log| && log[y.entry].at - log[x.entry].at >= ttl
  }

  predicate ApartOrDifferent(log: Log<DedupKey>, sent: seq<Sending>, ttl: int, i: int, j: int)
    requires 0 <= i < |sent| && 0 <= j < |sent|
  {
    SameMessage(sent[i], sent[j]) ==> LifetimeApart(log, sent[i], sent[j], ttl)
  }

  /** No target is given a message again within the time-to-live. */
  predicate NoRepeats(log: Log<DedupKey>, sent: seq<Sending>, ttl: int) {
    forall i, j :: 0 <= i < j < |sent| ==> ApartOrDifferent(log, sent, ttl, i, j)
  }

  // ---------------------------------------------------- sendings and the filter's log

  function KeyOf(x: Sending): DedupKey {
    DedupKey(if x.mode == Global then None else Some(x.target), x.lines)
  }

  predicate Logged(x: Sending, keys: seq<DedupKey>, from: nat) {
    from <= x.entry < |keys| && keys[x.entry] == KeyOf(x)
  }

  /** Sendings of one message to one target under one mode have entries of their own. */
  predicate LaterEntry(sent: seq<Sending>, i: int, j: int)
    requires 0 <= i < |sent| && 0 <= j < |sent|
  {
    SameMessage(sent[i], sent[j]) && sent[i].mode == sent[j].mode ==> sent[i].entry < sent[j].entry
  }

  predicate WellLogged(sent: seq<Sending>, keys: seq<DedupKey>, from: nat) {
    && (forall i :: 0 <= i < |sent| ==> Logged(sent[i], keys, from))
    && (forall i, j :: 0 <= i < j < |sent| ==> LaterEntry(sent, i, j))
  }

  /** The sendings of one sentence are logged right behind what was logged before. */
  lemma OneTurnLogged(outputs: seq<Output>, mode: Mode, before: seq<DedupKey>, after: seq<DedupKey>)
    requires after == before + Recorded(outputs, LinesOf(outputs), mode)
    requires outputs != [] && mode == Global ==> NoDuplicates(outputs[0].targets)
    ensures WellLogged(SendingsOf(outputs, mode, |before|), after, |before|)
  {
    var sent := SendingsOf(outputs, mode, |before|);
    forall i | 0 <= i < |sent| ensures Logged(sent[i], after, |before|) {
      assert after[sent[i].entry] == Recorded(outputs, LinesOf(outputs), mode)[sent[i].entry - |before|];
    }
  }

  /** Two stretches of a run. */
  lemma WellLoggedConcat(a: seq<Sending>, b: seq<Sending>, mid: seq<DedupKey>, end: seq<DedupKey>, from: nat)
    requires WellLogged(a, mid, from) && WellLogged(b, end, |mid|) && mid <= end && from <= |mid|
    ensures WellLogged(a + b, end, from)
  {
    var sent := a + b;
    forall i | 0 <= i < |sent| ensures Logged(sent[i], end, from) {
      if i < |a| { assert Logged(a[i], mid, from); } else { assert Logged(b[i - |a|], end, |mid|); }
    }
    forall i, j | 0 <= i < j < |sent| ensures LaterEntry(sent, i, j) {
      if j < |a| {
        assert LaterEntry(a, i, j);
      } else if i >= |a| {
        assert LaterEntry(b, i - |a|, j - |a|);
      } else {
        assert Logged(a[i], mid, from) && Logged(b[j - |a|], end, |mid|);
      }
    }
  }

  /** In the global mode the targets of an output are those of the snapshot. */
  lemma GlobalTargets(st: State, t: Turn, c: Settings)
    requires Lookups(t.snapshot) <= |t.a.readings.ticks| && t.snapshot.mode == Global
    ensures var outputs := ProcessOne(st, t.a, t.frame, t.snapshot, c).1;
            outputs != [] ==> outputs[0].targets == t.snapshot.targets
  {
    hide Feed, Blocks, Offered, CompletedStamp, CompletedGid, LatestS, ChooseS, NextGens, LiveGeneration;
  }

  lemma {:induction false} EverySendingIsLogged(st: State, turns: seq<Turn>, clock: int, tick: int, c: Settings)
    requires Good(st, clock, tick, c) && Timely(turns, clock, tick) && TargetsDiffer(turns)
    ensures var end := Run(st, turns, c).0;
            KeysOf(st.filter.log) <= KeysOf(end.filter.log)
            && WellLogged(Sent(st, turns, c), KeysOf(end.filter.log), |KeysOf(st.filter.log)|)
    decreases |turns|
  {
    if turns == [] { return; }
    var (t, r) := (turns[0], turns[0].a.readings);
    RunUnfolds(st, turns, c);
    GoodReadings(st, clock, tick, c, r.ticks);
    if t.snapshot.mode == Global { GlobalTargets(st, t, c); }
    assert NoDuplicates(t.snapshot.targets);
    assert TargetsDiffer(turns[1..]);
    var (mid, outputs) := ProcessOne(st, t.a, t.frame, t.snapshot, c);
    assert Sent(st, turns, c) == SendingsOf(outputs, t.snapshot.mode, |st.filter.log|) + Sent(mid, turns[1..], c);
    hide ProcessOne, Good, Recorded, LinesOf, Run, Sent, SendingsOf, WellLogged;
    TurnKeepsGood(st, t, clock, tick, c);
    OneTurnLogged(outputs, t.snapshot.mode, KeysOf(st.filter.log), KeysOf(mid.filter.log));
    EverySendingIsLogged(mid, turns[1..], r.now, Last(tick, r.ticks), c);
    WellLoggedConcat(
      SendingsOf(outputs, t.snapshot.mode, |st.filter.log|), Sent(mid, turns[1..], c),
      KeysOf(mid.filter.log), KeysOf(Run(mid, turns[1..], c).0.filter.log), |KeysOf(st.filter.log)|);
  }

  lemma LoggedAreApart(f: Filter, ttl: int, x: Sending, y: Sending)
    requires Sound(f, ttl, None) && Logged(x, KeysOf(f.log), 0) && Logged(y, KeysOf(f.log), 0)
    requires x.entry < y.entry && KeyOf(x) == KeyOf(y)
    ensures LifetimeApart(f.log, x, y, ttl)
  {
    assert Apart(f.log, x.entry, y.entry, ttl, None);
  }

  function Begin(now: int): State {
    State(map[], map[], Empty(now))
  }

  /**
   Over every run without a limit on the filter: two sendings of one message to
   one target under the same mode are a time-to-live apart.
   */
  lemma RepeatsAreApart(turns: seq<Turn>, now: int, c: Settings, i: nat, j: nat)
    requires ValidLimits(c.limits) && c.cap.None? && Timely(turns, now, now) && TargetsDiffer(turns)
    requires i < j < |Sent(Begin(now), turns, c)|
    ensures var sent := Sent(Begin(now), turns, c);
            SameMessage(sent[i], sent[j]) && sent[i].mode == sent[j].mode ==>
              LifetimeApart(Run(Begin(now), turns, c).0.filter.log, sent[i], sent[j], c.ttl)
  {
    var st := Begin(now);
    GoodStart(now, c);
    hide Run, Sent, Timely, TargetsDiffer, ProcessOne;
    EverySendingIsLogged(st, turns, now, now, c);
    var late, lateTick := EveryRunIsRecorded(st, turns, now, now, c);
    var sent := Sent(st, turns, c);
    var end := Run(st, turns, c).0;
    assert LaterEntry(sent, i, j);
    assert Logged(sent[i], KeysOf(end.filter.log), 0) && Logged(sent[j], KeysOf(end.filter.log), 0);
    assert Sound(end.filter, c.ttl, c.cap);
    hide Sound, Logged, KeysOf;
    if SameMessage(sent[i], sent[j]) && sent[i].mode == sent[j].mode {
      LoggedAreApart(end.filter, c.ttl, sent[i], sent[j]);
    }
  }

  // ---------------------------------------------------------------- the exact condition

  function ModesOf(turns: seq<Turn>): seq<Mode> {
    seq(|turns|, i requires 0 <= i < |turns| => turns[i].snapshot.mode)
  }

  predicate OneMode(modes: seq<Mode>) {
    forall i, j :: 0 <= i < j < |modes| ==> modes[i] == modes[j]
  }

  lemma {:induction false} SendingModes(st: State, turns: seq<Turn>, c: Settings, i: nat)
    requires i < |Sent(st, turns, c)|
    ensures Sent(st, turns, c)[i].mode in ModesOf(turns)
    decreases |turns|
  {
    var t := turns[0];
    assert ModesOf(turns)[0] == t.snapshot.mode;
    assert ModesOf(turns) == [t.snapshot.mode] + ModesOf(turns[1..]);
    var (mid, outputs) := ProcessOne(st, t.a, t.frame, t.snapshot, c);
    hide ProcessOne;
    var first := SendingsOf(outputs, t.snapshot.mode, |st.filter.log|);
    if i >= |first| { SendingModes(mid, turns[1..], c, i - |first|); }
  }

  /** With one mode, routed or not, no target is given a message again within the time-to-live. */
  lemma OneModeNeverRepeats(turns: seq<Turn>, now: int, c: Settings)
    requires ValidLimits(c.limits) && c.cap.None? && Timely(turns, now, now) && TargetsDiffer(turns)
    requires OneMode(ModesOf(turns))
    ensures NoRepeats(Run(Begin(now), turns, c).0.filter.log, Sent(Begin(now), turns, c), c.ttl)
  {
    var sent := Sent(Begin(now), turns, c);
    var log := Run(Begin(now), turns, c).0.filter.log;
    hide Run, Sent, Timely, TargetsDiffer, LifetimeApart;
    forall i, j | 0 <= i < j < |sent| ensures ApartOrDifferent(log, sent, c.ttl, i, j) {
      RepeatsAreApart(turns, now, c, i, j);
      SendingModes(Begin(now), turns, c, i);
      SendingModes(Begin(now), turns, c, j);
      SameElement(ModesOf(turns), sent[i].mode, sent[j].mode);
    }
  }

  lemma SameElement(modes: seq<Mode>, x: Mode, y: Mode)
    requires OneMode(modes) && x in modes && y in modes
    ensures x == y
  {
    var i :| 0 <= i < |modes| && modes[i] == x;
    var j :| 0 <= j < |modes| && modes[j] == y;
    assert i < j ==> modes[i] == modes[j];
    assert j < i ==> modes[j] == modes[i];
  }

  // A run that sends one line to target 7 twice at the same moment.

  function Spare(now: int): Readings {
    Readings(now, [now], now, "")
  }

  /** A sentence that is no fragment. */
  function Idle(mode: Mode, now: int): Turn {
    Turn(Arriving(Sentence(None, None, None, None), Spare(now)), Frame(None, None, None), Snapshot(mode, [7]))
  }

  /** A complete message of one line. */
  function OneLine(mode: Mode, now: int): Turn {
    var fragment := Fragment(Key("", "", "", 1), 1, "line");
    Turn(Arriving(Sentence(Some(fragment), None, None, None), Spare(now)), Frame(None, None, None), Snapshot(mode, [7]))
  }

  /** Turns with the given modes; the two from place `k` on carry the line. */
  function Switching(modes: seq<Mode>, k: int, now: int): seq<Turn> {
    seq(|modes|, i requires 0 <= i < |modes| => if i == k || i == k + 1 then OneLine(modes[i], now) else Idle(modes[i], now))
  }

  lemma SwitchingTail(modes: seq<Mode>, k: int, now: int)
    requires modes != []
    ensures Switching(modes, k, now)[1..] == Switching(modes[1..], k - 1, now)
  {
  }

  lemma {:induction false} SwitchingIsTimely(modes: seq<Mode>, k: int, now: int)
    ensures Timely(Switching(modes, k, now), now, now)
    decreases |modes|
  {
    if modes != [] {
      var turns := Switching(modes, k, now);
      SwitchingTail(modes, k, now);
      SwitchingIsTimely(modes[1..], k - 1, now);
      hide Switching;
      var r := turns[0].a.readings;
      assert r == Spare(now) && Rising(now, r.ticks) && Last(now, r.ticks) == now;
    }
  }

  lemma SwitchingIsProper(modes: seq<Mode>, k: int, now: int)
    ensures Timely(Switching(modes, k, now), now, now) && TargetsDiffer(Switching(modes, k, now))
    ensures ModesOf(Switching(modes, k, now)) == modes
  {
    SwitchingIsTimely(modes, k, now);
  }

  lemma IdleDoesNothing(st: State, mode: Mode, now: int, c: Settings)
    ensures var t := Idle(mode, now); ProcessOne(st, t.a, t.frame, t.snapshot, c) == (st, [])
  {
    hide FeedPart;
  }

  lemma {:induction false} IdleForever(st: State, modes: seq<Mode>, k: int, now: int, c: Settings)
    requires k < -1
    ensures Run(st, Switching(modes, k, now), c).0 == st && Sent(st, Switching(modes, k, now), c) == []
    decreases |modes|
  {
    if modes != [] {
      IdleDoesNothing(st, modes[0], now, c);
      SwitchingTail(modes, k, now);
      hide ProcessOne;
      IdleForever(st, modes[1..], k - 1, now, c);
    }
  }

  /** Run and sendings, one turn on. */
  lemma TurnUnfolds(st: State, turns: seq<Turn>, c: Settings)
    requires turns != [] && Lookups(turns[0].snapshot) <= |turns[0].a.readings.ticks|
    ensures var t := turns[0];
            var (mid, outputs) := ProcessOne(st, t.a, t.frame, t.snapshot, c);
            && Run(st, turns, c).0 == Run(mid, turns[1..], c).0
            && Sent(st, turns, c) == SendingsOf(outputs, t.snapshot.mode, |st.filter.log|) + Sent(mid, turns[1..], c)
  {
    hide ProcessOne, SendingsOf;
  }

  /** What a turn with the line does when its key is not in the filter. */
  lemma LineIsSent(st: State, mode: Mode, now: int, c: Settings)
    requires st.filter.gone == 0 && st.filter.clock == now && c.cap.None? && c.ttl > 0
    requires forall i :: 0 <= i < |st.filter.log| ==>
               st.filter.log[i].at == now && st.filter.log[i].key != KeyOf(Sending(7, ["line"], mode, 0))
    ensures var t := OneLine(mode, now);
            var (next, outputs) := ProcessOne(st, t.a, t.frame, t.snapshot, c);
            && next == st.(filter := Store(st.filter.log + [Entry(KeyOf(Sending(7, ["line"], mode, 0)), now)], 0, now))
            && SendingsOf(outputs, mode, |st.filter.log|) == [Sending(7, ["line"], mode, |st.filter.log|)]
  {
    var t := OneLine(mode, now);
    var key := KeyOf(Sending(7, ["line"], mode, 0));
    assert !Blocks(st.filter.log, key, now, c.ttl, c.cap);
    assert Offered(st.filter, key, now, c.ttl, c.cap) == Store(st.filter.log + [Entry(key, now)], 0, now);
    var message := ["line"];
    assert t.snapshot.targets[1..] == [];
    hide FeedPart, Blocks, Offered;
    assert mode == PerTarget ==>
             Eligible(st.filter, message, [7], [now], c).1 == [7] && Eligible(st.filter, message, [7], [now], c).0
             == Offered(st.filter, key, now, c.ttl, c.cap);
    var outputs := ProcessOne(st, t.a, t.frame, t.snapshot, c).1;
    assert |outputs| == 1 && outputs[0].targets == [7] && outputs[0].line == "line";
    assert LinesOf(outputs) == ["line"];
  }

  /** After a switch of modes the line is sent again at once. */
  lemma {:induction false} SwitchingRepeats(modes: seq<Mode>, k: nat, now: int, c: Settings)
    requires k + 1 < |modes| && modes[k] != modes[k + 1] && c.cap.None? && c.ttl > 0
    ensures var turns := Switching(modes, k, now);
            !NoRepeats(Run(Begin(now), turns, c).0.filter.log, Sent(Begin(now), turns, c), c.ttl)
    decreases |modes|
  {
    var turns := Switching(modes, k, now);
    SwitchingTail(modes, k, now);
    if k > 0 {
      IdleDoesNothing(Begin(now), modes[0], now, c);
      assert turns[0] == Idle(modes[0], now);
      hide ProcessOne, NoRepeats, Run, Sent, Switching;
      TurnUnfolds(Begin(now), turns, c);
      assert [] + Sent(Begin(now), turns[1..], c) == Sent(Begin(now), turns[1..], c);
      SwitchingRepeats(modes[1..], k - 1, now, c);
    } else {
      TwiceAtOnce(modes, now, c);
    }
  }

  function LineSent(log: Log<DedupKey>, mode: Mode): Sending {
    Sending(7, ["line"], mode, |log|)
  }

  function WithLine(log: Log<DedupKey>, mode: Mode, now: int): State {
    Begin(now).(filter := Store(log + [Entry(KeyOf(LineSent(log, mode)), now)], 0, now))
  }

  /** A run that starts with the line. */
  lemma LineFirst(log: Log<DedupKey>, modes: seq<Mode>, k: int, now: int, c: Settings)
    requires modes != [] && (k == 0 || k == -1) && c.cap.None? && c.ttl > 0
    requires forall i :: 0 <= i < |log| ==>
               log[i].at == now && log[i].key != KeyOf(LineSent(log, modes[0]))
    ensures var st := Begin(now).(filter := Store(log, 0, now));
            var rest := Switching(modes[1..], k - 1, now);
            var next := WithLine(log, modes[0], now);
            && Run(st, Switching(modes, k, now), c).0 == Run(next, rest, c).0
            && Sent(st, Switching(modes, k, now), c) == [LineSent(log, modes[0])] + Sent(next, rest, c)
  {
    var st := Begin(now).(filter := Store(log, 0, now));
    var turns := Switching(modes, k, now);
    SwitchingTail(modes, k, now);
    LineIsSent(st, modes[0], now, c);
    assert turns[0] == OneLine(modes[0], now) && |turns[0].a.readings.ticks| >= Lookups(turns[0].snapshot);
    assert turns[0].snapshot.mode == modes[0];
    hide ProcessOne, KeyOf, Run, Sent, Switching, OneLine, SendingsOf;
    TurnUnfolds(st, turns, c);
  }

  lemma SameMoment(modes: seq<Mode>, now: int, ttl: int)
    requires |modes| >= 2 && ttl > 0
    ensures var one := WithLine([], modes[0], now).filter.log;
            var log := WithLine(one, modes[1], now).filter.log;
            && WithLine([], modes[0], now) == Begin(now).(filter := Store(one, 0, now))
            && !NoRepeats(log, [LineSent([], modes[0]), LineSent(one, modes[1])], ttl)
            && |one| == 1 && one[0] == Entry(KeyOf(LineSent([], modes[0])), now)
  {
    var one := WithLine([], modes[0], now).filter.log;
    assert !ApartOrDifferent(
        WithLine(one, modes[1], now).filter.log, [LineSent([], modes[0]), LineSent(one, modes[1])], ttl, 0, 1);
  }

  lemma TwiceAtOnce(modes: seq<Mode>, now: int, c: Settings)
    requires |modes| >= 2 && modes[0] != modes[1] && c.cap.None? && c.ttl > 0
    ensures var turns := Switching(modes, 0, now);
            !NoRepeats(Run(Begin(now), turns, c).0.filter.log, Sent(Begin(now), turns, c), c.ttl)
  {
    hide ProcessOne, Run, Sent, Switching, WithLine, NoRepeats;
    SameMoment(modes, now, c.ttl);
    var one := WithLine([], modes[0], now).filter.log;
    assert KeyOf(LineSent([], modes[0])) != KeyOf(LineSent(one, modes[1]));
    hide KeyOf, LineSent;
    assert modes[1..][0] == modes[1] && modes[1..][1..] == modes[2..];
    LineFirst([], modes, 0, now, c);
    LineFirst(one, modes[1..], -1, now, c);
    IdleForever(WithLine(one, modes[1], now), modes[2..], -2, now, c);
    var (x, y) := (LineSent([], modes[0]), LineSent(one, modes[1]));
    assert [x] + ([y] + []) == [x, y];
  }

  lemma {:induction false} Differs(modes: seq<Mode>) returns (k: nat)
    requires !OneMode(modes)
    ensures k + 1 < |modes| && modes[k] != modes[k + 1]
  {
    var i, j :| 0 <= i < j < |modes| && modes[i] != modes[j];
    k := i;
    while modes[k] == modes[k + 1]
      invariant i <= k < j && modes[k] == modes[i]
      decreases j - k
    {
      k := k + 1;
    }
  }

  ghost predicate NeverRepeats(modes: seq<Mode>, now: int, c: Settings) {
    forall turns :: Timely(turns, now, now) && TargetsDiffer(turns) && ModesOf(turns) == modes ==>
      NoRepeats(Run(Begin(now), turns, c).0.filter.log, Sent(Begin(now), turns, c), c.ttl)
  }

  /**
   The exact condition.  No target is given a message twice within the
   time-to-live in any run with these modes, if and only if the mode never
   changes: moving between no routing table and a table makes repeats possible.
   */
  lemma NothingTwiceWithinLifetime(modes: seq<Mode>, now: int, c: Settings)
    requires ValidLimits(c.limits) && c.cap.None? && c.ttl > 0
    ensures NeverRepeats(modes, now, c) <==> OneMode(modes)
  {
    if OneMode(modes) {
      forall turns | Timely(turns, now, now) && TargetsDiffer(turns) && ModesOf(turns) == modes
        ensures NoRepeats(Run(Begin(now), turns, c).0.filter.log, Sent(Begin(now), turns, c), c.ttl)
      {
        OneModeNeverRepeats(turns, now, c);
      }
    } else {
      var k := Differs(modes);
      SwitchingIsProper(modes, k, now);
      SwitchingRepeats(modes, k, now, c);
    }
  }
}
