/**
 Order independence of assembly (assembler.py): the fragments of one message, in
 any order, with exact repeats, among any other traffic, give the same lines.
 */
module AssemblyOrder {
  import opened Common
  import opened KeyOrder
  import opened AssemblyModel

  function Ordinals(n: int): set<int> {
    if n <= 0 then {} else Ordinals(n - 1) + {n}
  }

  lemma {:induction false} OrdinalsAre(n: int)
    ensures forall o :: o in Ordinals(n) <==> 1 <= o <= n
    ensures |Ordinals(n)| == (if n < 0 then 0 else n)
  {
    if n > 0 { OrdinalsAre(n - 1); }
  }

  /** A message: its key and the text of each of its fragments. */
  datatype Message = Message(key: Key, text: map<int, string>)

  predicate ValidMessage(m: Message, l: Limits) {
    && m.key.total >= 2 && m.text.Keys == Ordinals(m.key.total)
    && (l.maxFragments.Some? ==> m.key.total <= l.maxFragments.value)
  }

  predicate Concerns(a: Arrival, m: Message) {
    a.fragment.Some? && a.fragment.value.key == m.key
  }

  function Lines(m: Message): seq<string>
    requires m.text.Keys == Ordinals(m.key.total)
  {
    OrdinalsAre(m.key.total);
    InOrdinalOrder(m.text, m.key.total)
  }

  /** The fragments with an ordinal in `seen`. */
  function Restrict(m: Message, seen: set<int>): map<int, string> {
    map o | o in m.text && o in seen :: m.text[o]
  }

  /**
   How far the message has come: the ordinals seen, and when the last new one
   came.  Without any, there is no live group for its key.
   */
  ghost predicate Tracks(g: Groups, m: Message, seen: set<int>, last: int, now: int, l: Limits) {
    if seen == {} then Generation(g, m.key, now, l).fragments == map[]
    else m.key in g && g[m.key] == Parts(Restrict(m, seen), last)
  }

  /**
   A run up to the completion of the message: its fragments are its own, nothing
   comes a timeout or more after its last new fragment, and it is not evicted.
   */
  ghost predicate Undisturbed(g: Groups, feeds: seq<Arrival>, m: Message, seen: set<int>, last: int, l: Limits)
    decreases |feeds|
  {
    if feeds == [] then true else
    var a := feeds[0];
    var (next, o) := Feed(g, a.fragment, a.now, l);
    && (seen != {} ==> a.now - last < l.timeout)
    && if Concerns(a, m) then
         && a.fragment.value.ordinal in m.text && a.fragment.value.text == m.text[a.fragment.value.ordinal]
         && var more := seen + {a.fragment.value.ordinal};
         if more == Ordinals(m.key.total) then feeds[1..] == []
         else Undisturbed(next, feeds[1..], m, more, if a.fragment.value.ordinal in seen then last else a.now, l)
       else o.evicted != Some(m.key) && Undisturbed(next, feeds[1..], m, seen, last, l)
  }

  /** What a sentence is answered; nothing is said of other keys. */
  function Reply(a: Arrival, m: Message, seen: set<int>): Option<(Status, seq<string>)>
    requires m.text.Keys == Ordinals(m.key.total)
  {
    if !Concerns(a, m) then None
    else if a.fragment.value.ordinal in seen then Some((Duplicate, []))
    else if seen + {a.fragment.value.ordinal} == Ordinals(m.key.total) then Some((Complete, Lines(m)))
    else Some((Pending, []))
  }

  function More(a: Arrival, m: Message, seen: set<int>): set<int> {
    if Concerns(a, m) then seen + {a.fragment.value.ordinal} else seen
  }

  /** The answers of a run. */
  function Story(feeds: seq<Arrival>, m: Message, seen: set<int>): seq<Option<(Status, seq<string>)>>
    requires m.text.Keys == Ordinals(m.key.total)
    decreases |feeds|
  {
    if feeds == [] then [] else [Reply(feeds[0], m, seen)] + Story(feeds[1..], m, More(feeds[0], m, seen))
  }

  /** Part of the ordinals: as many as all of them only if all of them. */
  lemma CountsMatch(m: Message, seen: set<int>)
    requires m.text.Keys == Ordinals(m.key.total) && m.key.total >= 2 && seen <= Ordinals(m.key.total)
    ensures Restrict(m, seen).Keys == seen
    ensures |Restrict(m, seen)| == m.key.total <==> seen == Ordinals(m.key.total)
  {
    assert Restrict(m, seen).Keys == seen;
    OrdinalsAre(m.key.total);
    CountingIsEnough(seen, m.key.total);
    if |seen| == m.key.total {
      forall o | o in Ordinals(m.key.total) ensures o in seen {
        assert 1 <= o <= m.key.total;
      }
    }
  }

  lemma RestrictMore(m: Message, seen: set<int>, o: int)
    requires o in m.text
    ensures Restrict(m, seen + {o}) == Restrict(m, seen)[o := m.text[o]]
    ensures o !in seen ==> |Restrict(m, seen + {o})| == |Restrict(m, seen)| + 1
    ensures o in seen ==> Restrict(m, seen + {o}) == Restrict(m, seen)
  {
    assert Restrict(m, seen + {o}) == Restrict(m, seen)[o := m.text[o]];
  }

  /** Sentences of other keys leave the message as it is. */
  lemma OthersKeepTrack(g: Groups, a: Arrival, m: Message, seen: set<int>, last: int, clock: int, l: Limits)
    requires ValidLimits(l) && ValidMessage(m, l) && Tracks(g, m, seen, last, clock, l) && clock <= a.now
    requires !Concerns(a, m) && (seen != {} ==> a.now - last < l.timeout)
    requires Feed(g, a.fragment, a.now, l).1.evicted != Some(m.key)
    ensures Tracks(Feed(g, a.fragment, a.now, l).0, m, seen, last, a.now, l)
  {
    hide FeedPart;
    if Shortcut(a.fragment, l).None? {
      DiscardsAreExact(g, a.fragment.value, a.now, l);
    }
  }

  /** One fragment of the message. */
  lemma FragmentAdvances(g: Groups, a: Arrival, m: Message, seen: set<int>, last: int, clock: int, l: Limits)
    requires ValidLimits(l) && ValidMessage(m, l) && Tracks(g, m, seen, last, clock, l) && clock <= a.now
    requires Concerns(a, m) && (seen != {} ==> a.now - last < l.timeout)
    requires seen < Ordinals(m.key.total) && a.fragment.value.ordinal in m.text
    requires a.fragment.value.text == m.text[a.fragment.value.ordinal]
    ensures var (next, o) := Feed(g, a.fragment, a.now, l);
            && Reply(a, m, seen) == Some((o.status, o.sentences))
            && (seen + {a.fragment.value.ordinal} != Ordinals(m.key.total) ==>
                  Tracks(next, m, seen + {a.fragment.value.ordinal},
                         if a.fragment.value.ordinal in seen then last else a.now, a.now, l))
  {
    hide FeedPart, Ordinals, InOrdinalOrder, Follows, Restrict;
    OrdinalsAre(m.key.total);
    var f := a.fragment.value;
    assert Generation(g, m.key, a.now, l).fragments == Restrict(m, seen) by { RestrictNone(m); }
    CountsMatch(m, seen);
    CountsMatch(m, seen + {f.ordinal});
    RestrictMore(m, seen, f.ordinal);
    DiscardsAreExact(g, f, a.now, l);
    OwnOutcome(g, f, a.now, l);
    if seen + {f.ordinal} == Ordinals(m.key.total) { RestrictAll(m); }
  }

  lemma RestrictNone(m: Message)
    ensures Restrict(m, {}) == map[]
  {
  }

  lemma RestrictAll(m: Message)
    ensures Restrict(m, m.text.Keys) == m.text
  {
  }

  type Answers = seq<Option<(Status, seq<string>)>>

  /** The outcomes are the story, where it says something. */
  predicate Tells(story: Answers, feeds: seq<Arrival>, outcomes: seq<Outcome>, m: Message) {
    && |story| == |feeds| == |outcomes|
    && forall i :: 0 <= i < |feeds| && Concerns(feeds[i], m) ==>
         story[i] == Some((outcomes[i].status, outcomes[i].sentences))
  }

  /** An answer before the last. */
  predicate Unfinished(answer: Option<(Status, seq<string>)>) {
    answer.Some? ==> answer.value == (Pending, []) || answer.value == (Duplicate, [])
  }

  /** The story is told to its end. */
  predicate Ends(story: Answers, lines: seq<string>) {
    && |story| > 0 && story[|story| - 1] == Some((Complete, lines))
    && forall i :: 0 <= i < |story| - 1 ==> Unfinished(story[i])
  }

  /**
   Whatever the order of the fragments and whatever is fed between them, each
   fragment of the message is answered by its story.
   */
  lemma {:induction false} OrderDoesNotMatter(
    g: Groups, feeds: seq<Arrival>, m: Message, seen: set<int>, last: int, clock: int, l: Limits)
    requires ValidLimits(l) && ValidMessage(m, l) && InTime(feeds, clock)
    requires seen < Ordinals(m.key.total) && Tracks(g, m, seen, last, clock, l)
    requires Undisturbed(g, feeds, m, seen, last, l)
    ensures Tells(Story(feeds, m, seen), feeds, Outcomes(g, feeds, l), m)
    decreases |feeds|
  {
    hide Feed, Ordinals, Tracks;
    if feeds == [] { return; }
    var a := feeds[0];
    var (next, o) := Feed(g, a.fragment, a.now, l);
    if Concerns(a, m) {
      FragmentAdvances(g, a, m, seen, last, clock, l);
      var more := seen + {a.fragment.value.ordinal};
      if more != Ordinals(m.key.total) {
        OrderDoesNotMatter(
          next, feeds[1..], m, more, if a.fragment.value.ordinal in seen then last else a.now, a.now, l);
      }
    } else {
      OthersKeepTrack(g, a, m, seen, last, clock, l);
      OrderDoesNotMatter(next, feeds[1..], m, seen, last, a.now, l);
    }
  }

  function Fed(feeds: seq<Arrival>, m: Message): set<int> {
    set a | a in feeds && Concerns(a, m) :: a.fragment.value.ordinal
  }

  lemma FedSplits(feeds: seq<Arrival>, m: Message)
    requires feeds != []
    ensures Fed(feeds, m) == (if Concerns(feeds[0], m) then {feeds[0].fragment.value.ordinal} else {}) + Fed(feeds[1..], m)
    ensures |feeds| == 1 ==> Fed(feeds[1..], m) == {}
  {
    assert feeds == [feeds[0]] + feeds[1..];
  }

  /**
   In a story that is told to its end, the last fragment completes the message
   with its lines in ordinal order, and every earlier one is pending or a
   duplicate.
   */
  lemma {:induction false} StoryEnds(g: Groups, feeds: seq<Arrival>, m: Message, seen: set<int>, last: int, l: Limits)
    requires ValidMessage(m, l) && seen < Ordinals(m.key.total) && feeds != []
    requires Undisturbed(g, feeds, m, seen, last, l) && seen + Fed(feeds, m) == Ordinals(m.key.total)
    ensures Ends(Story(feeds, m, seen), Lines(m))
    decreases |feeds|
  {
    hide Feed, Ordinals, Lines;
    var a := feeds[0];
    var next := Feed(g, a.fragment, a.now, l).0;
    FedSplits(feeds, m);
    if Concerns(a, m) {
      var ordinal := a.fragment.value.ordinal;
      if seen + {ordinal} != Ordinals(m.key.total) {
        assert seen + {ordinal} + Fed(feeds[1..], m) == Ordinals(m.key.total);
        StoryEnds(next, feeds[1..], m, seen + {ordinal}, if ordinal in seen then last else a.now, l);
      }
    } else {
      StoryEnds(next, feeds[1..], m, seen, last, l);
    }
  }

  lemma {:induction false} OthersAreUntold(feeds: seq<Arrival>, m: Message, seen: set<int>)
    requires m.text.Keys == Ordinals(m.key.total)
    ensures |Story(feeds, m, seen)| == |feeds|
    ensures forall i :: 0 <= i < |feeds| ==> (Story(feeds, m, seen)[i].Some? <==> Concerns(feeds[i], m))
    decreases |feeds|
  {
    if feeds != [] {
      OthersAreUntold(feeds[1..], m, More(feeds[0], m, seen));
    }
  }

  /** The last feed completes the message with `lines`; every other of its fragments is pending or a duplicate. */
  predicate Assembles(feeds: seq<Arrival>, outcomes: seq<Outcome>, m: Message, lines: seq<string>) {
    && |outcomes| == |feeds| > 0
    && var n := |feeds| - 1;
    && Concerns(feeds[n], m) && outcomes[n].status == Complete && outcomes[n].sentences == lines
    && forall i :: 0 <= i < n && Concerns(feeds[i], m) ==>
         outcomes[i].status in {Pending, Duplicate} && outcomes[i].sentences == []
  }

  lemma ToldOutcomes(story: Answers, feeds: seq<Arrival>, outcomes: seq<Outcome>, m: Message, lines: seq<string>)
    requires Tells(story, feeds, outcomes, m) && Ends(story, lines)
    requires forall i :: 0 <= i < |feeds| ==> (story[i].Some? <==> Concerns(feeds[i], m))
    ensures Assembles(feeds, outcomes, m, lines)
  {
    forall i | 0 <= i < |feeds| - 1 && Concerns(feeds[i], m)
      ensures outcomes[i].status in {Pending, Duplicate} && outcomes[i].sentences == []
    {
      assert Unfinished(story[i]);
    }
  }

  /** The two together, for a message from its first fragment on. */
  lemma {:induction false} AnyOrderAssembles(g: Groups, feeds: seq<Arrival>, m: Message, clock: int, l: Limits)
    requires ValidLimits(l) && ValidMessage(m, l) && InTime(feeds, clock)
    requires Generation(g, m.key, clock, l).fragments == map[]
    requires Undisturbed(g, feeds, m, {}, 0, l) && Fed(feeds, m) == Ordinals(m.key.total)
    ensures Assembles(feeds, Outcomes(g, feeds, l), m, Lines(m))
  {
    assert Tracks(g, m, {}, 0, clock, l);
    OrdinalsAre(m.key.total);
    assert 1 in Ordinals(m.key.total) && 1 !in {};
    hide Feed, Lines, Story, Outcomes, Undisturbed, InTime, Tracks, Ordinals, Concerns, Generation, Assembles, Tells, Ends;
    assert feeds == [] ==> Fed(feeds, m) == {};
    OrderDoesNotMatter(g, feeds, m, {}, 0, clock, l);
    StoryEnds(g, feeds, m, {}, 0, l);
    OthersAreUntold(feeds, m, {});
    ToldOutcomes(Story(feeds, m, {}), feeds, Outcomes(g, feeds, l), m, Lines(m));
  }
}
