/**
 What a feed of the assembler (assembler.py) reports and leaves behind, said on
 the stored fragments and the clock alone.
 */
module AssemblyMeaning {
  import opened Common
  import opened KeyOrder
  import opened AssemblyModel

  // -------------------------------------------------------- sentences without a group

  /** Without a fragment, or with an ordinal outside 1..total, nothing happens. */
  lemma InvalidMeans(g: Groups, f: Option<Fragment>, now: int, l: Limits)
    requires f.None? || f.value.ordinal < 1 || f.value.ordinal > f.value.key.total
    ensures Feed(g, f, now, l) == (g, Outcome(Invalid, None, [], {}, None))
  {
    hide FeedPart;
  }

  /** A message of one part is its own text. */
  lemma SingleMeans(g: Groups, f: Fragment, now: int, l: Limits)
    requires f.ordinal == f.key.total == 1
    ensures Feed(g, Some(f), now, l) == (g, Outcome(Single, None, [f.text], {}, None))
  {
    hide FeedPart;
  }

  /** A declared total beyond the limit is refused. */
  lemma LimitExceededMeans(g: Groups, f: Fragment, now: int, l: Limits)
    requires 1 <= f.ordinal <= f.key.total && f.key.total > 1
    requires l.maxFragments.Some? && f.key.total > l.maxFragments.value
    ensures Feed(g, Some(f), now, l) == (g, Outcome(LimitExceeded, None, [], {}, None))
  {
    hide FeedPart;
  }

  // ----------------------------------------------------------- fragments of a group

  /** A fragment that reaches a group. */
  predicate Multipart(f: Fragment, l: Limits) {
    1 <= f.ordinal <= f.key.total && f.key.total > 1 && (l.maxFragments.Some? ==> f.key.total <= l.maxFragments.value)
  }

  /** The group of the key is there and had progress less than the timeout ago. */
  predicate Alive(g: Groups, key: Key, now: int, l: Limits) {
    key in g && now - g[key].progress < l.timeout
  }

  predicate Holds(g: Groups, f: Fragment, now: int, l: Limits) {
    Alive(g, f.key, now, l) && f.ordinal in g[f.key].fragments
  }

  /** The fragments stored for a live key. */
  function Stored(g: Groups, key: Key, now: int, l: Limits): map<int, string> {
    if Alive(g, key, now, l) then g[key].fragments else map[]
  }

  /**
   The status of a fragment: a conflict with another text under its ordinal, a
   duplicate of the same text, complete when it is the last one missing by count,
   pending otherwise.
   */
  lemma StatusMeans(g: Groups, f: Fragment, now: int, l: Limits)
    requires ValidLimits(l) && Multipart(f, l)
    ensures var o := Feed(g, Some(f), now, l).1;
            && o.key == Some(f.key)
            && (o.status == Conflict <==> Holds(g, f, now, l) && g[f.key].fragments[f.ordinal] != f.text)
            && (o.status == Duplicate <==> Holds(g, f, now, l) && g[f.key].fragments[f.ordinal] == f.text)
            && (o.status == Complete <==>
                  !Holds(g, f, now, l) && |Stored(g, f.key, now, l)| + 1 == f.key.total)
            && (o.status == Pending <==>
                  !Holds(g, f, now, l) && |Stored(g, f.key, now, l)| + 1 != f.key.total)
  {
    hide FeedPart;
    OwnOutcome(g, f, now, l);
    ReportsKey(g, f, now, l);
  }

  lemma ReportsKey(g: Groups, f: Fragment, now: int, l: Limits)
    ensures FeedPart(g, f, now, l).1.key == Some(f.key)
  {
    hide AssemblyModel.Open, Absorb, Live, Gone;
  }

  /** What becomes of the group of the fragment. */
  lemma OwnGroupMeans(g: Groups, f: Fragment, now: int, l: Limits)
    requires ValidLimits(l) && Multipart(f, l)
    ensures var (next, o) := Feed(g, Some(f), now, l);
            && (o.status == Conflict ==> f.key in o.discarded && f.key !in next && o.sentences == [])
            && (o.status == Duplicate ==>
                  f.key in g && f.key in next && next[f.key] == g[f.key] && f.key !in o.discarded && o.sentences == [])
            && (o.status == Pending ==>
                  && f.key in next && o.sentences == []
                  && next[f.key] == Parts(Stored(g, f.key, now, l)[f.ordinal := f.text], now))
            && (o.status == Complete ==> f.key !in next)
            && (o.status != Conflict ==> (f.key in o.discarded <==> f.key in g && !Alive(g, f.key, now, l)))
  {
    hide FeedPart, Follows;
    StatusMeans(g, f, now, l);
    OwnOutcome(g, f, now, l);
    DiscardsAreExact(g, f, now, l);
  }

  /** A completed message is the stored texts and the new one, in the order of their ordinals. */
  lemma CompleteMeans(g: Groups, f: Fragment, clock: int, now: int, l: Limits)
    requires ValidLimits(l) && Multipart(f, l) && Sane(g, clock) && clock <= now
    requires Feed(g, Some(f), now, l).1.status == Complete
    ensures var lines := Feed(g, Some(f), now, l).1.sentences;
            var stored := Stored(g, f.key, now, l);
            && |lines| == f.key.total
            && (forall o :: 1 <= o <= f.key.total && o != f.ordinal ==> o in stored && lines[o - 1] == stored[o])
            && lines[f.ordinal - 1] == f.text
  {
    hide FeedPart;
    OwnOutcome(g, f, now, l);
    StatusMeans(g, f, now, l);
    var stored := Stored(g, f.key, now, l);
    assert Alive(g, f.key, now, l) ==> SaneParts(f.key, g[f.key], clock);
    var all := stored[f.ordinal := f.text];
    assert all.Keys == stored.Keys + {f.ordinal};
    assert |all.Keys| == |stored.Keys| + 1 == |stored| + 1;
    CountingIsEnough(all.Keys, f.key.total);
  }

  /** Every other group is as it was, or it has left because of its age or because it was evicted. */
  lemma OtherGroupsMean(g: Groups, f: Fragment, now: int, l: Limits, k: Key)
    requires ValidLimits(l) && Multipart(f, l) && k != f.key
    ensures var (next, o) := Feed(g, Some(f), now, l);
            && (k in next <==> k in g && k !in o.discarded)
            && (k in next ==> next[k] == g[k])
            && (k in o.discarded ==> k in g && (now - g[k].progress >= l.timeout || o.evicted == Some(k)))
  {
    hide FeedPart;
    DiscardsAreExact(g, f, now, l);
  }

  /**
   A live group is evicted exactly for a new group that finds as many live groups
   as there may be; it is the one whose progress is oldest, among those the one
   with the smallest key.
   */
  lemma EvictionMeans(g: Groups, f: Fragment, now: int, l: Limits)
    requires ValidLimits(l) && Multipart(f, l)
    ensures var live := map k | k in g && now - g[k].progress < l.timeout :: g[k];
            var o := Feed(g, Some(f), now, l).1;
            && (o.evicted.Some? <==>
                  f.key !in live && l.maxGroups.Some? && |live| >= l.maxGroups.value)
            && (o.evicted.Some? ==>
                  && o.evicted.value in live && o.evicted.value in o.discarded
                  && forall k :: k in live && k != o.evicted.value ==>
                       || g[o.evicted.value].progress < g[k].progress
                       || (g[o.evicted.value].progress == g[k].progress && Before(o.evicted.value, k)))
  {
    hide FeedPart, Open, Settle;
    var live := map k | k in g && now - g[k].progress < l.timeout :: g[k];
    assert live == Live(g, now, l.timeout);
    SettleKeeps(g, f, now, l);
    RoomIsMade(g, f.key, now, l);
  }

  lemma SettleKeeps(g: Groups, f: Fragment, now: int, l: Limits)
    ensures var (o, r) := (Open(g, f.key, now, l), FeedPart(g, f, now, l).1);
            r.evicted == o.evicted && o.discarded <= r.discarded
  {
    hide Open, Absorb;
  }

  /** Room is made among the live groups, by the order of eviction. */
  lemma RoomIsMade(g: Groups, key: Key, now: int, l: Limits)
    requires ValidLimits(l)
    ensures var (live, o) := (Live(g, now, l.timeout), Open(g, key, now, l));
            && (o.evicted.Some? <==> key !in live && l.maxGroups.Some? && |live| >= l.maxGroups.value)
            && (o.evicted.Some? ==>
                  && o.evicted.value in live && o.evicted.value in o.discarded
                  && forall k :: k in live && k != o.evicted.value ==> Sooner(g, o.evicted.value, k))
  {
    var kept := Kept(g, key, now, l);
    assert key !in kept ==> Live(kept, now, l.timeout) == Live(g, now, l.timeout);
    hide Live, Gone;
    LiveIsSmaller(kept, now, l.timeout);
    LiveAreTheSame(g, now, l.timeout);
    LiveAreThere(g, key, now, l);
  }

  lemma LiveAreTheSame(g: Groups, now: int, timeout: int)
    ensures forall k :: k in Live(g, now, timeout) ==> k in g && Live(g, now, timeout)[k] == g[k]
  {
  }

  lemma LiveAreThere(g: Groups, key: Key, now: int, l: Limits)
    ensures key in Kept(g, key, now, l) <==> key in Live(g, now, l.timeout)
  {
  }
}
