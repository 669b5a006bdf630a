/**
 Multipart assembly (assembler.py) on values: the assembler as it is, which
 expires groups late, next to a simple one that drops every expired group before
 each feed; over every run both report the same.
 */
module AssemblyModel {
  import opened Common
  import opened KeyOrder

  /** One live generation of a group: its fragments by ordinal, and when the last new one came. */
  datatype Parts = Parts(fragments: map<int, string>, progress: int)

  type Groups = map<Key, Parts>

  datatype Limits = Limits(timeout: int, maxFragments: Option<nat>, maxGroups: Option<nat>)

  predicate ValidLimits(l: Limits) {
    && l.timeout > 0
    && (l.maxFragments.Some? ==> l.maxFragments.value >= 1)
    && (l.maxGroups.Some? ==> l.maxGroups.value >= 1)
  }

  /** A validated fragment: `1 <= ordinal <= total`. */
  datatype Fragment = Fragment(key: Key, ordinal: int, text: string)

  predicate ValidFragment(f: Fragment) {
    1 <= f.ordinal <= f.key.total
  }

  datatype Status = Invalid | Single | LimitExceeded | Pending | Duplicate | Conflict | Complete

  /**
   What a feed reports.  `evicted` tells which discarded key, if any, left for
   lack of room rather than age.
   */
  datatype Outcome = Outcome(
    status: Status, key: Option<Key>, sentences: seq<string>, discarded: set<Key>, evicted: Option<Key>)

  predicate Stale(p: Parts, now: int, timeout: int) {
    now - p.progress >= timeout
  }

  function Live(g: Groups, now: int, timeout: int): Groups {
    map k | k in g && !Stale(g[k], now, timeout) :: g[k]
  }

  /** The keys that expire. */
  function Gone(g: Groups, now: int, timeout: int): set<Key> {
    set k | k in g && Stale(g[k], now, timeout)
  }

  // --------------------------------------------------------------- capacity victims

  /** `a` is evicted before `b`: older progress first, then the smaller key. */
  predicate Sooner(g: Groups, a: Key, b: Key)
    requires a in g && b in g
  {
    g[a].progress < g[b].progress || (g[a].progress == g[b].progress && Before(a, b))
  }

  /** `k` is the first of `keys` to be evicted. */
  predicate First(g: Groups, keys: set<Key>, k: Key)
    requires keys <= g.Keys
  {
    k in keys && forall j :: j in keys && j != k ==> Sooner(g, k, j)
  }

  predicate IsVictim(g: Groups, k: Key) {
    First(g, g.Keys, k)
  }

  lemma SoonerIsTotal(g: Groups, a: Key, b: Key)
    requires a in g && b in g && a != b
    ensures Sooner(g, a, b) <==> !Sooner(g, b, a)
  {
    Comparable(a, b);
  }

  lemma SoonerIsTransitive(g: Groups, a: Key, b: Key, c: Key)
    requires a in g && b in g && c in g && Sooner(g, a, b) && Sooner(g, b, c)
    ensures Sooner(g, a, c)
  {
    if g[a].progress == g[c].progress { Transitive(a, b, c); }
  }

  lemma OneVictim(g: Groups, a: Key, b: Key)
    requires IsVictim(g, a) && IsVictim(g, b)
    ensures a == b
  {
    if a != b { SoonerIsTotal(g, a, b); }
  }

  lemma {:induction false} FirstExists(g: Groups, keys: set<Key>)
    requires keys <= g.Keys && keys != {}
    ensures exists k :: First(g, keys, k)
    decreases |keys|
  {
    var k :| k in keys;
    if keys == {k} {
      assert First(g, keys, k);
      return;
    }
    FirstExists(g, keys - {k});
    var rest :| First(g, keys - {k}, rest);
    SoonerIsTotal(g, k, rest);
    if Sooner(g, k, rest) {
      forall j | j in keys && j != k ensures Sooner(g, k, j) {
        if j != rest { SoonerIsTransitive(g, k, rest, j); }
      }
      assert First(g, keys, k);
    } else {
      assert First(g, keys, rest);
    }
  }

  /** The group that leaves a full assembler. */
  ghost function Victim(g: Groups): (k: Key)
    requires |g| > 0
    ensures IsVictim(g, k)
  {
    assert |g.Keys| > 0;
    FirstExists(g, g.Keys);
    var k :| First(g, g.Keys, k);
    k
  }

  // ------------------------------------------------------------------ the assembler

  predicate Full(g: Groups, l: Limits) {
    l.maxGroups.Some? && |g| >= l.maxGroups.value
  }

  /** The lines of a group in ordinal order. */
  function InOrdinalOrder(fragments: map<int, string>, total: int): seq<string>
    requires forall o :: 1 <= o <= total ==> o in fragments
  {
    seq(if total < 0 then 0 else total, i requires 0 <= i < total => fragments[i + 1])
  }

  /** The unique ordinals of a group, all between 1 and `total`, are `total` many: then none is missing. */
  lemma {:induction false} CountingIsEnough(ordinals: set<int>, total: nat)
    requires forall o :: o in ordinals ==> 1 <= o <= total
    ensures |ordinals| <= total
    ensures |ordinals| == total ==> forall o :: 1 <= o <= total ==> o in ordinals
  {
    if total == 0 {
      assert forall o :: o !in ordinals;
    } else {
      CountingIsEnough(ordinals - {total}, total - 1);
      assert total !in ordinals ==> ordinals == ordinals - {total};
    }
  }

  /** What every group satisfies: unfinished, ordinals within the declared total, nothing from the future. */
  predicate Sane(g: Groups, now: int) {
    forall k :: k in g ==> SaneParts(k, g[k], now)
  }

  predicate SaneParts(k: Key, p: Parts, now: int) {
    && k.total >= 2 && p.progress <= now && |p.fragments| < k.total
    && forall o :: o in p.fragments ==> 1 <= o <= k.total
  }

  /** How the fed ordinal meets the fragments of its group. */
  function Meets(p: Parts, f: Fragment): Status {
    if f.ordinal in p.fragments then (if p.fragments[f.ordinal] == f.text then Duplicate else Conflict)
    else if |p.fragments| + 1 == f.key.total then Complete
    else Pending
  }

  /** Everything that happens before the fragment reaches its group; `cleaned` tells whether all expired groups left. */
  datatype Opened = Opened(groups: Groups, discarded: set<Key>, evicted: Option<Key>, cleaned: bool)

  /** Room for one more group: expired groups leave a full assembler, and if it is still full one live one does. */
  ghost function MadeRoom(g: Groups, now: int, l: Limits): Opened {
    if !Full(g, l) then Opened(g, {}, None, false) else
    var live := Live(g, now, l.timeout);
    var gone := Gone(g, now, l.timeout);
    if Full(live, l) && |live| > 0 then Opened(live - {Victim(live)}, gone + {Victim(live)}, Some(Victim(live)), true)
    else Opened(live, gone, None, true)
  }

  /** The groups without an own one that has expired. */
  function Kept(g: Groups, key: Key, now: int, l: Limits): Groups {
    if key in g && Stale(g[key], now, l.timeout) then g - {key} else g
  }

  /** The own group, a new one if there is none unexpired; room is made for a new one only. */
  ghost function Open(g: Groups, key: Key, now: int, l: Limits): Opened {
    var own := g.Keys - Kept(g, key, now, l).Keys;
    var kept := Kept(g, key, now, l);
    if key in kept then Opened(kept, own, None, false)
    else
      var room := MadeRoom(kept, now, l);
      Opened(room.groups[key := Parts(map[], now)], own + room.discarded, room.evicted, room.cleaned)
  }

  /** The lines of the group once `f` is in it. */
  function Assembled(p: Parts, f: Fragment): seq<string> {
    var fragments := p.fragments[f.ordinal := f.text];
    if forall o :: 1 <= o <= f.key.total ==> o in fragments then InOrdinalOrder(fragments, f.key.total) else []
  }

  /** The fragment meets its group, which is there. */
  function Absorb(g: Groups, f: Fragment, now: int): (Groups, Status, seq<string>)
    requires f.key in g
  {
    var p := g[f.key];
    match Meets(p, f)
    case Complete => (g - {f.key}, Complete, Assembled(p, f))
    case Pending => (g[f.key := Parts(p.fragments[f.ordinal := f.text], now)], Pending, [])
    case Conflict => (g - {f.key}, Conflict, [])
    case _ => (g, Duplicate, [])
  }

  /** Expired groups leave now, unless the feed completes a group or has already made room. */
  predicate Cleans(o: Opened, status: Status) {
    status != Complete && !(status == Pending && o.cleaned)
  }

  /** The fragment meets its open group; unless that completes it, or room was made, expired groups leave now. */
  function Settle(o: Opened, f: Fragment, now: int, l: Limits): (Groups, Outcome)
    requires f.key in o.groups
  {
    var (absorbed, status, sentences) := Absorb(o.groups, f, now);
    var cleans := Cleans(o, status);
    var discarded := o.discarded + (if status == Conflict then {f.key} else {})
                     + (if cleans then Gone(absorbed, now, l.timeout) else {});
    (if cleans then Live(absorbed, now, l.timeout) else absorbed,
     Outcome(status, Some(f.key), sentences, discarded, o.evicted))
  }

  /** `_feed_validated_fragment` for a declared total within bounds. */
  ghost function FeedPart(g: Groups, f: Fragment, now: int, l: Limits): (Groups, Outcome) {
    Settle(Open(g, f.key, now, l), f, now, l)
  }

  /** Sentences that never reach a group. */
  function Shortcut(f: Option<Fragment>, l: Limits): Option<Outcome> {
    if f.None? || !ValidFragment(f.value) then Some(Outcome(Invalid, None, [], {}, None))
    else if f.value.key.total == 1 then Some(Outcome(Single, None, [f.value.text], {}, None))
    else if l.maxFragments.Some? && f.value.key.total > l.maxFragments.value
    then Some(Outcome(LimitExceeded, None, [], {}, None))
    else None
  }

  /** `feed_parsed_outcome`. */
  ghost function Feed(g: Groups, f: Option<Fragment>, now: int, l: Limits): (Groups, Outcome) {
    if Shortcut(f, l).Some? then (g, Shortcut(f, l).value) else FeedPart(g, f.value, now, l)
  }

  // ------------------------------------------------------------ the simple assembler

  /** Room for one more group among groups that are all live. */
  ghost function WithRoom(live: Groups, l: Limits): Groups {
    if Full(live, l) && |live| > 0 then live - {Victim(live)} else live
  }

  ghost function OpenEagerly(live: Groups, key: Key, now: int, l: Limits): Groups {
    if key in live then live else WithRoom(live, l)[key := Parts(map[], now)]
  }

  /** Drops every expired group first, then handles the fragment. */
  ghost function FeedPartEagerly(g: Groups, f: Fragment, now: int, l: Limits): (Groups, Status, seq<string>) {
    Absorb(OpenEagerly(Live(g, now, l.timeout), f.key, now, l), f, now)
  }

  ghost function FeedEagerly(g: Groups, f: Option<Fragment>, now: int, l: Limits): (Groups, Status, seq<string>) {
    if Shortcut(f, l).Some? then (g, Shortcut(f, l).value.status, Shortcut(f, l).value.sentences)
    else FeedPartEagerly(g, f.value, now, l)
  }

  // ----------------------------------------------------------- lazy refines eager

  lemma LiveAgain(g: Groups, now: int, later: int, timeout: int)
    requires now <= later
    ensures Live(Live(g, now, timeout), later, timeout) == Live(g, later, timeout)
  {
  }

  /** Both assemblers hold the same live groups. */
  predicate SameLive(g: Groups, h: Groups, now: int, l: Limits) {
    Live(g, now, l.timeout) == Live(h, now, l.timeout)
  }

  /** A bigger assembler that is not full leaves the smaller one not full. */
  lemma LiveIsSmaller(g: Groups, now: int, timeout: int)
    ensures |Live(g, now, timeout)| <= |g|
    ensures Live(g, now, timeout).Keys == g.Keys - Gone(g, now, timeout)
  {
    var live := Live(g, now, timeout);
    assert live.Keys <= g.Keys;
    Smaller(live.Keys, g.Keys);
  }

  lemma {:induction false} Smaller<T>(a: set<T>, b: set<T>)
    requires a <= b
    ensures |a| <= |b|
    decreases |a|
  {
    if a != {} {
      var x :| x in a;
      Smaller(a - {x}, b - {x});
    }
  }

  /** No group of `m` has expired. */
  predicate AllLive(m: Groups, now: int, timeout: int) {
    forall k :: k in m ==> !Stale(m[k], now, timeout)
  }

  lemma LiveOfLive(m: Groups, now: int, timeout: int)
    requires AllLive(m, now, timeout)
    ensures Live(m, now, timeout) == m
  {
  }

  lemma LiveWith(m: Groups, key: Key, p: Parts, now: int, timeout: int)
    requires !Stale(p, now, timeout)
    ensures Live(m[key := p], now, timeout) == Live(m, now, timeout)[key := p]
  {
  }

  lemma LiveWithout(m: Groups, keys: set<Key>, now: int, timeout: int)
    ensures Live(m - keys, now, timeout) == Live(m, now, timeout) - keys
  {
  }

  lemma LiveWithoutStale(m: Groups, key: Key, now: int, timeout: int)
    requires key in m ==> Stale(m[key], now, timeout)
    ensures Live(m - {key}, now, timeout) == Live(m, now, timeout)
  {
  }

  /** The live part of what the lazy assembler opens is what the eager one opens. */
  lemma OpenRefines(g: Groups, key: Key, now: int, l: Limits)
    requires ValidLimits(l)
    ensures var eager := OpenEagerly(Live(g, now, l.timeout), key, now, l);
            var lazy := Open(g, key, now, l);
            && key in lazy.groups && key in eager && lazy.groups[key] == eager[key]
            && Live(lazy.groups, now, l.timeout) == eager
            && (lazy.cleaned ==> lazy.groups == eager)
  {
    if !(key in g && !Stale(g[key], now, l.timeout)) {
      OpenNewRefines(g, key, now, l);
    }
  }

  /** The live part of the room made late is the room made early. */
  lemma RoomRefines(g: Groups, now: int, l: Limits)
    requires ValidLimits(l)
    ensures var room := MadeRoom(g, now, l);
            && Live(room.groups, now, l.timeout) == WithRoom(Live(g, now, l.timeout), l)
            && (room.cleaned ==> AllLive(room.groups, now, l.timeout))
  {
    LiveIsSmaller(g, now, l.timeout);
    var live := Live(g, now, l.timeout);
    LiveOfLive(live, now, l.timeout);
    if Full(live, l) && |live| > 0 { LiveOfLive(live - {Victim(live)}, now, l.timeout); }
  }

  lemma OpenNewRefines(g: Groups, key: Key, now: int, l: Limits)
    requires ValidLimits(l) && (key in g ==> Stale(g[key], now, l.timeout))
    ensures var eager := WithRoom(Live(g, now, l.timeout), l)[key := Parts(map[], now)];
            var lazy := Open(g, key, now, l);
            && key in lazy.groups && lazy.groups[key] == eager[key]
            && Live(lazy.groups, now, l.timeout) == eager
            && (lazy.cleaned ==> lazy.groups == eager)
  {
    var kept := Kept(g, key, now, l);
    LiveWithoutStale(g, key, now, l.timeout);
    RoomRefines(kept, now, l);
    var room := MadeRoom(kept, now, l);
    LiveWith(room.groups, key, Parts(map[], now), now, l.timeout);
    if room.cleaned { LiveOfLive(room.groups, now, l.timeout); }
  }

  /** Expired groups do not change what happens to the fragment. */
  lemma AbsorbLive(g: Groups, f: Fragment, now: int, l: Limits)
    requires ValidLimits(l) && f.key in g && !Stale(g[f.key], now, l.timeout)
    ensures var (h, status, sentences) := Absorb(g, f, now);
            Absorb(Live(g, now, l.timeout), f, now) == (Live(h, now, l.timeout), status, sentences)
  {
    var p := g[f.key];
    LiveWithout(g, {f.key}, now, l.timeout);
    LiveWith(g, f.key, Parts(p.fragments[f.ordinal := f.text], now), now, l.timeout);
  }

  lemma FeedPartRefines(g: Groups, f: Fragment, now: int, l: Limits)
    requires ValidLimits(l)
    ensures var (g', o) := FeedPart(g, f, now, l);
            var (h', status, sentences) := FeedPartEagerly(g, f, now, l);
            o.status == status && o.sentences == sentences && Live(g', now, l.timeout) == h'
  {
    OpenRefines(g, f.key, now, l);
    var o := Open(g, f.key, now, l);
    AbsorbLive(o.groups, f, now, l);
    LiveAgain(Absorb(o.groups, f, now).0, now, now, l.timeout);
  }

  /** One feed: same status, same sentences, and the same live groups afterwards. */
  lemma FeedRefines(g: Groups, h: Groups, f: Option<Fragment>, now: int, l: Limits)
    requires ValidLimits(l) && SameLive(g, h, now, l)
    ensures var (g', o) := Feed(g, f, now, l);
            var (h', status, sentences) := FeedEagerly(h, f, now, l);
            o.status == status && o.sentences == sentences && SameLive(g', h', now, l)
  {
    if Shortcut(f, l).None? {
      FeedPartRefines(g, f.value, now, l);
      LiveAgain(FeedPart(g, f.value, now, l).0, now, now, l.timeout);
    }
  }

  // ----------------------------------------------------------------------- over runs

  datatype Arrival = Arrival(fragment: Option<Fragment>, now: int)

  /** Clock readings never decrease, starting from `clock`. */
  predicate InTime(feeds: seq<Arrival>, clock: int)
    decreases |feeds|
  {
    feeds == [] || (clock <= feeds[0].now && InTime(feeds[1..], feeds[0].now))
  }

  /** The outcomes of a run. */
  ghost function Outcomes(g: Groups, feeds: seq<Arrival>, l: Limits): seq<Outcome>
    decreases |feeds|
  {
    if feeds == [] then [] else
    var (next, o) := Feed(g, feeds[0].fragment, feeds[0].now, l);
    [o] + Outcomes(next, feeds[1..], l)
  }

  ghost function Reports(g: Groups, feeds: seq<Arrival>, l: Limits): seq<(Status, seq<string>)>
    decreases |feeds|
  {
    if feeds == [] then [] else
    var (next, o) := Feed(g, feeds[0].fragment, feeds[0].now, l);
    [(o.status, o.sentences)] + Reports(next, feeds[1..], l)
  }

  ghost function EagerReports(g: Groups, feeds: seq<Arrival>, l: Limits): seq<(Status, seq<string>)>
    decreases |feeds|
  {
    if feeds == [] then [] else
    var (next, status, sentences) := FeedEagerly(g, feeds[0].fragment, feeds[0].now, l);
    [(status, sentences)] + EagerReports(next, feeds[1..], l)
  }

  /**
   Late expiry refines early expiry: for every run, with or without a limit on
   the number of groups, the assembler reports the statuses and the sentences of
   one that drops all expired groups before each feed.
   */
  lemma {:induction false} LazyRefinesEager(g: Groups, h: Groups, feeds: seq<Arrival>, clock: int, l: Limits)
    requires ValidLimits(l) && SameLive(g, h, clock, l) && InTime(feeds, clock)
    ensures Reports(g, feeds, l) == EagerReports(h, feeds, l)
    decreases |feeds|
  {
    if feeds != [] {
      LiveAgain(g, clock, feeds[0].now, l.timeout);
      LiveAgain(h, clock, feeds[0].now, l.timeout);
      FeedRefines(g, h, feeds[0].fragment, feeds[0].now, l);
      LazyRefinesEager(
        Feed(g, feeds[0].fragment, feeds[0].now, l).0, FeedEagerly(h, feeds[0].fragment, feeds[0].now, l).0,
        feeds[1..], feeds[0].now, l);
    }
  }

  // ------------------------------------------------------- what leaves, and what stays

  /** What a removal may be for: the age of the group at a time, or eviction. */
  datatype Cause = Cause(now: int, timeout: int, evicted: Option<Key>)

  /**
   From `g` to `h` exactly the groups of `gone` leave, for a good cause, and the
   others stay as they are; `except` is set aside.
   */
  ghost predicate Follows(g: Groups, h: Groups, except: Key, gone: set<Key>, why: Cause) {
    && (forall k :: k in h && k != except ==> k in g && h[k] == g[k])
    && (forall k :: k != except ==> (k in gone <==> k in g && k !in h))
    && (forall k :: k in gone && k != except && why.evicted != Some(k) ==> k in g && Stale(g[k], why.now, why.timeout))
  }

  lemma FollowsTwice(g: Groups, h: Groups, i: Groups, except: Key, gone: set<Key>, more: set<Key>, why: Cause)
    requires Follows(g, h, except, gone, why) && Follows(h, i, except, more, why)
    ensures Follows(g, i, except, gone + more, why)
  {
  }

  lemma FollowsLive(g: Groups, except: Key, why: Cause)
    ensures Follows(g, Live(g, why.now, why.timeout), except, Gone(g, why.now, why.timeout), why)
  {
  }

  lemma FollowsRemoval(g: Groups, except: Key, k: Key, why: Cause)
    requires k == except || (k in g && why.evicted == Some(k))
    ensures Follows(g, g - {k}, except, {k}, why)
  {
  }

  lemma FollowsAddition(g: Groups, h: Groups, except: Key, gone: set<Key>, p: Parts, why: Cause)
    requires Follows(g, h, except, gone, why)
    ensures Follows(g, h[except := p], except, gone, why)
  {
  }

  lemma RoomFollows(g: Groups, key: Key, now: int, l: Limits)
    ensures var room := MadeRoom(g, now, l);
            Follows(g, room.groups, key, room.discarded, Cause(now, l.timeout, room.evicted))
  {
    var why := Cause(now, l.timeout, MadeRoom(g, now, l).evicted);
    if Full(g, l) {
      var live := Live(g, now, l.timeout);
      FollowsLive(g, key, why);
      if Full(live, l) && |live| > 0 {
        FollowsRemoval(live, key, Victim(live), why);
        FollowsTwice(g, live, live - {Victim(live)}, key, Gone(g, now, l.timeout), {Victim(live)}, why);
      }
    }
  }

  /** How the other groups fare while a group for `key` is opened. */
  lemma OpenFollows(g: Groups, key: Key, now: int, l: Limits)
    requires ValidLimits(l)
    ensures var o := Open(g, key, now, l);
            key in o.groups && Follows(g, o.groups, key, o.discarded, Cause(now, l.timeout, o.evicted))
  {
    var kept := Kept(g, key, now, l);
    var own := g.Keys - kept.Keys;
    var room := MadeRoom(kept, now, l);
    var why := Cause(now, l.timeout, Open(g, key, now, l).evicted);
    assert Follows(g, kept, key, own, why);
    if key !in kept {
      RoomFollows(kept, key, now, l);
      FollowsTwice(g, kept, room.groups, key, own, room.discarded, why);
      FollowsAddition(g, room.groups, key, own + room.discarded, Parts(map[], now), why);
    }
  }

  /** The fragments of the live generation of a key: none if it has expired. */
  function Generation(g: Groups, key: Key, now: int, l: Limits): Parts {
    if key in g && !Stale(g[key], now, l.timeout) then g[key] else Parts(map[], now)
  }

  /** The own group while it is opened: discarded if it has expired, otherwise kept. */
  lemma OpenOwn(g: Groups, key: Key, now: int, l: Limits)
    ensures var o := Open(g, key, now, l);
            && (key in o.discarded <==> key in g && Stale(g[key], now, l.timeout))
            && o.groups[key] == Generation(g, key, now, l) && o.evicted != Some(key)
  {
    if key !in Kept(g, key, now, l) {
      RoomIsOfOthers(Kept(g, key, now, l), now, l);
    }
  }

  lemma RoomIsOfOthers(g: Groups, now: int, l: Limits)
    ensures MadeRoom(g, now, l).discarded <= g.Keys
    ensures MadeRoom(g, now, l).evicted.Some? ==> MadeRoom(g, now, l).evicted.value in g
  {
  }

  /** The two ways to open a group, by their results. */
  lemma OpenCases(g: Groups, key: Key, now: int, l: Limits)
    ensures var (o, kept) := (Open(g, key, now, l), Kept(g, key, now, l));
            var own := g.Keys - kept.Keys;
            && (key in kept ==> o.groups == kept && o.discarded == own && !o.cleaned)
            && (key !in kept ==>
                  var room := MadeRoom(kept, now, l);
                  && o.groups == room.groups[key := Parts(map[], now)] && o.cleaned == room.cleaned
                  && o.discarded == own + room.discarded && own !! room.discarded)
  {
    var kept := Kept(g, key, now, l);
    if key !in kept {
      RoomIsOfOthers(kept, now, l);
    }
  }

  lemma AbsorbFollows(g: Groups, f: Fragment, now: int, why: Cause)
    requires f.key in g
    ensures var (h, status, _) := Absorb(g, f, now);
            && Follows(g, h, f.key, if status == Conflict then {f.key} else {}, why)
            && (status in {Conflict, Complete} <==> f.key !in h)
  {
  }

  lemma SettleFollows(g: Groups, o: Opened, f: Fragment, now: int, l: Limits)
    requires ValidLimits(l) && f.key in o.groups
    requires Follows(g, o.groups, f.key, o.discarded, Cause(now, l.timeout, o.evicted))
    ensures var (next, r) := Settle(o, f, now, l);
            Follows(g, next, f.key, r.discarded, Cause(now, l.timeout, r.evicted))
  {
    var why := Cause(now, l.timeout, o.evicted);
    var (absorbed, status, _) := Absorb(o.groups, f, now);
    var conflict := if status == Conflict then {f.key} else {};
    AbsorbFollows(o.groups, f, now, why);
    FollowsTwice(g, o.groups, absorbed, f.key, o.discarded, conflict, why);
    var next := Settle(o, f, now, l).0;
    var cleans := Cleans(o, status);
    var gone := if cleans then Gone(absorbed, now, l.timeout) else {};
    FollowsLive(absorbed, f.key, why);
    FollowsTwice(g, absorbed, next, f.key, o.discarded + conflict, gone, why);
  }

  lemma SettleOwn(g: Groups, o: Opened, f: Fragment, now: int, l: Limits)
    requires ValidLimits(l) && f.key in o.groups && o.groups[f.key] == Generation(g, f.key, now, l)
    requires f.key in o.discarded <==> f.key in g && Stale(g[f.key], now, l.timeout)
    ensures var (next, r) := Settle(o, f, now, l);
            && r.status == Meets(Generation(g, f.key, now, l), f)
            && (f.key in r.discarded <==> r.status == Conflict || (f.key in g && Stale(g[f.key], now, l.timeout)))
            && (f.key in next <==> r.status in {Pending, Duplicate})
            && (f.key in next ==>
                  var p := Generation(g, f.key, now, l);
                  next[f.key] == if r.status == Pending then Parts(p.fragments[f.ordinal := f.text], now) else p)
  {
  }

  /** What a fragment and its own group come to. */
  lemma OwnOutcome(g: Groups, f: Fragment, now: int, l: Limits)
    requires ValidLimits(l)
    ensures var (next, o) := FeedPart(g, f, now, l);
            var p := Generation(g, f.key, now, l);
            && o.status == Meets(p, f)
            && o.sentences == (if o.status == Complete then Assembled(p, f) else [])
            && (f.key in next ==>
                  next[f.key] == if o.status == Pending then Parts(p.fragments[f.ordinal := f.text], now) else p)
  {
    OpenOwn(g, f.key, now, l);
    OpenFollows(g, f.key, now, l);
    SettleOwn(g, Open(g, f.key, now, l), f, now, l);
  }

  /**
   The discarded keys are exactly those whose generation ended without
   completing: expired, evicted, or in conflict.  No other group is touched, and
   only an eviction discards a group that has not expired.
   */
  lemma DiscardsAreExact(g: Groups, f: Fragment, now: int, l: Limits)
    requires ValidLimits(l)
    ensures var (next, o) := FeedPart(g, f, now, l);
            && Follows(g, next, f.key, o.discarded, Cause(now, l.timeout, o.evicted))
            && (f.key in o.discarded <==> o.status == Conflict || (f.key in g && Stale(g[f.key], now, l.timeout)))
            && (f.key in next <==> o.status in {Pending, Duplicate})
  {
    hide Open, Settle, Follows;
    OpenFollows(g, f.key, now, l);
    OpenOwn(g, f.key, now, l);
    SettleFollows(g, Open(g, f.key, now, l), f, now, l);
    SettleOwn(g, Open(g, f.key, now, l), f, now, l);
  }

  // -------------------------------------------------------------------- conservation

  lemma GoneAndLive(g: Groups, now: int, timeout: int)
    ensures |g| == |Live(g, now, timeout)| + |Gone(g, now, timeout)|
  {
    var (live, gone) := (Live(g, now, timeout), Gone(g, now, timeout));
    assert live.Keys !! gone && live.Keys + gone == g.Keys;
    assert |live.Keys + gone| == |live.Keys| + |gone|;
  }

  /** Groups stay unfinished, with ordinals within their totals, and within the limit on their number. */
  lemma FeedKeepsSane(g: Groups, f: Fragment, clock: int, now: int, l: Limits)
    requires ValidLimits(l) && Sane(g, clock) && clock <= now
    requires ValidFragment(f) && f.key.total >= 2
    ensures Sane(FeedPart(g, f, now, l).0, now)
  {
    hide FeedPart, SaneParts, Follows;
    var next := FeedPart(g, f, now, l).0;
    forall k | k in next ensures SaneParts(k, next[k], now) {
      if k == f.key {
        OwnStaysSane(g, f, clock, now, l);
      } else {
        OtherStays(g, f, now, l, k);
        assert SaneParts(k, g[k], clock);
        SaneLater(k, g[k], clock, now);
      }
    }
  }

  lemma SaneLater(k: Key, p: Parts, clock: int, now: int)
    requires SaneParts(k, p, clock) && clock <= now
    ensures SaneParts(k, p, now)
  {
  }

  lemma OtherStays(g: Groups, f: Fragment, now: int, l: Limits, k: Key)
    requires ValidLimits(l) && k != f.key && k in FeedPart(g, f, now, l).0
    ensures k in g && FeedPart(g, f, now, l).0[k] == g[k]
  {
    DiscardsAreExact(g, f, now, l);
    hide FeedPart;
  }

  lemma OwnStaysSane(g: Groups, f: Fragment, clock: int, now: int, l: Limits)
    requires ValidLimits(l) && Sane(g, clock) && clock <= now && ValidFragment(f) && f.key.total >= 2
    requires f.key in FeedPart(g, f, now, l).0
    ensures SaneParts(f.key, FeedPart(g, f, now, l).0[f.key], now)
  {
    hide FeedPart, Follows;
    OwnOutcome(g, f, now, l);
    DiscardsAreExact(g, f, now, l);
    var p := Generation(g, f.key, now, l);
    assert SaneParts(f.key, p, now) by {
      if f.key in g { assert SaneParts(f.key, g[f.key], clock); }
    }
    hide Sane, Generation;
    if Meets(p, f) == Pending { GrownIsSane(p, f, now); }
  }

  lemma GrownIsSane(p: Parts, f: Fragment, now: int)
    requires SaneParts(f.key, p, now) && ValidFragment(f) && Meets(p, f) == Pending
    ensures SaneParts(f.key, Parts(p.fragments[f.ordinal := f.text], now), now)
  {
    var grown := p.fragments[f.ordinal := f.text];
    assert grown.Keys == p.fragments.Keys + {f.ordinal};
    assert |grown| == |p.fragments| + 1;
  }

  lemma RoomFits(g: Groups, now: int, l: Limits)
    requires ValidLimits(l) && l.maxGroups.Some? && |g| <= l.maxGroups.value
    ensures |MadeRoom(g, now, l).groups| < l.maxGroups.value
  {
    GoneAndLive(g, now, l.timeout);
    var live := Live(g, now, l.timeout);
    if Full(live, l) && |live| > 0 {
      assert |live.Keys - {Victim(live)}| == |live.Keys| - 1;
      assert (live - {Victim(live)}).Keys == live.Keys - {Victim(live)};
    }
  }

  lemma OpenFits(g: Groups, key: Key, now: int, l: Limits)
    requires ValidLimits(l) && l.maxGroups.Some? && |g| <= l.maxGroups.value
    ensures |Open(g, key, now, l).groups| <= l.maxGroups.value
  {
    var kept := Kept(g, key, now, l);
    Smaller(kept.Keys, g.Keys);
    assert |kept.Keys| == |kept| && |g.Keys| == |g|;
    RoomFits(kept, now, l);
  }

  /** The number of groups never exceeds its limit. */
  lemma FeedFits(g: Groups, f: Fragment, now: int, l: Limits)
    requires ValidLimits(l) && l.maxGroups.Some? && |g| <= l.maxGroups.value
    ensures |FeedPart(g, f, now, l).0| <= l.maxGroups.value
  {
    OpenFits(g, f.key, now, l);
    OpenFollows(g, f.key, now, l);
    var o := Open(g, f.key, now, l);
    hide Open;
    var absorbed := Absorb(o.groups, f, now).0;
    Smaller(absorbed.Keys, o.groups.Keys);
    assert |absorbed.Keys| == |absorbed| && |o.groups.Keys| == |o.groups|;
    GoneAndLive(absorbed, now, l.timeout);
  }

  /** Whether the own group ends with this status. */
  function Closing(status: Status): nat {
    if status == Conflict || status == Complete then 1 else 0
  }

  lemma AbsorbCounts(g: Groups, f: Fragment, now: int)
    requires f.key in g
    ensures var (h, status, _) := Absorb(g, f, now); |h| == |g| - Closing(status)
  {
    var h := Absorb(g, f, now).0;
    assert h.Keys == g.Keys || h.Keys == g.Keys - {f.key};
    assert |h.Keys| == |h| && |g.Keys| == |g|;
  }

  /** No key is discarded twice in one feed. */
  lemma DisjointDiscards(g: Groups, o: Opened, f: Fragment, now: int, l: Limits)
    requires ValidLimits(l) && f.key.total >= 2 && f.key in o.groups
    requires Follows(g, o.groups, f.key, o.discarded, Cause(now, l.timeout, o.evicted))
    requires f.key in o.discarded ==> o.groups[f.key] == Parts(map[], now)
    ensures var (absorbed, status, _) := Absorb(o.groups, f, now);
            var conflict := if status == Conflict then {f.key} else {};
            o.discarded !! conflict && (o.discarded + conflict) !! Gone(absorbed, now, l.timeout)
  {
    var (absorbed, status, _) := Absorb(o.groups, f, now);
    forall k | k in Gone(absorbed, now, l.timeout) ensures k !in o.discarded && (status == Conflict ==> k != f.key) {
      assert k in absorbed && k in o.groups;
    }
  }

  /** The opened group is an unfinished one, and a new one if the own key was discarded. */
  lemma OpenSane(g: Groups, key: Key, clock: int, now: int, l: Limits)
    requires Sane(g, clock) && clock <= now && key.total >= 2
    ensures var o := Open(g, key, now, l);
            && key in o.groups && SaneParts(key, o.groups[key], now)
            && (key in o.discarded ==> o.groups[key] == Parts(map[], now))
  {
    OpenOwn(g, key, now, l);
    assert key in g ==> SaneParts(key, g[key], clock);
  }
}
