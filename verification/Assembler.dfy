/** `AIVDMAssembler` (assembler.py): groups updated in place, proved against AssemblyModel.dfy. */
module Assembler {
  import opened Common
  import opened KeyOrder
  import opened AssemblyModel

  /** `_AssemblyGroup`; `home` is the key it is kept under. */
  class AssemblyGroup {
    ghost const home: Key
    var fragmentsByOrdinal: map<int, string>
    var lastProgressAt: int

    constructor (ghost home: Key, now: int)
      ensures this.home == home && fragmentsByOrdinal == map[] && lastProgressAt == now
    {
      this.home := home;
      fragmentsByOrdinal, lastProgressAt := map[], now;
    }
  }

  datatype AssemblyOutcome = AssemblyOutcome(status: Status, key: Option<Key>, sentences: seq<string>, discarded: seq<Key>)

  datatype Stats = Stats(
    invalid: nat, single: nat, limitExceeded: nat, pending: nat, duplicates: nat, conflicts: nat, completed: nat,
    expired: nat, capacityEvicted: nat, resetDiscarded: nat, resets: nat, peakGroups: nat)

  function Counted(s: Stats, status: Status): Stats {
    match status
    case Invalid => s.(invalid := s.invalid + 1)
    case Single => s.(single := s.single + 1)
    case LimitExceeded => s.(limitExceeded := s.limitExceeded + 1)
    case Pending => s.(pending := s.pending + 1)
    case Duplicate => s.(duplicates := s.duplicates + 1)
    case Conflict => s.(conflicts := s.conflicts + 1)
    case Complete => s.(completed := s.completed + 1)
  }

  /** All groups whose life has ended. */
  function Ended(s: Stats): nat {
    s.completed + s.conflicts + s.expired + s.capacityEvicted + s.resetDiscarded
  }

  /** Groups whose life has ended, and groups alive. */
  function Accounted(s: Stats, g: Groups): int {
    Ended(s) + |g|
  }

  lemma AbsorbAccounted(s: Stats, g: Groups, f: Fragment, now: int)
    requires f.key in g
    ensures var (h, status, _) := Absorb(g, f, now); Accounted(s, h) == Accounted(s, g) - Closing(status)
  {
    AbsorbCounts(g, f, now);
  }

  lemma ResetAccounted(s: Stats, g: Groups, n: nat, clock: int)
    requires n == |g|
    ensures Accounted(s.(resets := s.resets + 1, resetDiscarded := s.resetDiscarded + n), map[]) == Accounted(s, g)
    ensures Sane(map[], clock)
  {
  }

  /** Some groups have left; the others are the same objects. */
  ghost predicate Narrowed(groups: map<Key, AssemblyGroup>, before: map<Key, AssemblyGroup>) {
    forall k :: k in groups ==> k in before && groups[k] == before[k]
  }

  ghost function GroupObjects(groups: map<Key, AssemblyGroup>): set<object> {
    set k | k in groups :: groups[k] as object
  }

  lemma NarrowedObjects(groups: map<Key, AssemblyGroup>, before: map<Key, AssemblyGroup>)
    requires Narrowed(groups, before)
    ensures GroupObjects(groups) <= GroupObjects(before)
  {
  }

  lemma NarrowedFew(groups: map<Key, AssemblyGroup>, key: Key)
    ensures Narrowed(groups, groups) && Narrowed(groups - {key}, groups)
  {
  }

  lemma NarrowedTwice(
    groups: map<Key, AssemblyGroup>, between: map<Key, AssemblyGroup>, before: map<Key, AssemblyGroup>)
    requires Narrowed(groups, between) && Narrowed(between, before)
    ensures Narrowed(groups, before)
  {
  }

  class AIVDMAssembler {
    const limits: Limits
    var groups: map<Key, AssemblyGroup>
    var stats: Stats
    /** The groups as values, and how many were ever started. */
    ghost var model: Groups
    ghost var started: nat
    ghost var clock: int

    ghost function Objects(): set<object>
      reads this
    {
      {this} + GroupObjects(groups)
    }

    ghost predicate Backs(k: Key)
      requires k in groups && k in model
      reads this, groups[k]
    {
      groups[k].home == k && model[k] == Parts(groups[k].fragmentsByOrdinal, groups[k].lastProgressAt)
    }

    ghost predicate Tied()
      reads Objects()
    {
      && groups.Keys == model.Keys
      && (forall k :: k in groups ==> Backs(k))
    }

    /** Every started group has completed, been in conflict, expired, been evicted or reset, or is still there. */
    ghost predicate Valid()
      reads Objects()
    {
      Tied() && ValidLimits(limits) && Sane(model, clock) && started == Accounted(stats, model)
    }

    constructor (limits: Limits, ghost now: int)
      requires ValidLimits(limits)
      ensures clock == now && Valid() && groups == map[] && model == map[] && this.limits == limits
    {
      this.limits := limits;
      groups := map[];
      stats := Stats(0, 0, 0, 0, 0, 0, 0, 0, 0, 0, 0, 0);
      model, started := map[], 0;
      clock := now;
    }

    /** Removes one group from the dictionary. */
    method Remove(key: Key)
      requires Tied() && key in groups
      modifies this`groups, this`model
      ensures Tied() && groups == old(groups) - {key} && model == old(model) - {key}
    {
      groups := groups - {key};
      model := model - {key};
      forall k | k in groups ensures Backs(k) { assert old(Backs(k)); }
    }

    /** The expired keys in order. */
    method StaleKeys(now: int) returns (keys: seq<Key>)
      requires Tied()
      ensures Sorted(keys) && Lists(keys, Gone(model, now, limits.timeout))
    {
      var stale := set k | k in groups && now - groups[k].lastProgressAt >= limits.timeout;
      assert stale == Gone(model, now, limits.timeout) by {
        forall k | k in groups ensures Stale(model[k], now, limits.timeout) <==> k in stale { assert Backs(k); }
      }
      keys := SortedKeys(stale);
    }

    /** `_expire_group`. */
    method ExpireGroup(key: Key)
      requires Tied() && key in groups
      modifies this`groups, this`model, this`stats
      ensures Tied() && groups == old(groups) - {key} && model == old(model) - {key}
      ensures stats == old(stats).(expired := old(stats).expired + 1)
    {
      Remove(key);
      stats := stats.(expired := stats.expired + 1);
    }

    method ExpireAll(keys: seq<Key>)
      requires Tied() && Sorted(keys) && forall k :: k in keys ==> k in groups
      modifies this`groups, this`model, this`stats
      ensures Tied() && groups == old(groups) - (set k | k in keys) && model == old(model) - (set k | k in keys)
      ensures stats == old(stats).(expired := old(stats).expired + |keys|)
    {
      var i := 0;
      while i < |keys|
        invariant i <= |keys| && Tied()
        invariant groups == old(groups) - (set k | k in keys[..i]) && model == old(model) - (set k | k in keys[..i])
        invariant stats == old(stats).(expired := old(stats).expired + i)
      {
        assert keys[i] !in keys[..i] by {
          if j :| 0 <= j < i && keys[j] == keys[i] { assert InOrder(keys, j, i); Comparable(keys[i], keys[i]); }
        }
        assert keys[..i + 1] == keys[..i] + [keys[i]];
        assert keys[i] in keys;
        ExpireGroup(keys[i]);
        i := i + 1;
      }
      assert keys[..i] == keys;
    }

    /** `_cleanup_expired`: exactly the expired groups leave, reported in key order. */
    method CleanupExpired(now: int) returns (keys: seq<Key>)
      requires Tied()
      modifies this`groups, this`model, this`stats
      ensures Tied() && model == Live(old(model), now, limits.timeout)
      ensures groups == old(groups) - Gone(old(model), now, limits.timeout)
      ensures Sorted(keys) && Lists(keys, Gone(old(model), now, limits.timeout))
      ensures stats == old(stats).(expired := old(stats).expired + |keys|)
      ensures Accounted(stats, model) == old(Accounted(stats, model))
    {
      GoneAndLive(model, now, limits.timeout);
      keys := StaleKeys(now);
      ExpireAll(keys);
      assert (set k | k in keys) == Gone(old(model), now, limits.timeout);
    }

    /** The key of the group that leaves a full dictionary. */
    method CapacityVictim() returns (victim: Key)
      requires Tied() && |groups| > 0
      ensures IsVictim(model, victim)
    {
      var rest := groups.Keys;
      assert |rest| > 0;
      victim :| victim in rest;
      rest := rest - {victim};
      while rest != {}
        invariant rest <= groups.Keys - {victim} && First(model, groups.Keys - rest, victim)
        decreases |rest|
      {
        var k :| k in rest;
        assert Backs(k) && Backs(victim);
        ghost var seen := groups.Keys - rest;
        SoonerIsTotal(model, k, victim);
        if groups[k].lastProgressAt < groups[victim].lastProgressAt
           || (groups[k].lastProgressAt == groups[victim].lastProgressAt && Before(k, victim)) {
          forall j | j in seen && j != victim ensures Sooner(model, k, j) {
            SoonerIsTransitive(model, k, victim, j);
          }
          victim := k;
        }
        rest := rest - {k};
        assert groups.Keys - rest == seen + {k};
      }
      assert groups.Keys - {} == groups.Keys;
    }

    /** `_evict_capacity_victim`. */
    method EvictCapacityVictim() returns (victim: Key)
      requires Tied() && |groups| > 0
      modifies this`groups, this`model, this`stats
      ensures |old(model)| > 0 && victim == Victim(old(model)) && Tied()
      ensures groups == old(groups) - {victim} && model == old(model) - {victim}
      ensures stats == old(stats).(capacityEvicted := old(stats).capacityEvicted + 1)
    {
      assert |model.Keys| == |groups.Keys|;
      victim := CapacityVictim();
      OneVictim(model, victim, Victim(model));
      Remove(victim);
      stats := stats.(capacityEvicted := stats.capacityEvicted + 1);
    }

    /** Evicts one group from a full dictionary. */
    method EvictIfFull() returns (victims: seq<Key>)
      requires Tied() && ValidLimits(limits) && limits.maxGroups.Some?
      modifies this`groups, this`model, this`stats
      ensures Tied() && Narrowed(groups, old(groups))
      ensures if Full(old(model), limits) && |old(model)| > 0
              then victims == [Victim(old(model))] && model == old(model) - {Victim(old(model))}
              else victims == [] && model == old(model)
      ensures Accounted(stats, model) == old(Accounted(stats, model))
    {
      victims := [];
      assert |model.Keys| == |groups.Keys|;
      if |groups| >= limits.maxGroups.value {
        ghost var live := model;
        var victim := EvictCapacityVictim();
        assert (live - {victim}).Keys == live.Keys - {victim};
        victims := [victim];
      }
    }

    /** Room for one more group: expired groups leave first, then at most one live one. */
    method MakeRoom(now: int) returns (discarded: seq<Key>, cleaned: bool)
      requires Tied() && ValidLimits(limits)
      modifies this`groups, this`model, this`stats
      ensures Tied() && Narrowed(groups, old(groups))
      ensures var room := MadeRoom(old(model), now, limits);
              && model == room.groups && cleaned == room.cleaned
              && Lists(discarded, room.discarded)
      ensures Accounted(stats, model) == old(Accounted(stats, model))
    {
      discarded, cleaned := [], false;
      assert |model.Keys| == |groups.Keys|;
      if limits.maxGroups.Some? && |groups| >= limits.maxGroups.value {
        var expired := CleanupExpired(now);
        var victims := EvictIfFull();
        discarded, cleaned := expired + victims, true;
      }
    }

    /** A fresh group under a key that has none. */
    method AddGroup(key: Key, now: int)
      requires Tied() && key !in groups
      modifies this`groups, this`model, this`started
      ensures Tied() && key in groups && fresh(groups[key]) && model == old(model)[key := Parts(map[], now)]
      ensures groups == old(groups)[key := groups[key]] && started == old(started) + 1
    {
      var group := new AssemblyGroup(key, now);
      groups := groups[key := group];
      model := model[key := Parts(map[], now)];
      started := started + 1;
      forall k | k in groups ensures Backs(k) { assert k != key ==> old(Backs(k)); }
    }

    /** An own group that has expired leaves. */
    method ExpireOwn(key: Key, now: int) returns (discarded: seq<Key>)
      requires Tied()
      modifies this`groups, this`model, this`stats
      ensures Tied() && model == Kept(old(model), key, now, limits)
      ensures Narrowed(groups, old(groups))
      ensures key in groups ==> discarded == []
      ensures var own := old(model).Keys - Kept(old(model), key, now, limits).Keys;
              Lists(discarded, own)
      ensures Accounted(stats, model) == old(Accounted(stats, model))
    {
      discarded := [];
      if key in groups {
        assert Backs(key);
        if now - groups[key].lastProgressAt >= limits.timeout {
          assert |model.Keys - {key}| == |model.Keys| - 1 && (model - {key}).Keys == model.Keys - {key};
          ExpireGroup(key);
          discarded := [key];
          assert old(model).Keys - model.Keys == {key};
        }
      }
      assert model.Keys - model.Keys == {};
    }

    /** A new group, and room for it. */
    method NewGroup(key: Key, now: int) returns (discarded: seq<Key>, cleaned: bool)
      requires Tied() && ValidLimits(limits) && key !in groups
      modifies this`groups, this`model, this`stats, this`started
      ensures Tied() && key in groups && fresh(groups[key])
      ensures forall k :: k in groups && k != key ==> k in old(groups) && groups[k] == old(groups[k])
      ensures var room := MadeRoom(old(model), now, limits);
              && model == room.groups[key := Parts(map[], now)] && cleaned == room.cleaned
              && Lists(discarded, room.discarded)
      ensures Accounted(stats, model) - started == old(Accounted(stats, model) - started)
    {
      hide MadeRoom, Ended, Lists;
      discarded, cleaned := MakeRoom(now);
      assert model[key := Parts(map[], now)].Keys == model.Keys + {key};
      AddGroup(key, now);
    }

    /** The own group is there afterwards: the unexpired one, or a new one. */
    method OpenGroup(key: Key, now: int) returns (discarded: seq<Key>, cleaned: bool)
      requires Tied() && ValidLimits(limits)
      modifies this`groups, this`model, this`stats, this`started
      ensures Tied() && key in groups && fresh(Objects() - old(Objects()))
      ensures Accounted(stats, model) - started == old(Accounted(stats, model) - started)
      ensures var o := Open(old(model), key, now, limits);
              && model == o.groups && cleaned == o.cleaned
              && Lists(discarded, o.discarded)
    {
      hide Open, MadeRoom, Kept, Accounted, Lists;
      OpenCases(model, key, now, limits);
      discarded := ExpireOwn(key, now);
      cleaned := false;
      if key !in groups {
        var others;
        ghost var own := old(model).Keys - model.Keys;
        ghost var room := MadeRoom(model, now, limits);
        others, cleaned := NewGroup(key, now);
        ListsBoth(discarded, others, own, room.discarded);
        discarded := discarded + others;
      }
    }

    /** The lines of a full group. */
    method FullLines(fragments: map<int, string>, total: int) returns (lines: seq<string>)
      requires forall o :: 1 <= o <= total ==> o in fragments
      ensures lines == InOrdinalOrder(fragments, total)
    {
      lines := [];
      var i := 1;
      while i <= total
        invariant |lines| == i - 1 && (total >= 0 ==> i <= total + 1) && (total < 0 ==> i == 1)
        invariant forall j :: 0 <= j < |lines| ==> lines[j] == fragments[j + 1]
      {
        lines := lines + [fragments[i]];
        i := i + 1;
      }
    }

    /** A new fragment enters its group. */
    method Store(f: Fragment, now: int)
      requires Tied() && f.key in groups
      modifies this`model, groups[f.key]
      ensures Tied() && f.key in old(model)
      ensures model == old(model)[f.key := Parts(old(model)[f.key].fragments[f.ordinal := f.text], now)]
    {
      var group := groups[f.key];
      assert Backs(f.key);
      forall k | k in groups && k != f.key ensures groups[k] != group { assert Backs(k); }
      group.fragmentsByOrdinal := group.fragmentsByOrdinal[f.ordinal := f.text];
      group.lastProgressAt := now;
      model := model[f.key := Parts(group.fragmentsByOrdinal, now)];
      forall k | k in groups ensures Backs(k) { assert old(Backs(k)); }
    }

    /** The fragment meets its group. */
    method AddFragment(f: Fragment, now: int) returns (status: Status, lines: seq<string>)
      requires Tied() && f.key in groups && ValidFragment(f) && SaneParts(f.key, model[f.key], now)
      modifies this`groups, this`model, groups[f.key]
      ensures Tied() && Narrowed(groups, old(groups))
      ensures f.key in old(model) && (model, status, lines) == Absorb(old(model), f, now)
    {
      hide Narrowed;
      NarrowedFew(groups, f.key);
      lines := [];
      assert Backs(f.key);
      ghost var p := model[f.key];
      var group := groups[f.key];
      if f.ordinal in group.fragmentsByOrdinal {
        if group.fragmentsByOrdinal[f.ordinal] == f.text {
          return Duplicate, [];
        }
        Remove(f.key);
        return Conflict, [];
      }
      Store(f, now);
      assert Backs(f.key);
      assert |group.fragmentsByOrdinal| == |p.fragments| + 1;
      if |group.fragmentsByOrdinal| == f.key.total {
        CountingIsEnough(group.fragmentsByOrdinal.Keys, f.key.total);
        assert |group.fragmentsByOrdinal.Keys| == |group.fragmentsByOrdinal|;
        lines := FullLines(group.fragmentsByOrdinal, f.key.total);
        Remove(f.key);
        assert model == old(model) - {f.key};
        return Complete, lines;
      }
      status := Pending;
    }

    /** `_update_peaks`, for the number of groups. */
    method UpdatePeaks()
      requires Tied()
      modifies this`stats
      ensures Tied() && stats == old(stats).(peakGroups := Max(old(stats).peakGroups, |model|))
      ensures Accounted(stats, model) == old(Accounted(stats, model))
    {
      assert |model.Keys| == |groups.Keys|;
      stats := stats.(peakGroups := Max(stats.peakGroups, |groups|));
    }

    /** Cleanup at a point where it may already have been done. */
    method CleanIf(due: bool, now: int) returns (keys: seq<Key>)
      requires Tied()
      modifies this`groups, this`model, this`stats
      ensures Tied() && Narrowed(groups, old(groups))
      ensures model == if due then Live(old(model), now, limits.timeout) else old(model)
      ensures var gone := if due then Gone(old(model), now, limits.timeout) else {};
              Lists(keys, gone)
      ensures Accounted(stats, model) == old(Accounted(stats, model))
    {
      keys := [];
      if due {
        keys := CleanupExpired(now);
      }
    }

    /** The fragment meets its open group, and expired groups leave if they have not yet. */
    method SettleFragment(ghost g: Groups, ghost o: Opened, f: Fragment, now: int, gone: seq<Key>, cleaned: bool)
      returns (status: Status, lines: seq<string>, discarded: seq<Key>)
      requires Tied() && ValidLimits(limits) && ValidFragment(f) && f.key.total >= 2
      requires f.key in groups && SaneParts(f.key, model[f.key], now)
      requires model == o.groups && cleaned == o.cleaned
      requires Lists(gone, o.discarded)
      requires Follows(g, o.groups, f.key, o.discarded, Cause(now, limits.timeout, o.evicted))
      requires f.key in o.discarded ==> o.groups[f.key] == Parts(map[], now)
      modifies this`groups, this`model, this`stats, groups[f.key]
      ensures Tied() && Objects() <= old(Objects())
      ensures var (next, r) := Settle(o, f, now, limits);
              && model == next && status == r.status && lines == r.sentences
              && Lists(discarded, r.discarded)
      ensures Accounted(stats, model) == old(Accounted(stats, model)) - Closing(status)
    {
      hide Follows, Live, Gone, Absorb, Ended, GroupObjects, Lists, SaneParts, Narrowed, Closing, Accounted;
      DisjointDiscards(g, o, f, now, limits);
      AbsorbAccounted(stats, model, f, now);
      ListsFew(f.key);
      status, lines := AddFragment(f, now);
      var conflict := if status == Conflict then [f.key] else [];
      ghost var (absorbed, between) := (model, groups);
      var more := CleanIf(status != Complete && !(status == Pending && cleaned), now);
      NarrowedTwice(groups, between, old(groups));
      NarrowedObjects(groups, old(groups));
      discarded := gone + conflict + more;
      ghost var own := if status == Conflict then {f.key} else {};
      ListsBoth(gone, conflict, o.discarded, own);
      ListsBoth(gone + conflict, more, o.discarded + own,
                if Cleans(o, status) then AssemblyModel.Gone(absorbed, now, limits.timeout) else {});
    }

    /** `_feed_validated_fragment`, for a declared total within bounds. */
    method FeedFragment(f: Fragment, now: int) returns (status: Status, lines: seq<string>, discarded: seq<Key>)
      requires Valid() && clock <= now && ValidFragment(f) && f.key.total >= 2
      modifies Objects()
      ensures Tied() && started == Accounted(stats, model) + Closing(status)
      ensures fresh(Objects() - old(Objects()))
      ensures var (next, o) := FeedPart(old(model), f, now, limits);
              && model == next && status == o.status && lines == o.sentences && Lists(discarded, o.discarded)
              && o.key == Some(f.key)
    {
      assert FeedPart(model, f, now, limits).1.key == Some(f.key);
      hide Open, Follows, Settle, Accounted, Lists, Sane, SaneParts, Closing, Narrowed;
      ghost var (g, o) := (model, Open(model, f.key, now, limits));
      OpenFollows(model, f.key, now, limits);
      OpenSane(model, f.key, clock, now, limits);
      var gone, cleaned;
      gone, cleaned := OpenGroup(f.key, now);
      status, lines, discarded := SettleFragment(g, o, f, now, gone, cleaned);
    }

    /** `_outcome`: counts the status. */
    method Count(status: Status, ghost now: int)
      requires Tied()
      modifies this`stats, this`clock
      ensures Tied() && clock == now && stats == Counted(old(stats), status)
      ensures Accounted(stats, model) == old(Accounted(stats, model)) + Closing(status)
    {
      stats := Counted(stats, status);
      clock := now;
      forall k | k in groups ensures Backs(k) { assert old(Backs(k)); }
    }

    /** A feed that reaches a group, with its report. */
    method FeedReported(f: Fragment, now: int) returns (r: AssemblyOutcome)
      requires Valid() && clock <= now && ValidFragment(f) && f.key.total >= 2
      modifies Objects()
      ensures Valid() && clock == now && fresh(Objects() - old(Objects()))
      ensures var (next, o) := FeedPart(old(model), f, now, limits);
              && model == next
              && r.status == o.status && r.key == o.key && r.sentences == o.sentences
              && Sorted(r.discarded) && Lists(r.discarded, o.discarded)
    {
      hide Accounted, FeedPart, Sorted;
      FeedKeepsSane(model, f, clock, now, limits);
      var status, lines, discarded := FeedFragment(f, now);
      ListsItself(discarded, FeedPart(old(model), f, now, limits).1.discarded);
      var sorted := SortedKeys(set k | k in discarded);
      assert |sorted| == |discarded|;
      if status == Pending {
        UpdatePeaks();
      }
      r := AssemblyOutcome(status, Some(f.key), lines, sorted);
      Count(status, now);
    }

    /** `feed_parsed_outcome`: one sentence, its outcome, and the keys it discarded in order. */
    method Feed(parsed: Option<Fragment>, now: int) returns (r: AssemblyOutcome)
      requires Valid() && clock <= now
      modifies Objects()
      ensures Valid() && clock == now && fresh(Objects() - old(Objects()))
      ensures var (next, o) := AssemblyModel.Feed(old(model), parsed, now, limits);
              && model == next
              && r.status == o.status && r.key == o.key && r.sentences == o.sentences
              && Sorted(r.discarded) && Lists(r.discarded, o.discarded)
    {
      hide FeedPart, Accounted;
      r := AssemblyOutcome(Invalid, None, [], []);
      if parsed.Some? && ValidFragment(parsed.value) {
        var f := parsed.value;
        if f.key.total == 1 {
          r := AssemblyOutcome(Single, None, [f.text], []);
        } else if limits.maxFragments.Some? && f.key.total > limits.maxFragments.value {
          r := AssemblyOutcome(LimitExceeded, None, [], []);
        } else {
          r := FeedReported(f, now);
          return;
        }
      }
      Count(r.status, now);
    }

    /** `cleanup_expired`. */
    method Cleanup(now: int) returns (keys: seq<Key>)
      requires Valid() && clock <= now
      modifies this`groups, this`model, this`stats
      ensures Valid() && model == Live(old(model), now, limits.timeout) && Objects() <= old(Objects())
      ensures Sorted(keys) && Lists(keys, Gone(old(model), now, limits.timeout))
    {
      keys := CleanupExpired(now);
    }

    /** `reset`: every group goes, and all their keys are reported. */
    method Reset() returns (discarded: seq<Key>)
      requires Valid()
      modifies this`groups, this`model, this`stats
      ensures Valid() && model == map[] && groups == map[]
      ensures Sorted(discarded) && Lists(discarded, old(model).Keys)
      ensures stats == old(stats).(resets := old(stats).resets + 1,
                                   resetDiscarded := old(stats).resetDiscarded + |old(model)|)
    {
      hide Sorted, Lists, Sane, Accounted;
      assert |model.Keys| == |model|;
      discarded := SortedKeys(groups.Keys);
      ResetAccounted(stats, model, |discarded|, clock);
      groups, model := map[], map[];
      stats := stats.(resets := stats.resets + 1, resetDiscarded := stats.resetDiscarded + |discarded|);
    }
  }
}
