/** The duplicate filter (dedup.py): an expiry-ordered index over a dictionary. */
module Dedup {
  import opened Common
  import opened AcceptanceLog
  import opened RecordIndex

  /** `_cache_key`: no scope stands for the global scope, distinct from every target. */
  datatype DedupKey = DedupKey(scope: Option<nat>, message: seq<string>)

  datatype DedupStats = DedupStats(
    accepted: nat, duplicates: nat, expired: nat, capacityEvicted: nat, resets: nat, peakEntries: nat)

  class Deduplicator {
    const ttl: int
    const maxEntries: Capacity
    var cache: map<DedupKey, Record<DedupKey>>
    var expiryIndex: Index<DedupKey>
    var stats: DedupStats
    /** The acceptances since the last reset, and the sum of all `Reset` results. */
    ghost var past: Store<DedupKey>
    ghost var resetDiscarded: nat

    /** The record is the cached one, by identity. */
    ghost predicate Live(record: Record<DedupKey>)
      reads this`cache
    {
      record.key in cache && cache[record.key] == record
    }

    ghost predicate Indexed()
      reads this`cache, this`expiryIndex
    {
      DistinctKeys(expiryIndex) && cache == Cached(expiryIndex)
    }

    ghost predicate Valid()
      reads this
    {
      && cache == Cached(expiryIndex)
      && Faithful(expiryIndex, past, 0, ttl, maxEntries)
      && stats.accepted == stats.expired + stats.capacityEvicted + resetDiscarded + |cache|
      && |cache| <= stats.peakEntries && Fits(stats.peakEntries, maxEntries)
    }

    constructor (ttl: int, maxEntries: Capacity, ghost clock: int)
      requires ValidCapacity(maxEntries)
      ensures Valid() && past == Empty(clock) && this.ttl == ttl && this.maxEntries == maxEntries
      ensures stats == DedupStats(0, 0, 0, 0, 0, 0) && resetDiscarded == 0
    {
      this.ttl, this.maxEntries := ttl, maxEntries;
      cache, expiryIndex, stats := map[], [], DedupStats(0, 0, 0, 0, 0, 0);
      past, resetDiscarded := Empty(clock), 0;
    }

    /** Drops the front record, and its cache entry when the record is the cached one. */
    method PopFront() returns (removed: bool)
      requires |expiryIndex| > 0
      modifies this`cache, this`expiryIndex
      ensures removed <==> old(Live(expiryIndex[0]))
      ensures expiryIndex == old(expiryIndex)[1..]
      ensures cache == if removed then old(cache) - {old(expiryIndex)[0].key} else old(cache)
    {
      var record := expiryIndex[0];
      expiryIndex := expiryIndex[1..];
      removed := record.key in cache && cache[record.key] == record;
      if removed {
        cache := cache - {record.key};
      }
    }

    /** The expiry loop: stops at the first record younger than `ttl`. */
    method DropExpired(now: int) returns (ghost dropped: nat)
      requires Indexed()
      modifies this`cache, this`expiryIndex, this`stats
      ensures Indexed() && |cache| + dropped == |old(cache)|
      ensures dropped <= |old(expiryIndex)| && expiryIndex == old(expiryIndex)[dropped..]
      ensures forall i :: 0 <= i < dropped ==> !Fresh(old(expiryIndex)[i].stamp, now, ttl)
      ensures |expiryIndex| > 0 ==> Fresh(expiryIndex[0].stamp, now, ttl)
      ensures stats == old(stats).(expired := old(stats).expired + dropped)
    {
      dropped := 0;
      while |expiryIndex| > 0
        invariant Indexed() && |cache| + dropped == |old(cache)|
        invariant dropped <= |old(expiryIndex)| && expiryIndex == old(expiryIndex)[dropped..]
        invariant forall i :: 0 <= i < dropped ==> !Fresh(old(expiryIndex)[i].stamp, now, ttl)
        invariant stats == old(stats).(expired := old(stats).expired + dropped)
        decreases |expiryIndex|
      {
        if now - expiryIndex[0].stamp < ttl {
          break;
        }
        CachedHead(expiryIndex);
        var removed := PopFront();
        if removed {
          stats := stats.(expired := stats.expired + 1);
        }
        dropped := dropped + 1;
      }
    }

    /** Removes exactly the entries whose age has reached `ttl`. */
    method CleanupExpired(now: int)
      requires Valid() && past.clock <= now
      modifies this`cache, this`expiryIndex, this`stats, this`past
      ensures Valid() && past == Cleaned(old(past), now, ttl)
      ensures stats == old(stats).(expired := old(stats).expired + past.gone - old(past).gone)
    {
      ghost var dropped := DropExpired(now);
      ScanIsCleanup(old(expiryIndex), past, dropped, now, 0, ttl, maxEntries);
      past := Cleaned(past, now, ttl);
    }

    /**
     Evicts the oldest cached record, passing over records no longer cached.
     While some record `at` of the index is cached the loop cannot run off the
     index, so the error after it is unreachable.
     */
    method EvictOldestLive(ghost at: nat) returns (ghost skipped: nat)
      requires at < |expiryIndex| && Live(expiryIndex[at])
      modifies this`cache, this`expiryIndex, this`stats
      ensures skipped <= at && expiryIndex == old(expiryIndex)[skipped + 1..]
      ensures forall i :: 0 <= i < skipped ==> !old(Live(expiryIndex[i]))
      ensures old(Live(expiryIndex[skipped])) && cache == old(cache) - {old(expiryIndex)[skipped].key}
      ensures stats == old(stats).(capacityEvicted := old(stats).capacityEvicted + 1)
    {
      skipped := 0;
      while |expiryIndex| > 0
        invariant cache == old(cache) && stats == old(stats)
        invariant skipped <= at && expiryIndex == old(expiryIndex)[skipped..]
        invariant forall i :: 0 <= i < skipped ==> !old(Live(expiryIndex[i]))
        decreases |expiryIndex|
      {
        var removed := PopFront();
        if removed {
          stats := stats.(capacityEvicted := stats.capacityEvicted + 1);
          return;
        }
        skipped := skipped + 1;
      }
      assert false;
    }

    /** Evicts oldest entries while the store is full: one at most, from a store that fits. */
    method MakeRoom() returns (ghost dropped: nat)
      requires Indexed() && ValidCapacity(maxEntries) && Fits(|expiryIndex|, maxEntries)
      modifies this`cache, this`expiryIndex, this`stats
      ensures Indexed()
      ensures dropped == (if maxEntries == Some(|old(expiryIndex)|) then 1 else 0)
      ensures dropped <= |old(expiryIndex)| && expiryIndex == old(expiryIndex)[dropped..]
      ensures stats == old(stats).(capacityEvicted := old(stats).capacityEvicted + dropped)
    {
      dropped := 0;
      CachedSize(expiryIndex);
      while maxEntries.Some? && |cache| >= maxEntries.value
        invariant Indexed() && |cache| == |expiryIndex|
        invariant dropped <= |old(expiryIndex)| && expiryIndex == old(expiryIndex)[dropped..]
        invariant dropped == 0 || (dropped == 1 && maxEntries == Some(|old(expiryIndex)|))
        invariant stats == old(stats).(capacityEvicted := old(stats).capacityEvicted + dropped)
        decreases |cache|
      {
        CachedHead(expiryIndex);
        ghost var skipped := EvictOldestLive(0);
        dropped := dropped + 1;
      }
    }

    /** Accepts unless the key occurs, unexpired, among the last `maxEntries` acceptances. */
    method IsUnique(message: seq<string>, scope: Option<nat>, now: int) returns (unique: bool)
      requires Valid() && past.clock <= now
      modifies this
      ensures Valid() && past == Offered(old(past), DedupKey(scope, message), now, ttl, maxEntries)
      ensures unique <==> !Blocks(old(past).log, DedupKey(scope, message), now, ttl, maxEntries)
      ensures past.log == Offer(old(past).log, DedupKey(scope, message), now, ttl, maxEntries)
      ensures stats.accepted == old(stats.accepted) + (if unique then 1 else 0)
      ensures stats.duplicates == old(stats.duplicates) + (if unique then 0 else 1)
      ensures stats.resets == old(stats.resets) && resetDiscarded == old(resetDiscarded)
    {
      var key := DedupKey(scope, message);
      OfferedRefinesLog(past, key, now, ttl, maxEntries);
      CleanedDecides(past, key, now, ttl, maxEntries);
      CleanupExpired(now);
      LookupIsHolds(expiryIndex, past, 0, key);
      if key in cache {
        stats := stats.(duplicates := stats.duplicates + 1);
        return false;
      }
      var record := new Record(key, now);
      Admit(record);
      return true;
    }

    /** The accepting branch: make room, then store the new record. */
    method Admit(record: Record<DedupKey>)
      requires Valid() && past.clock == record.stamp && record.key !in cache
      requires Sound(Admitted(past, record.key, maxEntries), ttl, maxEntries)
      modifies this`cache, this`expiryIndex, this`stats, this`past
      ensures Valid() && past == Admitted(old(past), record.key, maxEntries)
      ensures stats.accepted == old(stats.accepted) + 1
      ensures stats.duplicates == old(stats.duplicates) && stats.resets == old(stats.resets)
    {
      AppendIsAdmission(expiryIndex, past, record, 0, maxEntries);
      CachedSize(expiryIndex);
      ghost var dropped := MakeRoom();
      AppendInDictionary(expiryIndex, record);
      expiryIndex := expiryIndex + [record];
      cache := cache[record.key := record];
      stats := stats.(accepted := stats.accepted + 1, peakEntries := Max(stats.peakEntries, |cache|));
      past := Admitted(past, record.key, maxEntries);
    }

    method Reset() returns (discarded: nat)
      requires Valid()
      modifies this
      ensures Valid() && discarded == |old(cache)| && |cache| == 0
      ensures past == Empty(old(past).clock)
      ensures resetDiscarded == old(resetDiscarded) + discarded
      ensures stats == old(stats).(resets := old(stats.resets) + 1)
    {
      discarded := |cache|;
      cache, expiryIndex := map[], [];
      stats := stats.(resets := stats.resets + 1);
      past, resetDiscarded := Empty(past.clock), resetDiscarded + discarded;
    }
  }
}
