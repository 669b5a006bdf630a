/** `_BoundedExpiringSet` (aismixer_secure.py): replay keys and data nonces. */
module ExpiringSet {
  import opened Common
  import opened AcceptanceLog
  import opened RecordIndex

  datatype Admission = Admission(accepted: bool, expired: nat, capacityEvicted: nat)

  class BoundedExpiringSet<K(==, !new)> {
    const ttl: int
    const maxEntries: nat
    var liveByKey: map<K, Record<K>>
    var expiryOrder: Index<K>
    /** What the set stands for: the keys accepted since it was last emptied. */
    ghost var store: Store<K>

    ghost predicate Live(record: Record<K>)
      reads this`liveByKey
    {
      record.key in liveByKey && liveByKey[record.key] == record
    }

    ghost predicate Indexed()
      reads this`liveByKey, this`expiryOrder
    {
      DistinctKeys(expiryOrder) && liveByKey == Cached(expiryOrder)
    }

    ghost predicate Valid()
      reads this
    {
      liveByKey == Cached(expiryOrder) && Faithful(expiryOrder, store, ttl, ttl, Some(maxEntries))
    }

    constructor (ttl: int, maxEntries: nat, ghost clock: int)
      requires maxEntries >= 1
      ensures Valid() && store == Empty(clock) && this.ttl == ttl && this.maxEntries == maxEntries
    {
      this.ttl, this.maxEntries := ttl, maxEntries;
      liveByKey, expiryOrder := map[], [];
      store := Empty(clock);
    }

    method Size() returns (n: nat)
      requires Valid()
      ensures n == store.Size()
    {
      CachedSize(expiryOrder);
      n := |liveByKey|;
    }

    /** The expiry scan; it also passes over records that are no longer the live ones. */
    method DropExpired(now: int) returns (expired: nat)
      modifies this`liveByKey, this`expiryOrder
      ensures old(Indexed()) ==>
                && Indexed() && expired <= |old(expiryOrder)| && expiryOrder == old(expiryOrder)[expired..]
                && (forall i :: 0 <= i < expired ==> old(expiryOrder)[i].stamp <= now)
                && (|expiryOrder| > 0 ==> expiryOrder[0].stamp > now)
    {
      ghost var tidy := Indexed();
      expired := 0;
      while |expiryOrder| > 0
        invariant tidy ==>
                    && Indexed() && expired <= |old(expiryOrder)| && expiryOrder == old(expiryOrder)[expired..]
                    && (forall i :: 0 <= i < expired ==> old(expiryOrder)[i].stamp <= now)
        decreases |expiryOrder|
      {
        var record := expiryOrder[0];
        if tidy { CachedHead(expiryOrder); }
        if record.key !in liveByKey || liveByKey[record.key] != record {
          expiryOrder := expiryOrder[1..];
          continue;
        }
        if record.stamp > now {
          break;
        }
        expiryOrder := expiryOrder[1..];
        liveByKey := liveByKey - {record.key};
        expired := expired + 1;
      }
    }

    /** Removes exactly the expired keys. */
    method CleanupExpired(now: int) returns (expired: nat)
      requires Valid() && store.clock <= now
      modifies this
      ensures Valid() && store == Cleaned(old(store), now, ttl)
      ensures expired == store.gone - old(store).gone
    {
      expired := DropExpired(now);
      ScanIsCleanup(old(expiryOrder), store, expired, now, ttl, ttl, Some(maxEntries));
      store := Cleaned(store, now, ttl);
    }

    /** Evicts the oldest live record; while record `at` is live, the final error is unreachable. */
    method EvictOldestLive(ghost at: nat) returns (evicted: nat, ghost skipped: nat)
      requires at < |expiryOrder| && Live(expiryOrder[at])
      modifies this`liveByKey, this`expiryOrder
      ensures evicted == 1
      ensures skipped <= at && expiryOrder == old(expiryOrder)[skipped + 1..]
      ensures forall i :: 0 <= i < skipped ==> !old(Live(expiryOrder[i]))
      ensures old(Live(expiryOrder[skipped])) && liveByKey == old(liveByKey) - {old(expiryOrder)[skipped].key}
    {
      skipped := 0;
      while |expiryOrder| > 0
        invariant liveByKey == old(liveByKey)
        invariant skipped <= at && expiryOrder == old(expiryOrder)[skipped..]
        invariant forall i :: 0 <= i < skipped ==> !old(Live(expiryOrder[i]))
        decreases |expiryOrder|
      {
        var record := expiryOrder[0];
        expiryOrder := expiryOrder[1..];
        if record.key !in liveByKey || liveByKey[record.key] != record {
          skipped := skipped + 1;
          continue;
        }
        liveByKey := liveByKey - {record.key};
        return 1, skipped;
      }
      assert false;
    }

    method Contains(key: K, now: int) returns (seen: bool, expired: nat)
      requires Valid() && store.clock <= now
      modifies this
      ensures Valid() && store == Cleaned(old(store), now, ttl)
      ensures expired == store.gone - old(store).gone
      ensures seen <==> Blocks(old(store).log, key, now, ttl, Some(maxEntries))
    {
      CleanedDecides(store, key, now, ttl, Some(maxEntries));
      expired := CleanupExpired(now);
      LookupIsHolds(expiryOrder, store, ttl, key);
      seen := key in liveByKey;
    }

    /** Accepts unless the key occurs, unexpired, among the last `maxEntries` acceptances. */
    method Accept(key: K, now: int) returns (admission: Admission)
      requires Valid() && store.clock <= now
      modifies this
      ensures Valid() && store == Offered(old(store), key, now, ttl, Some(maxEntries))
      ensures admission.accepted <==> !Blocks(old(store).log, key, now, ttl, Some(maxEntries))
      ensures store.log == Offer(old(store).log, key, now, ttl, Some(maxEntries))
      ensures admission.expired == Cleaned(old(store), now, ttl).gone - old(store).gone
      ensures admission.expired + admission.capacityEvicted == store.gone - old(store).gone
    {
      OfferedRefinesLog(store, key, now, ttl, Some(maxEntries));
      CleanedDecides(store, key, now, ttl, Some(maxEntries));
      var expired := CleanupExpired(now);
      LookupIsHolds(expiryOrder, store, ttl, key);
      if key in liveByKey {
        return Admission(false, expired, 0);
      }
      var record := new Record(key, now + ttl);
      var capacityEvicted := Admit(record);
      return Admission(true, expired, capacityEvicted);
    }

    method Admit(record: Record<K>) returns (capacityEvicted: nat)
      requires Valid() && record.stamp == store.clock + ttl && record.key !in liveByKey
      requires Sound(Admitted(store, record.key, Some(maxEntries)), ttl, Some(maxEntries))
      modifies this
      ensures Valid() && store == Admitted(old(store), record.key, Some(maxEntries))
      ensures capacityEvicted == store.gone - old(store).gone
    {
      AppendIsAdmission(expiryOrder, store, record, ttl, Some(maxEntries));
      CachedSize(expiryOrder);
      capacityEvicted := 0;
      if |liveByKey| >= maxEntries {
        CachedHead(expiryOrder);
        ghost var skipped;
        capacityEvicted, skipped := EvictOldestLive(0);
      }
      AppendInDictionary(expiryOrder, record);
      liveByKey := liveByKey[record.key := record];
      expiryOrder := expiryOrder + [record];
      store := Admitted(store, record.key, Some(maxEntries));
    }

    /** Empties the set; its owner is gone, so the log starts over. */
    method DiscardAll() returns (discarded: nat)
      requires Valid()
      modifies this
      ensures Valid() && store == Empty(old(store).clock)
      ensures discarded == old(store).Size()
    {
      CachedSize(expiryOrder);
      discarded := |liveByKey|;
      liveByKey, expiryOrder := map[], [];
      store := Empty(store.clock);
    }
  }
}
