/**
 Dictionaries with an insertion-ordered index of records, as both filters keep
 them: the dictionary maps a key to its record, the index lists the records.
 Records are compared by identity, so they are objects with constant fields.
 */
module RecordIndex {
  import opened Common
  import opened AcceptanceLog

  class Record<K(==)> {
    const key: K
    const stamp: int

    constructor (key: K, stamp: int)
      ensures this.key == key && this.stamp == stamp
    {
      this.key, this.stamp := key, stamp;
    }
  }

  type Index<K(==)> = seq<Record<K>>

  /** The dictionary that an index stands for. */
  ghost function Cached<K>(index: Index<K>): map<K, Record<K>> {
    if index == [] then map[] else Cached(index[1..])[index[0].key := index[0]]
  }

  ghost predicate Differ<K>(index: Index<K>, i: int, j: int)
    requires 0 <= i < |index| && 0 <= j < |index|
  {
    index[i].key != index[j].key
  }

  ghost predicate DistinctKeys<K>(index: Index<K>) {
    forall i, j :: 0 <= i < j < |index| ==> Differ(index, i, j)
  }

  lemma DistinctDrop<K>(index: Index<K>, n: nat)
    requires DistinctKeys(index) && n <= |index|
    ensures DistinctKeys(index[n..])
  {
    forall i, j | 0 <= i < j < |index[n..]| ensures Differ(index[n..], i, j) {
      assert Differ(index, n + i, n + j);
    }
  }

  lemma DistinctAppend<K>(index: Index<K>, record: Record<K>)
    requires DistinctKeys(index)
    requires forall i :: 0 <= i < |index| ==> index[i].key != record.key
    ensures DistinctKeys(index + [record])
  {
    forall i, j | 0 <= i < j < |index + [record]| ensures Differ(index + [record], i, j) {
      if j < |index| { assert Differ(index, i, j); }
    }
  }

  lemma {:induction false} CachedIffIndexed<K>(index: Index<K>, key: K)
    ensures key in Cached(index) <==> exists i :: 0 <= i < |index| && index[i].key == key
  {
    if index != [] {
      var tail := index[1..];
      CachedIffIndexed(tail, key);
      if i :| 0 <= i < |index| && index[i].key == key {
        if i > 0 { assert tail[i - 1].key == key; }
      }
      if j :| 0 <= j < |tail| && tail[j].key == key {
        assert index[j + 1].key == key;
      }
    }
  }

  /** What the front record of an index is to the dictionary. */
  lemma CachedHead<K>(index: Index<K>)
    requires index != [] && DistinctKeys(index)
    ensures index[0].key in Cached(index) && Cached(index)[index[0].key] == index[0]
    ensures Cached(index) - {index[0].key} == Cached(index[1..])
    ensures |Cached(index)| == 1 + |Cached(index[1..])|
    ensures DistinctKeys(index[1..])
  {
    DistinctDrop(index, 1);
    CachedIffIndexed(index[1..], index[0].key);
    forall i | 0 <= i < |index[1..]| ensures index[1..][i].key != index[0].key {
      assert Differ(index, 0, i + 1);
    }
  }

  lemma {:induction false} CachedSize<K>(index: Index<K>)
    requires DistinctKeys(index)
    ensures |Cached(index)| == |index|
  {
    if index != [] {
      CachedHead(index);
      CachedSize(index[1..]);
    }
  }

  lemma {:induction false} CachedAppend<K>(index: Index<K>, record: Record<K>)
    requires record.key !in Cached(index)
    ensures Cached(index + [record]) == Cached(index)[record.key := record]
  {
    if index != [] {
      CachedAppend(index[1..], record);
      assert (index + [record])[1..] == index[1..] + [record];
    }
  }

  /**
   The index lists, record for record, what is left of the log; a stamp is the
   acceptance time plus `shift` (zero for an insertion time, the time-to-live
   for an expiry time).
   */
  ghost predicate Mirrors<K>(index: Index<K>, s: Store<K>, shift: int) {
    && s.gone + |index| == |s.log|
    && (forall j :: 0 <= j < |index| ==>
          index[j].key == s.log[s.gone + j].key && index[j].stamp == s.log[s.gone + j].at + shift)
  }

  ghost predicate Faithful<K>(index: Index<K>, s: Store<K>, shift: int, ttl: int, cap: Capacity) {
    DistinctKeys(index) && Mirrors(index, s, shift) && Sound(s, ttl, cap)
  }

  /** A scan that drops expired front records and stops at an unexpired one is the store's cleanup. */
  lemma ScanIsCleanup<K>(
    index: Index<K>, s: Store<K>, dropped: nat, now: int, shift: int, ttl: int, cap: Capacity)
    requires Faithful(index, s, shift, ttl, cap)
    requires s.clock <= now && dropped <= |index|
    requires forall i :: 0 <= i < dropped ==> !Fresh(index[i].stamp - shift, now, ttl)
    requires dropped < |index| ==> Fresh(index[dropped].stamp - shift, now, ttl)
    ensures Cleaned(s, now, ttl) == Store(s.log, s.gone + dropped, now)
    ensures Faithful(index[dropped..], Cleaned(s, now, ttl), shift, ttl, cap)
  {
    forall i | s.gone <= i < s.gone + dropped ensures !Fresh(s.log[i].at, now, ttl) {
      assert !Fresh(index[i - s.gone].stamp - shift, now, ttl);
    }
    if dropped < |index| { assert index[dropped].stamp == s.log[s.gone + dropped].at + shift; }
    DistinctDrop(index, dropped);
    CleanedIsExact(s, now, ttl, cap);
  }

  /** A dictionary lookup is the store's lookup. */
  lemma LookupIsHolds<K>(index: Index<K>, s: Store<K>, shift: int, key: K)
    requires Mirrors(index, s, shift)
    ensures key in Cached(index) <==> Holds(s, key)
    ensures key !in Cached(index) ==> forall j :: 0 <= j < |index| ==> index[j].key != key
  {
    CachedIffIndexed(index, key);
    if j :| 0 <= j < |index| && index[j].key == key {
      assert s.log[s.gone + j].key == key;
    }
    if i :| s.gone <= i < |s.log| && s.log[i].key == key {
      assert index[i - s.gone].key == key;
    }
  }

  /** Appending a record for an unlisted key, after the overflow has been dropped, is admission. */
  lemma AppendIsAdmission<K>(index: Index<K>, s: Store<K>, record: Record<K>, shift: int, cap: Capacity)
    requires DistinctKeys(index) && Mirrors(index, s, shift)
    requires record.stamp == s.clock + shift && record.key !in Cached(index)
    requires Overflow(s, cap) <= |index|
    ensures Mirrors(index[Overflow(s, cap)..] + [record], Admitted(s, record.key, cap), shift)
    ensures DistinctKeys(index[Overflow(s, cap)..] + [record])
  {
    LookupIsHolds(index, s, shift, record.key);
    DistinctDrop(index, Overflow(s, cap));
    DistinctAppend(index[Overflow(s, cap)..], record);
  }

  lemma AppendInDictionary<K>(index: Index<K>, record: Record<K>)
    requires DistinctKeys(index + [record])
    ensures record.key !in Cached(index)
    ensures Cached(index + [record]) == Cached(index)[record.key := record]
    ensures |Cached(index + [record])| == |index| + 1
  {
    CachedIffIndexed(index, record.key);
    forall j | 0 <= j < |index| ensures index[j].key != record.key {
      assert Differ(index + [record], j, |index|);
    }
    CachedAppend(index, record);
    CachedSize(index + [record]);
  }
}
