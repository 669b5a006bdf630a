/**
 The reference meaning of every replay and duplicate filter in the program.

 A filter with time-to-live `ttl` and capacity `cap` is specified by the log of
 the arrivals it accepted: an arrival is refused exactly when its key occurs,
 less than `ttl` ago, among the last `cap` acceptances.  The two stores that
 implement filters (`Dedup.Deduplicator` and `ExpiringSet.BoundedExpiringSet`)
 are proved against this log; what the log guarantees over whole runs is proved
 here.
 */
module AcceptanceLog {
  import opened Common

  datatype Entry<K> = Entry(key: K, at: int)

  type Log<K> = seq<Entry<K>>

  /** A named comparison, so that quantified order is used only where it is mentioned. */
  predicate NoLater<K>(log: Log<K>, i: int, j: int)
    requires 0 <= i < |log| && 0 <= j < |log|
  {
    log[i].at <= log[j].at
  }

  predicate Monotone<K>(log: Log<K>) {
    forall i, j :: 0 <= i <= j < |log| ==> NoLater(log, i, j)
  }

  predicate NotAfter<K>(log: Log<K>, now: int) {
    forall i :: 0 <= i < |log| ==> log[i].at <= now
  }

  predicate Fresh(at: int, now: int, ttl: int) {
    now - at < ttl
  }

  /** Acceptance `i` can still refuse an arrival: unexpired, and among the last `cap` acceptances. */
  predicate Armed<K>(log: Log<K>, i: int, now: int, ttl: int, cap: Capacity)
    requires 0 <= i < |log|
  {
    Fresh(log[i].at, now, ttl) && Fits(|log| - i, cap)
  }

  /** The refusal condition. */
  predicate Blocks<K(==)>(log: Log<K>, key: K, now: int, ttl: int, cap: Capacity) {
    exists i :: 0 <= i < |log| && Armed(log, i, now, ttl, cap) && log[i].key == key
  }

  function Offer<K(==)>(log: Log<K>, key: K, now: int, ttl: int, cap: Capacity): Log<K> {
    if Blocks(log, key, now, ttl, cap) then log else log + [Entry(key, now)]
  }

  function OfferAll<K(==)>(log: Log<K>, arrivals: Log<K>, ttl: int, cap: Capacity): Log<K>
    decreases |arrivals|
  {
    if arrivals == [] then log
    else OfferAll(Offer(log, arrivals[0].key, arrivals[0].at, ttl, cap), arrivals[1..], ttl, cap)
  }

  /** Acceptances `i < j` of one key are `ttl` apart or have `cap` other acceptances between them. */
  predicate Apart<K(==)>(log: Log<K>, i: int, j: int, ttl: int, cap: Capacity)
    requires 0 <= i < j < |log|
  {
    log[i].key == log[j].key ==>
      log[j].at - log[i].at >= ttl || (cap.Some? && j - i - 1 >= cap.value)
  }

  predicate Spaced<K(==)>(log: Log<K>, ttl: int, cap: Capacity) {
    forall i, j :: 0 <= i < j < |log| ==> Apart(log, i, j, ttl, cap)
  }

  lemma OfferKeepsSpacing<K>(log: Log<K>, key: K, now: int, ttl: int, cap: Capacity)
    requires Spaced(log, ttl, cap)
    ensures Spaced(Offer(log, key, now, ttl, cap), ttl, cap)
  {
    var next := Offer(log, key, now, ttl, cap);
    forall i, j | 0 <= i < j < |next| ensures Apart(next, i, j, ttl, cap) {
      if j < |log| {
        assert Apart(log, i, j, ttl, cap);
      } else {
        assert Armed(log, i, now, ttl, cap) ==> log[i].key != key;
      }
    }
  }

  /** Nothing is refused without need: an arrival is refused exactly if accepting it would break the spacing. */
  lemma RefusedIfTooClose<K>(log: Log<K>, key: K, now: int, ttl: int, cap: Capacity)
    requires Spaced(log, ttl, cap)
    ensures Blocks(log, key, now, ttl, cap) <==> !Spaced(log + [Entry(key, now)], ttl, cap)
  {
    var next := log + [Entry(key, now)];
    if Blocks(log, key, now, ttl, cap) {
      var i :| 0 <= i < |log| && Armed(log, i, now, ttl, cap) && log[i].key == key;
      assert !Apart(next, i, |log|, ttl, cap);
    } else {
      OfferKeepsSpacing(log, key, now, ttl, cap);
    }
  }

  /** Whatever arrives, in whatever order, accepted repeats of one key are spaced. */
  lemma {:induction false} EveryRunIsSpaced<K>(log: Log<K>, arrivals: Log<K>, ttl: int, cap: Capacity)
    requires Spaced(log, ttl, cap)
    ensures Spaced(OfferAll(log, arrivals, ttl, cap), ttl, cap)
    ensures log <= OfferAll(log, arrivals, ttl, cap)
    decreases |arrivals|
  {
    if arrivals != [] {
      var next := Offer(log, arrivals[0].key, arrivals[0].at, ttl, cap);
      OfferKeepsSpacing(log, arrivals[0].key, arrivals[0].at, ttl, cap);
      EveryRunIsSpaced(next, arrivals[1..], ttl, cap);
    }
  }

  /**
   A store over the log: the acceptances, how many of the oldest have left the
   store, and the latest clock reading.
   */
  datatype Store<K> = Store(log: Log<K>, gone: nat, clock: int) {
    function Size(): int {
      |log| - gone
    }
  }

  function Empty<K>(clock: int): Store<K> {
    Store([], 0, clock)
  }

  /** First acceptance from `i` on that is unexpired: where the expiry scan stops. */
  function FirstFresh<K>(log: Log<K>, i: nat, now: int, ttl: int): (k: nat)
    requires i <= |log|
    ensures i <= k <= |log|
    ensures forall j :: i <= j < k ==> !Fresh(log[j].at, now, ttl)
    ensures k < |log| ==> Fresh(log[k].at, now, ttl)
    decreases |log| - i
  {
    if i == |log| || Fresh(log[i].at, now, ttl) then i else FirstFresh(log, i + 1, now, ttl)
  }

  /** Expiry by prefix scan. */
  function Cleaned<K>(s: Store<K>, now: int, ttl: int): Store<K>
    requires s.gone <= |s.log|
  {
    Store(s.log, FirstFresh(s.log, s.gone, now, ttl), now)
  }

  /** Number of entries that must leave a full store before one more is admitted. */
  function Overflow<K>(s: Store<K>, cap: Capacity): nat {
    if cap.Some? && s.Size() >= cap.value then 1 else 0
  }

  function Admitted<K>(s: Store<K>, key: K, cap: Capacity): Store<K> {
    Store(s.log + [Entry(key, s.clock)], s.gone + Overflow(s, cap), s.clock)
  }

  /** A lookup among the retained entries. */
  predicate Holds<K(==)>(s: Store<K>, key: K) {
    exists i :: s.gone <= i < |s.log| && s.log[i].key == key
  }

  /** Cleanup, lookup, admission: the whole of one arrival at the store. */
  function Offered<K(==)>(s: Store<K>, key: K, now: int, ttl: int, cap: Capacity): Store<K>
    requires s.gone <= |s.log|
  {
    var cleaned := Cleaned(s, now, ttl);
    if Holds(cleaned, key) then cleaned else Admitted(cleaned, key, cap)
  }

  /** The store is right: it fits, and nothing that has left it could refuse an arrival. */
  predicate Sound<K(==)>(s: Store<K>, ttl: int, cap: Capacity) {
    && ValidCapacity(cap)
    && s.gone <= |s.log| && Fits(s.Size(), cap)
    && Monotone(s.log) && NotAfter(s.log, s.clock)
    && (forall i :: 0 <= i < s.gone ==> !Armed(s.log, i, s.clock, ttl, cap))
    && Spaced(s.log, ttl, cap)
  }

  lemma EmptyIsSound<K>(clock: int, ttl: int, cap: Capacity)
    requires ValidCapacity(cap)
    ensures Sound<K>(Empty(clock), ttl, cap)
  {
  }

  /**
   Stopping at the first unexpired entry removes exactly the expired ones, and
   the store stays right.
   */
  lemma CleanedIsExact<K>(s: Store<K>, now: int, ttl: int, cap: Capacity)
    requires Sound(s, ttl, cap) && s.clock <= now
    ensures Sound(Cleaned(s, now, ttl), ttl, cap)
    ensures forall i :: s.gone <= i < |s.log| ==>
              (Fresh(s.log[i].at, now, ttl) <==> Cleaned(s, now, ttl).gone <= i)
  {
    var k := FirstFresh(s.log, s.gone, now, ttl);
    forall i | k <= i < |s.log| ensures Fresh(s.log[i].at, now, ttl) {
      assert NoLater(s.log, k, i);
    }
    forall i | 0 <= i < k ensures !Armed(s.log, i, now, ttl, cap) {
      assert i < s.gone ==> !Armed(s.log, i, s.clock, ttl, cap);
    }
  }

  /** After cleanup, the lookup answers exactly as the log does. */
  lemma CleanedDecides<K>(s: Store<K>, key: K, now: int, ttl: int, cap: Capacity)
    requires Sound(s, ttl, cap) && s.clock <= now
    ensures Holds(Cleaned(s, now, ttl), key) <==> Blocks(s.log, key, now, ttl, cap)
  {
    CleanedIsExact(s, now, ttl, cap);
    var cleaned := Cleaned(s, now, ttl);
    if i :| cleaned.gone <= i < |s.log| && s.log[i].key == key {
      assert Armed(s.log, i, now, ttl, cap);
    }
    if i :| 0 <= i < |s.log| && Armed(s.log, i, now, ttl, cap) && s.log[i].key == key {
      assert cleaned.gone <= i;
    }
  }

  /** The store with expiry and eviction refines the log: same decision, same log, still right. */
  lemma OfferedRefinesLog<K>(s: Store<K>, key: K, now: int, ttl: int, cap: Capacity)
    requires Sound(s, ttl, cap) && s.clock <= now
    ensures Offered(s, key, now, ttl, cap).log == Offer(s.log, key, now, ttl, cap)
    ensures Sound(Offered(s, key, now, ttl, cap), ttl, cap)
    ensures Offered(s, key, now, ttl, cap).clock == now
  {
    CleanedIsExact(s, now, ttl, cap);
    CleanedDecides(s, key, now, ttl, cap);
    OfferKeepsSpacing(s.log, key, now, ttl, cap);
    var cleaned := Cleaned(s, now, ttl);
    if !Holds(cleaned, key) {
      var next := Admitted(cleaned, key, cap);
      forall i, j | 0 <= i <= j < |next.log| ensures NoLater(next.log, i, j) {
        if j < |s.log| { assert NoLater(s.log, i, j); }
      }
      forall i | 0 <= i < next.gone ensures !Armed(next.log, i, now, ttl, cap) {
        if i < cleaned.gone { assert !Armed(s.log, i, now, ttl, cap); }
      }
    }
  }

  function OfferedAll<K(==)>(s: Store<K>, arrivals: Log<K>, ttl: int, cap: Capacity): Store<K>
    requires s.gone <= |s.log|
    requires Sound(s, ttl, cap) && Monotone(arrivals)
    requires arrivals != [] ==> s.clock <= arrivals[0].at
    decreases |arrivals|
  {
    if arrivals == [] then s
    else
      OfferedRefinesLog(s, arrivals[0].key, arrivals[0].at, ttl, cap);
      MonotoneTail(arrivals);
      OfferedAll(Offered(s, arrivals[0].key, arrivals[0].at, ttl, cap), arrivals[1..], ttl, cap)
  }

  lemma MonotoneTail<K>(log: Log<K>)
    requires Monotone(log) && log != []
    ensures Monotone(log[1..]) && (|log| > 1 ==> log[0].at <= log[1].at)
  {
    forall i, j | 0 <= i <= j < |log[1..]| ensures NoLater(log[1..], i, j) {
      assert NoLater(log, i + 1, j + 1);
    }
    if |log| > 1 { assert NoLater(log, 0, 1); }
  }

  /** Over every run the bounded store accepts exactly the arrivals that the unbounded log accepts. */
  lemma {:induction false} EveryRunRefinesLog<K>(s: Store<K>, arrivals: Log<K>, ttl: int, cap: Capacity)
    requires Sound(s, ttl, cap) && Monotone(arrivals)
    requires arrivals != [] ==> s.clock <= arrivals[0].at
    ensures OfferedAll(s, arrivals, ttl, cap).log == OfferAll(s.log, arrivals, ttl, cap)
    ensures Sound(OfferedAll(s, arrivals, ttl, cap), ttl, cap)
    decreases |arrivals|
  {
    if arrivals != [] {
      OfferedRefinesLog(s, arrivals[0].key, arrivals[0].at, ttl, cap);
      MonotoneTail(arrivals);
      EveryRunRefinesLog(Offered(s, arrivals[0].key, arrivals[0].at, ttl, cap), arrivals[1..], ttl, cap);
    }
  }
}
