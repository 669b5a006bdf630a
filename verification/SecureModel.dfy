/**
 What each `SecureState` operation (aismixer_secure.py) does, on values, and the
 invariant that every operation keeps.  The class in SecureState.dfy is proved
 against these functions.
 */
module SecureModel {
  import opened Common
  import opened AcceptanceLog
  import opened Wire
  import opened SessionTable

  datatype Config = Config(
    sessionTtl: int, maxSessions: nat,
    replayTtl: int, replayMax: nat,
    nonceTtl: int, nonceMax: nat,
    pendingTtl: int, maxPending: nat)

  /** The constructor's checks: positive lifetimes, capacities of at least one. */
  predicate ValidConfig(c: Config) {
    && c.sessionTtl > 0 && c.replayTtl > 0 && c.nonceTtl > 0 && c.pendingTtl > 0
    && c.maxSessions >= 1 && c.replayMax >= 1 && c.nonceMax >= 1 && c.maxPending >= 1
  }

  /** Lifecycle counters of one session table (`promoted` stays zero for active sessions). */
  datatype Counts = Counts(
    created: nat, replaced: nat, promoted: nat, expired: nat, capacityEvicted: nat, peak: nat)

  datatype Shelf = Shelf(table: Table, counts: Counts)

  datatype NonceStats = NonceStats(
    accepted: int, replays: int, expired: int, capacityEvicted: int, discarded: int, current: int, peak: int)

  datatype ReplayStats = ReplayStats(accepted: int, rejected: int, expired: int, capacityEvicted: int, peak: int)

  type ReplayKey = (Digest, Signature)

  datatype State = State(
    active: Shelf, pending: Shelf, touched: nat, nonces: NonceStats,
    replays: Store<ReplayKey>, replayStats: ReplayStats, clock: int)

  function NewShelf(): Shelf {
    Shelf([], Counts(0, 0, 0, 0, 0, 0))
  }

  function Initial(clock: int): State {
    State(NewShelf(), NewShelf(), 0, NonceStats(0, 0, 0, 0, 0, 0, 0),
          Empty(clock), ReplayStats(0, 0, 0, 0, 0), clock)
  }

  // ---------------------------------------------------------------- invariant

  predicate ShelfOk(f: Shelf, clock: int, max: nat, c: Config) {
    && Orderly(f.table, clock, c.nonceTtl, c.nonceMax)
    && |f.table| <= max && |f.table| <= f.counts.peak <= max
    && f.counts.created
       == f.counts.replaced + f.counts.promoted + f.counts.expired + f.counts.capacityEvicted + |f.table|
  }

  predicate NoncesConserved(s: State) {
    && s.nonces.current == NonceTotal(s.active.table) + NonceTotal(s.pending.table)
    && s.nonces.accepted == s.nonces.expired + s.nonces.capacityEvicted + s.nonces.discarded + s.nonces.current
    && s.nonces.current <= s.nonces.peak
  }

  predicate ReplaysOk(s: State, c: Config) {
    && Sound(s.replays, c.replayTtl, Some(c.replayMax)) && s.replays.clock <= s.clock
    && s.replayStats.accepted == s.replayStats.expired + s.replayStats.capacityEvicted + s.replays.Size()
    && s.replays.Size() <= s.replayStats.peak <= c.replayMax
  }

  predicate Inv(s: State, c: Config) {
    match s
    case State(active, pending, _, _, _, _, clock) =>
      && ValidConfig(c)
      && ShelfOk(active, clock, c.maxSessions, c)
      && ShelfOk(pending, clock, c.maxPending, c)
      && NoncesConserved(s)
      && ReplaysOk(s, c)
  }

  lemma InitialInv(clock: int, c: Config)
    requires ValidConfig(c)
    ensures Inv(Initial(clock), c)
  {
    EmptyIsSound<ReplayKey>(clock, c.replayTtl, Some(c.replayMax));
  }

  /** The retained nonces never exceed what all sessions together are allowed. */
  lemma CurrentNoncesBounded(s: State, c: Config)
    requires Inv(s, c)
    ensures 0 <= s.nonces.current <= (c.maxSessions + c.maxPending) * c.nonceMax
  {
    var (a, p) := (s.active.table, s.pending.table);
    TotalIsBounded(a, s.clock, c.nonceTtl, c.nonceMax);
    TotalIsBounded(p, s.clock, c.nonceTtl, c.nonceMax);
    Scaled(|a|, c.maxSessions, |p|, c.maxPending, c.nonceMax);
  }

  lemma Scaled(a: nat, x: nat, p: nat, y: nat, n: nat)
    requires a <= x && p <= y
    ensures a * n + p * n <= (x + y) * n
  {
    assert (x + y) * n == (x - a) * n + (y - p) * n + a * n + p * n;
  }

  // ------------------------------------------------------- operations on shelves

  /** Exactly the expired sessions leave. */
  function ExpireShelf(f: Shelf, now: int, ttl: int): Shelf {
    var live := Live(f.table, now, ttl);
    Shelf(live, f.counts.(expired := f.counts.expired + |f.table| - |live|))
  }

  /** Room for a session at `addr`: replace the one there, or evict the oldest of a full table. */
  function RoomFor(f: Shelf, addr: Address, max: nat): Shelf {
    if Has(f.table, addr) then
      Shelf(Without(f.table, Find(f.table, addr)), f.counts.(replaced := f.counts.replaced + 1))
    else if |f.table| >= max && f.table != [] then
      Shelf(f.table[1..], f.counts.(capacityEvicted := f.counts.capacityEvicted + 1))
    else f
  }

  function AddTo(f: Shelf, s: Session): Shelf {
    Shelf(f.table + [s], f.counts.(created := f.counts.created + 1, peak := Max(f.counts.peak, |f.table| + 1)))
  }

  lemma ExpireShelfOk(f: Shelf, clock: int, now: int, ttl: int, max: nat, c: Config)
    requires ShelfOk(f, clock, max, c) && clock <= now
    ensures ShelfOk(ExpireShelf(f, now, ttl), now, max, c)
    ensures forall i :: 0 <= i < |Live(f.table, now, ttl)| ==> !Expired(Live(f.table, now, ttl)[i], now, ttl)
    ensures |Live(f.table, now, ttl)| <= |f.table| && NonceTotal(Live(f.table, now, ttl)) <= NonceTotal(f.table)
  {
    var k := ScanStops(f.table, now, ttl);
    TotalDrop(f.table, k, clock, c.nonceTtl, c.nonceMax);
    OrderlyDrop(f.table, k, clock, c.nonceTtl, c.nonceMax);
    OrderlyLater(f.table[k..], clock, now, c.nonceTtl, c.nonceMax);
  }

  lemma RoomForOk(f: Shelf, addr: Address, clock: int, max: nat, c: Config)
    requires ShelfOk(f, clock, max, c) && max >= 1
    ensures ShelfOk(RoomFor(f, addr, max), clock, max, c)
    ensures |RoomFor(f, addr, max).table| < max && !Has(RoomFor(f, addr, max).table, addr)
    ensures NonceTotal(RoomFor(f, addr, max).table) <= NonceTotal(f.table)
  {
    if Has(f.table, addr) {
      TotalWithout(f.table, Find(f.table, addr));
      OrderlyWithout(f.table, Find(f.table, addr), clock, c.nonceTtl, c.nonceMax);
    } else if |f.table| >= max {
      TotalDrop(f.table, 1, clock, c.nonceTtl, c.nonceMax);
      OrderlyDrop(f.table, 1, clock, c.nonceTtl, c.nonceMax);
      assert forall i :: 0 <= i < |f.table[1..]| ==> f.table[1..][i] == f.table[i + 1];
    }
  }

  lemma AddToOk(f: Shelf, s: Session, clock: int, max: nat, c: Config)
    requires ShelfOk(f, clock, max, c) && |f.table| < max && !Has(f.table, s.addr)
    requires s.lastSeen == clock && s.nonces.clock <= clock && Sound(s.nonces, c.nonceTtl, Some(c.nonceMax))
    ensures ShelfOk(AddTo(f, s), clock, max, c)
    ensures NonceTotal(AddTo(f, s).table) == NonceTotal(f.table) + s.nonces.Size()
  {
    OrderlyAppend(f.table, s, clock, c.nonceTtl, c.nonceMax);
    TotalConcat(f.table, [s]);
  }

  // -------------------------------------------------------- operations on states

  /** The nonce sets of removed sessions are discarded. */
  function Discard(n: NonceStats, before: int, after: int): NonceStats {
    n.(discarded := n.discarded + before - after, current := n.current - (before - after))
  }

  function WithActive(s: State, f: Shelf): State {
    s.(active := f, nonces := Discard(s.nonces, NonceTotal(s.active.table), NonceTotal(f.table)))
  }

  function WithPending(s: State, f: Shelf): State {
    s.(pending := f, nonces := Discard(s.nonces, NonceTotal(s.pending.table), NonceTotal(f.table)))
  }

  function CleanActive(s: State, now: int, c: Config): State {
    WithActive(s, ExpireShelf(s.active, now, c.sessionTtl)).(clock := now)
  }

  function CleanPending(s: State, now: int, c: Config): State {
    WithPending(s, ExpireShelf(s.pending, now, c.pendingTtl)).(clock := now)
  }

  /** The first `n` active sessions have been removed as expired. */
  function ExpireFirst(s: State, n: nat): State
    requires n <= |s.active.table|
  {
    WithActive(s, Shelf(s.active.table[n..], s.active.counts.(expired := s.active.counts.expired + n)))
  }

  function ExpireFirstPending(s: State, n: nat): State
    requires n <= |s.pending.table|
  {
    WithPending(s, Shelf(s.pending.table[n..], s.pending.counts.(expired := s.pending.counts.expired + n)))
  }

  lemma ExpireNext(s: State, n: nat)
    ensures n < |s.active.table| ==> ExpireFirst(ExpireFirst(s, n), 1) == ExpireFirst(s, n + 1)
    ensures n < |s.pending.table| ==> ExpireFirstPending(ExpireFirstPending(s, n), 1) == ExpireFirstPending(s, n + 1)
  {
    if n < |s.active.table| { assert s.active.table[n..][1..] == s.active.table[n + 1..]; }
    if n < |s.pending.table| { assert s.pending.table[n..][1..] == s.pending.table[n + 1..]; }
  }

  /** Removing expired sessions one by one from the front, up to the first unexpired one, is cleanup. */
  lemma ExpiredPrefixIsCleanup(s: State, n: nat, now: int, c: Config)
    requires Inv(s, c) && s.clock <= now && n <= |s.active.table|
    requires forall i :: 0 <= i < n ==> Expired(s.active.table[i], now, c.sessionTtl)
    requires n < |s.active.table| ==> !Expired(s.active.table[n], now, c.sessionTtl)
    ensures ExpireFirst(s, n).(clock := now) == CleanActive(s, now, c)
    ensures Inv(CleanActive(s, now, c), c)
  {
    CleanActiveInv(s, now, c);
    ScanIsExact(s.active.table, n, now, c.sessionTtl);
  }

  lemma ExpiredPrefixIsPendingCleanup(s: State, n: nat, now: int, c: Config)
    requires Inv(s, c) && s.clock <= now && n <= |s.pending.table|
    requires forall i :: 0 <= i < n ==> Expired(s.pending.table[i], now, c.pendingTtl)
    requires n < |s.pending.table| ==> !Expired(s.pending.table[n], now, c.pendingTtl)
    ensures ExpireFirstPending(s, n).(clock := now) == CleanPending(s, now, c)
    ensures Inv(CleanPending(s, now, c), c)
  {
    CleanPendingInv(s, now, c);
    ScanIsExact(s.pending.table, n, now, c.pendingTtl);
  }

  function NewSession(addr: Address, station: string, keys: Keys, now: int): Session {
    Session(addr, station, keys, now, now, Empty(now))
  }

  function InstallPending(s: State, addr: Address, station: string, keys: Keys, now: int, c: Config): State {
    var cleaned := CleanPending(s, now, c);
    var room := WithPending(cleaned, RoomFor(cleaned.pending, addr, c.maxPending));
    room.(pending := AddTo(room.pending, NewSession(addr, station, keys, now)))
  }

  /** Promotion, up to the point where the new active session is added. */
  function PromoteRoom(s: State, addr: Address, now: int, c: Config): State {
    if !Has(s.pending.table, addr) then s else
    var cleaned := CleanActive(s, now, c);
    var counts := s.pending.counts.(promoted := s.pending.counts.promoted + 1);
    var moved := cleaned.(pending := Shelf(Without(s.pending.table, Find(s.pending.table, addr)), counts));
    WithActive(moved, RoomFor(moved.active, addr, c.maxSessions))
  }

  /** Promotion of the pending session at `addr`: its identity, keys and nonces become the active ones. */
  function Promote(s: State, addr: Address, now: int, c: Config): State {
    if !Has(s.pending.table, addr) then s else
    var p := s.pending.table[Find(s.pending.table, addr)];
    var room := PromoteRoom(s, addr, now, c);
    room.(active := AddTo(room.active, p.(createdAt := now, lastSeen := now)))
  }

  function Touch(s: State, addr: Address, now: int): State {
    if !Has(s.active.table, addr) then s else
    var k := Find(s.active.table, addr);
    s.(active := s.active.(table := Without(s.active.table, k) + [s.active.table[k].(lastSeen := now)]),
       touched := s.touched + 1)
  }

  /** Replaces the nonce set of session `k` of a table. */
  function SetNonces(t: Table, k: nat, nonces: Store<Nonce>): Table
    requires k < |t|
  {
    t[k := t[k].(nonces := nonces)]
  }

  /** `contains` on a session's nonce set: only expiry changes it. */
  function ExpireNonces(n: NonceStats, before: Store<Nonce>, now: int, c: Config): NonceStats
    requires before.gone <= |before.log|
  {
    var gone := Cleaned(before, now, c.nonceTtl).gone - before.gone;
    n.(expired := n.expired + gone, current := n.current - gone)
  }

  /** `accept` on a session's nonce set. */
  function AcceptNonce(n: NonceStats, before: Store<Nonce>, nonce: Nonce, now: int, c: Config): NonceStats
    requires before.gone <= |before.log|
  {
    var m := ExpireNonces(n, before, now, c);
    var cleaned := Cleaned(before, now, c.nonceTtl);
    var after := Offered(before, nonce, now, c.nonceTtl, Some(c.nonceMax));
    if Holds(cleaned, nonce) then m.(replays := m.replays + 1)
    else
      var evicted := after.gone - cleaned.gone;
      var current := m.current - evicted + 1;
      m.(capacityEvicted := m.capacityEvicted + evicted, accepted := m.accepted + 1,
         current := current, peak := Max(m.peak, current))
  }

  /** `data_nonce_seen` on the live active session at `addr`. */
  function SeeActive(s: State, addr: Address, nonce: Nonce, c: Config): State {
    var t := s.active.table;
    if !Has(t, addr) || !Retaining(t) then s else
    var k := Find(t, addr);
    var n := ExpireNonces(s.nonces, t[k].nonces, s.clock, c);
    var cleaned := Cleaned(t[k].nonces, s.clock, c.nonceTtl);
    s.(active := s.active.(table := SetNonces(t, k, cleaned)),
       nonces := if Holds(cleaned, nonce) then n.(replays := n.replays + 1) else n)
  }

  /** `pending_data_nonce_seen` on the live pending session at `addr`. */
  function SeePending(s: State, addr: Address, c: Config): State {
    var t := s.pending.table;
    if !Has(t, addr) || !Retaining(t) then s else
    var k := Find(t, addr);
    s.(pending := s.pending.(table := SetNonces(t, k, Cleaned(t[k].nonces, s.clock, c.nonceTtl))),
       nonces := ExpireNonces(s.nonces, t[k].nonces, s.clock, c))
  }

  function AcceptActive(s: State, addr: Address, nonce: Nonce, c: Config): State {
    var t := s.active.table;
    if !Has(t, addr) || !Retaining(t) then s else
    var k := Find(t, addr);
    s.(active := s.active.(table := SetNonces(t, k, Offered(t[k].nonces, nonce, s.clock, c.nonceTtl, Some(c.nonceMax)))),
       nonces := AcceptNonce(s.nonces, t[k].nonces, nonce, s.clock, c))
  }

  function AcceptPending(s: State, addr: Address, nonce: Nonce, c: Config): State {
    var t := s.pending.table;
    if !Has(t, addr) || !Retaining(t) then s else
    var k := Find(t, addr);
    s.(pending := s.pending.(table := SetNonces(t, k, Offered(t[k].nonces, nonce, s.clock, c.nonceTtl, Some(c.nonceMax)))),
       nonces := AcceptNonce(s.nonces, t[k].nonces, nonce, s.clock, c))
  }

  /** A live nonce replay at the session at `addr`. */
  predicate Replayed(t: Table, addr: Address, nonce: Nonce, now: int, c: Config) {
    && Has(t, addr)
    && Blocks(t[Find(t, addr)].nonces.log, nonce, now, c.nonceTtl, Some(c.nonceMax))
  }

  predicate Retaining(t: Table) {
    forall i :: 0 <= i < |t| ==> t[i].nonces.gone <= |t[i].nonces.log|
  }

  function AcceptReplay(s: State, key: ReplayKey, now: int, c: Config): State {
    if s.replays.gone > |s.replays.log| then s else
    var cleaned := Cleaned(s.replays, now, c.replayTtl);
    var after := Offered(s.replays, key, now, c.replayTtl, Some(c.replayMax));
    var r := s.replayStats.(
      expired := s.replayStats.expired + cleaned.gone - s.replays.gone,
      capacityEvicted := s.replayStats.capacityEvicted + after.gone - cleaned.gone);
    var stats :=
      if Holds(cleaned, key) then r.(rejected := r.rejected + 1)
      else r.(accepted := r.accepted + 1, peak := Max(r.peak, after.Size()));
    s.(replays := after, replayStats := stats, clock := now)
  }

  // ------------------------------------------------- every operation keeps the invariant

  lemma CleanActiveInv(s: State, now: int, c: Config)
    requires Inv(s, c) && s.clock <= now
    ensures Inv(CleanActive(s, now, c), c)
  {
    ExpireShelfOk(s.active, s.clock, now, c.sessionTtl, c.maxSessions, c);
    OrderlyLater(s.pending.table, s.clock, now, c.nonceTtl, c.nonceMax);
  }

  lemma CleanPendingInv(s: State, now: int, c: Config)
    requires Inv(s, c) && s.clock <= now
    ensures Inv(CleanPending(s, now, c), c)
  {
    ExpireShelfOk(s.pending, s.clock, now, c.pendingTtl, c.maxPending, c);
    OrderlyLater(s.active.table, s.clock, now, c.nonceTtl, c.nonceMax);
  }

  lemma InstallPendingInv(s: State, addr: Address, station: string, keys: Keys, now: int, c: Config)
    requires Inv(s, c) && s.clock <= now
    ensures Inv(InstallPending(s, addr, station, keys, now, c), c)
  {
    CleanPendingInv(s, now, c);
    var cleaned := CleanPending(s, now, c);
    RoomForOk(cleaned.pending, addr, now, c.maxPending, c);
    EmptyIsSound<Nonce>(now, c.nonceTtl, Some(c.nonceMax));
    AddToOk(RoomFor(cleaned.pending, addr, c.maxPending), NewSession(addr, station, keys, now), now, c.maxPending, c);
  }

  /** Promotion moves the nonces of the pending session to the active table and discards none of them. */
  lemma PromoteInv(s: State, addr: Address, now: int, c: Config)
    requires Inv(s, c) && s.clock <= now && Has(s.pending.table, addr)
    ensures Inv(Promote(s, addr, now, c), c)
  {
    var k := Find(s.pending.table, addr);
    var p := s.pending.table[k];
    CleanActiveInv(s, now, c);
    var cleaned := CleanActive(s, now, c);
    OrderlyWithout(s.pending.table, k, now, c.nonceTtl, c.nonceMax);
    TotalWithout(s.pending.table, k);
    RoomForOk(cleaned.active, addr, now, c.maxSessions, c);
    AddToOk(RoomFor(cleaned.active, addr, c.maxSessions), p.(createdAt := now, lastSeen := now), now, c.maxSessions, c);
  }

  lemma TouchInv(s: State, addr: Address, c: Config)
    requires Inv(s, c) && Has(s.active.table, addr)
    ensures Inv(Touch(s, addr, s.clock), c)
  {
    var t := s.active.table;
    var k := Find(t, addr);
    OrderlyWithout(t, k, s.clock, c.nonceTtl, c.nonceMax);
    OrderlyAppend(Without(t, k), t[k].(lastSeen := s.clock), s.clock, c.nonceTtl, c.nonceMax);
    TotalWithout(t, k);
    TotalConcat(Without(t, k), [t[k].(lastSeen := s.clock)]);
  }

  /** One nonce arrival at a session: the set stays sound and every count balances. */
  lemma NonceArrival(before: Store<Nonce>, nonce: Nonce, n: NonceStats, now: int, c: Config)
    requires ValidConfig(c) && Sound(before, c.nonceTtl, Some(c.nonceMax)) && before.clock <= now
    ensures Sound(Cleaned(before, now, c.nonceTtl), c.nonceTtl, Some(c.nonceMax))
    ensures Sound(Offered(before, nonce, now, c.nonceTtl, Some(c.nonceMax)), c.nonceTtl, Some(c.nonceMax))
    ensures Offered(before, nonce, now, c.nonceTtl, Some(c.nonceMax)).clock == now
    ensures var m := ExpireNonces(n, before, now, c);
            m.current - n.current == Cleaned(before, now, c.nonceTtl).Size() - before.Size()
    ensures var m := AcceptNonce(n, before, nonce, now, c);
            && m.current - n.current
               == Offered(before, nonce, now, c.nonceTtl, Some(c.nonceMax)).Size() - before.Size()
            && m.accepted - n.accepted
               == m.expired - n.expired + m.capacityEvicted - n.capacityEvicted + m.current - n.current
  {
    CleanedIsExact(before, now, c.nonceTtl, Some(c.nonceMax));
    OfferedRefinesLog(before, nonce, now, c.nonceTtl, Some(c.nonceMax));
  }

  lemma SetNoncesTotal(t: Table, k: nat, nonces: Store<Nonce>)
    requires k < |t|
    ensures NonceTotal(SetNonces(t, k, nonces)) == NonceTotal(t) - t[k].nonces.Size() + nonces.Size()
  {
    TotalUpdate(t, k, t[k].(nonces := nonces));
  }

  lemma ActiveNonceInv(s: State, addr: Address, nonce: Nonce, c: Config)
    requires Inv(s, c) && Has(s.active.table, addr)
    ensures Inv(SeeActive(s, addr, nonce, c), c) && Inv(AcceptActive(s, addr, nonce, c), c)
  {
    var t := s.active.table;
    var k := Find(t, addr);
    NonceArrival(t[k].nonces, nonce, s.nonces, s.clock, c);
    var cleaned := Cleaned(t[k].nonces, s.clock, c.nonceTtl);
    var offered := Offered(t[k].nonces, nonce, s.clock, c.nonceTtl, Some(c.nonceMax));
    OrderlyNonces(t, k, cleaned, s.clock, c.nonceTtl, c.nonceMax);
    OrderlyNonces(t, k, offered, s.clock, c.nonceTtl, c.nonceMax);
    SetNoncesTotal(t, k, cleaned);
    SetNoncesTotal(t, k, offered);
  }

  lemma PendingNonceInv(s: State, addr: Address, nonce: Nonce, c: Config)
    requires Inv(s, c) && Has(s.pending.table, addr)
    ensures Inv(SeePending(s, addr, c), c) && Inv(AcceptPending(s, addr, nonce, c), c)
  {
    var t := s.pending.table;
    var k := Find(t, addr);
    NonceArrival(t[k].nonces, nonce, s.nonces, s.clock, c);
    var cleaned := Cleaned(t[k].nonces, s.clock, c.nonceTtl);
    var offered := Offered(t[k].nonces, nonce, s.clock, c.nonceTtl, Some(c.nonceMax));
    OrderlyNonces(t, k, cleaned, s.clock, c.nonceTtl, c.nonceMax);
    OrderlyNonces(t, k, offered, s.clock, c.nonceTtl, c.nonceMax);
    SetNoncesTotal(t, k, cleaned);
    SetNoncesTotal(t, k, offered);
  }

  lemma AcceptReplayInv(s: State, key: ReplayKey, now: int, c: Config)
    requires Inv(s, c) && s.clock <= now
    ensures Inv(AcceptReplay(s, key, now, c), c)
    ensures Holds(Cleaned(s.replays, now, c.replayTtl), key)
            <==> Blocks(s.replays.log, key, now, c.replayTtl, Some(c.replayMax))
  {
    CleanedDecides(s.replays, key, now, c.replayTtl, Some(c.replayMax));
    OfferedRefinesLog(s.replays, key, now, c.replayTtl, Some(c.replayMax));
    OrderlyLater(s.active.table, s.clock, now, c.nonceTtl, c.nonceMax);
    OrderlyLater(s.pending.table, s.clock, now, c.nonceTtl, c.nonceMax);
  }
}
