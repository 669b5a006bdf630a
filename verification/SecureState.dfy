/**
 `SecureState` (aismixer_secure.py): session objects in two ordered tables, a
 nonce set per session whose ownership moves from a pending to an active
 session, and lifecycle counters.  Every method is proved against the function
 of the same purpose in SecureModel.dfy.
 */
module SecureState {
  import opened Common
  import opened AcceptanceLog
  import opened Wire
  import opened SessionTable
  import opened SecureModel
  import opened ExpiringSet

  type NonceSet = BoundedExpiringSet<Nonce>

  class PendingSession {
    const addr: Address
    const station: string
    const keys: Keys
    const createdAt: int
    const nonces: NonceSet

    constructor (addr: Address, station: string, keys: Keys, createdAt: int, nonces: NonceSet)
      ensures this.addr == addr && this.station == station && this.keys == keys
      ensures this.createdAt == createdAt && this.nonces == nonces
    {
      this.addr, this.station, this.keys, this.createdAt, this.nonces := addr, station, keys, createdAt, nonces;
    }
  }

  class ActiveSession {
    const addr: Address
    const station: string
    const keys: Keys
    const createdAt: int
    const nonces: NonceSet
    var lastSeen: int

    constructor (addr: Address, station: string, keys: Keys, now: int, nonces: NonceSet)
      ensures this.addr == addr && this.station == station && this.keys == keys
      ensures this.createdAt == now && this.nonces == nonces && lastSeen == now
    {
      this.addr, this.station, this.keys, this.createdAt, this.nonces := addr, station, keys, now, nonces;
      lastSeen := now;
    }
  }

  /** Which session a nonce set belongs to: every set has exactly one owner. */
  datatype Home = InActive(addr: Address) | InPending(addr: Address)

  type Homes = map<NonceSet, Home>

  /** The objects behind one row of a table. */
  ghost predicate ActiveBacks(s: ActiveSession, row: Session, c: Config, homes: Homes)
    reads s, s.nonces
  {
    && row == Session(s.addr, s.station, s.keys, s.createdAt, s.lastSeen, s.nonces.store)
    && s.nonces.Valid() && s.nonces.ttl == c.nonceTtl && s.nonces.maxEntries == c.nonceMax
    && s.nonces in homes && homes[s.nonces] == InActive(s.addr)
  }

  ghost predicate PendingBacks(p: PendingSession, row: Session, c: Config, homes: Homes)
    reads p.nonces
  {
    && row == Session(p.addr, p.station, p.keys, p.createdAt, p.createdAt, p.nonces.store)
    && p.nonces.Valid() && p.nonces.ttl == c.nonceTtl && p.nonces.maxEntries == c.nonceMax
    && p.nonces in homes && homes[p.nonces] == InPending(p.addr)
  }

  datatype Stats = Stats(
    active: Counts, pending: Counts, touched: nat, nonces: NonceStats, replays: ReplayStats)

  datatype Reason = Expiry | Capacity | Replacement

  function Tally(c: Counts, reason: Reason): Counts {
    match reason
    case Expiry => c.(expired := c.expired + 1)
    case Capacity => c.(capacityEvicted := c.capacityEvicted + 1)
    case Replacement => c.(replaced := c.replaced + 1)
  }

  /** Position of the session at `addr`, or the length. */
  function SeekActive(ss: seq<ActiveSession>, addr: Address): (k: nat)
    ensures k <= |ss| && (k < |ss| ==> ss[k].addr == addr)
    ensures forall i :: 0 <= i < k ==> ss[i].addr != addr
  {
    if ss == [] || ss[0].addr == addr then 0 else 1 + SeekActive(ss[1..], addr)
  }

  function SeekPending(ps: seq<PendingSession>, addr: Address): (k: nat)
    ensures k <= |ps| && (k < |ps| ==> ps[k].addr == addr)
    ensures forall i :: 0 <= i < k ==> ps[i].addr != addr
  {
    if ps == [] || ps[0].addr == addr then 0 else 1 + SeekPending(ps[1..], addr)
  }

  function Bump(c: Counts, size: nat): Counts {
    c.(created := c.created + 1, peak := Max(c.peak, size))
  }

  ghost function ActiveObjects(ss: seq<ActiveSession>): set<object> {
    (set s: ActiveSession | s in ss :: s as object) + (set s: ActiveSession | s in ss :: s.nonces as object)
  }

  ghost function PendingSets(ps: seq<PendingSession>): set<object> {
    set p: PendingSession | p in ps :: p.nonces as object
  }

  lemma MoreActiveObjects(ss: seq<ActiveSession>, s: ActiveSession)
    ensures ActiveObjects(ss + [s]) == ActiveObjects(ss) + {s, s.nonces}
  {
    assert s in ss + [s];
    assert forall x :: x in ss + [s] <==> x in ss || x == s;
  }

  lemma FewerActiveObjects(ss: seq<ActiveSession>, all: seq<ActiveSession>)
    requires forall s :: s in ss ==> s in all
    ensures ActiveObjects(ss) <= ActiveObjects(all)
  {
  }

  function SeenNewest(s: State, now: int): State {
    var t := s.active.table;
    var n := |t| - 1;
    if n < 0 then s
    else s.(active := s.active.(table := t[n := t[n].(lastSeen := now)]), touched := s.touched + 1)
  }

  /** What an admission to a nonce set reports, in terms of the set before it. */
  ghost predicate Books(a: Admission, before: Store<Nonce>, nonce: Nonce, now: int, c: Config)
    requires before.gone <= |before.log|
  {
    var cleaned := Cleaned(before, now, c.nonceTtl);
    && (a.accepted <==> !Holds(cleaned, nonce))
    && (a.accepted <==> !Blocks(before.log, nonce, now, c.nonceTtl, Some(c.nonceMax)))
    && a.expired == cleaned.gone - before.gone
    && a.capacityEvicted == Offered(before, nonce, now, c.nonceTtl, Some(c.nonceMax)).gone - cleaned.gone
  }

  /** The counters after an admission. */
  function Booked(n: NonceStats, a: Admission): NonceStats {
    var m := n.(
      expired := n.expired + a.expired, capacityEvicted := n.capacityEvicted + a.capacityEvicted,
      current := n.current - a.expired - a.capacityEvicted);
    if a.accepted then
      m.(accepted := m.accepted + 1, current := m.current + 1, peak := Max(m.peak, m.current + 1))
    else m.(replays := m.replays + 1)
  }

  lemma BookedIsAcceptNonce(
    n: NonceStats, a: Admission, before: Store<Nonce>, nonce: Nonce, now: int, c: Config)
    requires before.gone <= |before.log| && Books(a, before, nonce, now, c)
    ensures Booked(n, a) == AcceptNonce(n, before, nonce, now, c)
  {
  }

  class SecureState {
    const c: Config
    const handshakeReplays: BoundedExpiringSet<ReplayKey>
    var sessions: seq<ActiveSession>
    var pendingSessions: seq<PendingSession>
    var stats: Stats
    /** The state as a value, and the owner of every nonce set. */
    ghost var model: State
    ghost var homes: Homes

    ghost function Objects(): set<object>
      reads this
    {
      {this, handshakeReplays} + ActiveObjects(sessions) + PendingSets(pendingSessions)
    }

    ghost predicate ActiveAt(i: nat)
      requires i < |sessions| && |sessions| == |model.active.table|
      reads this, sessions[i], sessions[i].nonces
    {
      ActiveBacks(sessions[i], model.active.table[i], c, homes)
    }

    ghost predicate PendingAt(i: nat)
      requires i < |pendingSessions| && |pendingSessions| == |model.pending.table|
      reads this, pendingSessions[i].nonces
    {
      PendingBacks(pendingSessions[i], model.pending.table[i], c, homes)
    }

    ghost predicate ActiveTied()
      reads this, ActiveObjects(sessions)
    {
      && |sessions| == |model.active.table|
      && (forall i :: 0 <= i < |sessions| ==> assert sessions[i] in sessions; ActiveAt(i))
    }

    ghost predicate PendingTied()
      reads this, PendingSets(pendingSessions)
    {
      && |pendingSessions| == |model.pending.table|
      && (forall i :: 0 <= i < |pendingSessions| ==> assert pendingSessions[i] in pendingSessions; PendingAt(i))
    }

    /** The counters agree with the model's. */
    static function SyncedStats(m: State): Stats {
      Stats(m.active.counts, m.pending.counts, m.touched, m.nonces, m.replayStats)
    }

    ghost predicate ReplaysTied()
      reads this, handshakeReplays
    {
      && handshakeReplays.Valid() && handshakeReplays.store == model.replays
      && handshakeReplays.ttl == c.replayTtl && handshakeReplays.maxEntries == c.replayMax
    }

    ghost predicate Tied()
      reads Objects()
    {
      ActiveTied() && PendingTied() && stats == SyncedStats(model)
    }

    ghost predicate Valid()
      reads Objects()
    {
      Tied() && ReplaysTied() && Inv(model, c)
    }

    constructor (c: Config, ghost clock: int)
      requires ValidConfig(c)
      ensures Valid() && fresh(Objects()) && model == Initial(clock) && this.c == c
    {
      InitialInv(clock, c);
      this.c := c;
      sessions, pendingSessions := [], [];
      var none := Counts(0, 0, 0, 0, 0, 0);
      stats := Stats(none, none, 0, NonceStats(0, 0, 0, 0, 0, 0, 0), ReplayStats(0, 0, 0, 0, 0));
      handshakeReplays := new BoundedExpiringSet<ReplayKey>(c.replayTtl, c.replayMax, clock);
      model, homes := Initial(clock), map[];
    }

    ghost method Tick(now: int)
      requires Tied()
      modifies this`model
      ensures Tied() && model == old(model).(clock := now)
    {
      model := model.(clock := now);
      forall i | 0 <= i < |sessions| ensures ActiveAt(i) { assert old(ActiveAt(i)); }
      forall i | 0 <= i < |pendingSessions| ensures PendingAt(i) { assert old(PendingAt(i)); }
    }

    /** `_remove_session`: drops one active session, discards its nonces, counts the reason. */
    method RemoveSession(k: nat, reason: Reason)
      requires Tied() && k < |sessions| && OnePerAddress(model.active.table)
      modifies this`sessions, this`stats, this`model, sessions[k].nonces
      ensures Tied() && sessions == old(sessions[..k] + sessions[k + 1..])
      ensures model == WithActive(old(model), Shelf(
                Without(old(model).active.table, k), Tally(old(model).active.counts, reason)))
    {
      hide Sound, NoncesConserved;
      var session := sessions[k];
      ghost var table := model.active.table;
      assert ActiveAt(k);
      TotalWithout(table, k);
      forall i | 0 <= i < |sessions| && i != k ensures sessions[i].nonces != session.nonces {
        SameAddressSameSession(table, i, k);
        assert ActiveAt(i);
      }
      var discarded := session.nonces.DiscardAll();
      sessions := sessions[..k] + sessions[k + 1..];
      stats := stats.(
        active := Tally(stats.active, reason),
        nonces := stats.nonces.(
          current := stats.nonces.current - discarded, discarded := stats.nonces.discarded + discarded));
      model := WithActive(model, Shelf(Without(table, k), Tally(model.active.counts, reason)));
      forall i | 0 <= i < |sessions| ensures ActiveAt(i) {
        assert old(ActiveAt(if i < k then i else i + 1));
      }
      forall i | 0 <= i < |pendingSessions| ensures PendingAt(i) {
        assert old(PendingAt(i));
      }
    }

    /** `_remove_pending_session`. */
    method RemovePending(k: nat, reason: Reason)
      requires Tied() && k < |pendingSessions| && OnePerAddress(model.pending.table)
      modifies this`pendingSessions, this`stats, this`model, pendingSessions[k].nonces
      ensures Tied() && pendingSessions == old(pendingSessions[..k] + pendingSessions[k + 1..])
      ensures model == WithPending(old(model), Shelf(
                Without(old(model).pending.table, k), Tally(old(model).pending.counts, reason)))
    {
      hide Sound, NoncesConserved;
      var pending := pendingSessions[k];
      ghost var table := model.pending.table;
      assert PendingAt(k);
      TotalWithout(table, k);
      forall i | 0 <= i < |pendingSessions| && i != k ensures pendingSessions[i].nonces != pending.nonces {
        SameAddressSameSession(table, i, k);
        assert PendingAt(i);
      }
      var discarded := pending.nonces.DiscardAll();
      pendingSessions := pendingSessions[..k] + pendingSessions[k + 1..];
      stats := stats.(
        pending := Tally(stats.pending, reason),
        nonces := stats.nonces.(
          current := stats.nonces.current - discarded, discarded := stats.nonces.discarded + discarded));
      model := WithPending(model, Shelf(Without(table, k), Tally(model.pending.counts, reason)));
      forall i | 0 <= i < |pendingSessions| ensures PendingAt(i) {
        assert old(PendingAt(if i < k then i else i + 1));
      }
      forall i | 0 <= i < |sessions| ensures ActiveAt(i) {
        assert old(ActiveAt(i));
      }
    }

    method ExpireOldestSession() returns (addr: Address)
      requires Tied() && |sessions| > 0 && OnePerAddress(model.active.table)
      modifies this`sessions, this`stats, this`model, sessions[0].nonces
      ensures Tied() && model == ExpireFirst(old(model), 1)
      ensures sessions == old(sessions)[1..] && addr == old(sessions)[0].addr
    {
      addr := sessions[0].addr;
      RemoveSession(0, Expiry);
      assert Without(old(model).active.table, 0) == old(model).active.table[1..];
    }

    /** `cleanup_expired_sessions`: the scan stops at the first unexpired session, and removes exactly the expired. */
    method CleanupExpiredSessions(now: int) returns (expired: seq<Address>)
      requires Valid() && model.clock <= now
      modifies this`sessions, this`stats, this`model, ActiveObjects(sessions)
      ensures Valid() && model == CleanActive(old(model), now, c)
      ensures |expired| <= |old(sessions)| && sessions == old(sessions)[|expired|..]
      ensures ActiveObjects(sessions) <= old(ActiveObjects(sessions))
    {
      expired := ScanSessions(now);
      ExpiredPrefixIsCleanup(old(model), |expired|, now, c);
      Tick(now);
    }

    method ScanSessions(now: int) returns (expired: seq<Address>)
      requires Tied() && OnePerAddress(model.active.table)
      modifies this`sessions, this`stats, this`model, ActiveObjects(sessions)
      ensures Tied() && |expired| <= |old(sessions)| && sessions == old(sessions)[|expired|..]
      ensures model == ExpireFirst(old(model), |expired|)
      ensures forall i :: 0 <= i < |expired| ==> Expired(old(model).active.table[i], now, c.sessionTtl)
      ensures |sessions| > 0 ==> !Expired(model.active.table[0], now, c.sessionTtl)
    {
      hide Sound, NoncesConserved;
      expired := [];
      assert ExpireFirst(model, 0) == model;
      while |sessions| > 0
        invariant Tied() && |expired| <= |old(sessions)| && sessions == old(sessions)[|expired|..]
        invariant model == ExpireFirst(old(model), |expired|)
        invariant OnePerAddress(model.active.table)
        invariant forall i :: 0 <= i < |expired| ==> Expired(old(model).active.table[i], now, c.sessionTtl)
        decreases |sessions|
      {
        assert ActiveAt(0);
        if now - sessions[0].lastSeen < c.sessionTtl {
          break;
        }
        ExpireNext(old(model), |expired|);
        OnePerAddressDrop(model.active.table, 1);
        var addr := ExpireOldestSession();
        expired := expired + [addr];
      }
    }

    method ExpireOldestPending() returns (addr: Address)
      requires Tied() && |pendingSessions| > 0 && OnePerAddress(model.pending.table)
      modifies this`pendingSessions, this`stats, this`model, pendingSessions[0].nonces
      ensures Tied() && model == ExpireFirstPending(old(model), 1)
      ensures pendingSessions == old(pendingSessions)[1..] && addr == old(pendingSessions)[0].addr
    {
      addr := pendingSessions[0].addr;
      RemovePending(0, Expiry);
      assert Without(old(model).pending.table, 0) == old(model).pending.table[1..];
    }

    /** `cleanup_expired_pending_sessions`. */
    method CleanupExpiredPending(now: int) returns (expired: seq<Address>)
      requires Valid() && model.clock <= now
      modifies this`pendingSessions, this`stats, this`model, PendingSets(pendingSessions)
      ensures Valid() && model == CleanPending(old(model), now, c)
      ensures |expired| <= |old(pendingSessions)| && pendingSessions == old(pendingSessions)[|expired|..]
      ensures PendingSets(pendingSessions) <= old(PendingSets(pendingSessions))
    {
      expired := ScanPending(now);
      ExpiredPrefixIsPendingCleanup(old(model), |expired|, now, c);
      Tick(now);
    }

    method ScanPending(now: int) returns (expired: seq<Address>)
      requires Tied() && OnePerAddress(model.pending.table)
      modifies this`pendingSessions, this`stats, this`model, PendingSets(pendingSessions)
      ensures Tied() && |expired| <= |old(pendingSessions)| && pendingSessions == old(pendingSessions)[|expired|..]
      ensures model == ExpireFirstPending(old(model), |expired|)
      ensures forall i :: 0 <= i < |expired| ==> Expired(old(model).pending.table[i], now, c.pendingTtl)
      ensures |pendingSessions| > 0 ==> !Expired(model.pending.table[0], now, c.pendingTtl)
    {
      expired := [];
      assert ExpireFirstPending(model, 0) == model;
      while |pendingSessions| > 0
        invariant Tied() && |expired| <= |old(pendingSessions)| && pendingSessions == old(pendingSessions)[|expired|..]
        invariant model == ExpireFirstPending(old(model), |expired|)
        invariant OnePerAddress(model.pending.table)
        invariant forall i :: 0 <= i < |expired| ==> Expired(old(model).pending.table[i], now, c.pendingTtl)
        decreases |pendingSessions|
      {
        assert PendingAt(0);
        if now < pendingSessions[0].createdAt + c.pendingTtl {
          break;
        }
        ExpireNext(old(model), |expired|);
        OnePerAddressDrop(model.pending.table, 1);
        var addr := ExpireOldestPending();
        expired := expired + [addr];
      }
    }

    /** The rows carry the addresses of the session objects. */
    ghost method KnowAddresses()
      requires Tied()
      ensures forall i :: 0 <= i < |sessions| ==> model.active.table[i].addr == sessions[i].addr
      ensures forall i :: 0 <= i < |pendingSessions| ==> model.pending.table[i].addr == pendingSessions[i].addr
    {
      forall i | 0 <= i < |sessions| ensures model.active.table[i].addr == sessions[i].addr {
        assert ActiveAt(i);
      }
      forall i | 0 <= i < |pendingSessions| ensures model.pending.table[i].addr == pendingSessions[i].addr {
        assert PendingAt(i);
      }
    }

    lemma SeekIsFind(addr: Address)
      requires Tied() && OnePerAddress(model.active.table) && OnePerAddress(model.pending.table)
      ensures SeekActive(sessions, addr) < |sessions| <==> Has(model.active.table, addr)
      ensures Has(model.active.table, addr) ==> SeekActive(sessions, addr) == Find(model.active.table, addr)
      ensures SeekPending(pendingSessions, addr) < |pendingSessions| <==> Has(model.pending.table, addr)
      ensures Has(model.pending.table, addr) ==> SeekPending(pendingSessions, addr) == Find(model.pending.table, addr)
    {
      forall i | 0 <= i < |sessions| ensures model.active.table[i].addr == sessions[i].addr {
        assert ActiveAt(i);
      }
      forall i | 0 <= i < |pendingSessions| ensures model.pending.table[i].addr == pendingSessions[i].addr {
        assert PendingAt(i);
      }
      var k := SeekActive(sessions, addr);
      if k < |sessions| { FindIsUnique(model.active.table, addr, k); }
      var m := SeekPending(pendingSessions, addr);
      if m < |pendingSessions| { FindIsUnique(model.pending.table, addr, m); }
    }

    /** Replaces the active session at `addr`, or evicts the oldest of a full table. */
    method MakeRoomActive(addr: Address)
      requires Tied() && OnePerAddress(model.active.table) && OnePerAddress(model.pending.table) && c.maxSessions >= 1
      modifies this`sessions, this`stats, this`model, ActiveObjects(sessions)
      ensures Tied() && model == WithActive(old(model), RoomFor(old(model).active, addr, c.maxSessions))
      ensures ActiveObjects(sessions) <= old(ActiveObjects(sessions))
    {
      SeekIsFind(addr);
      var k := SeekActive(sessions, addr);
      if k < |sessions| {
        RemoveSession(k, Replacement);
      } else if |sessions| >= c.maxSessions {
        RemoveSession(0, Capacity);
        assert Without(old(model).active.table, 0) == old(model).active.table[1..];
      } else {
        assert WithActive(model, model.active) == model;
      }
      FewerActiveObjects(sessions, old(sessions));
    }

    method MakeRoomPending(addr: Address)
      requires Tied() && OnePerAddress(model.active.table) && OnePerAddress(model.pending.table) && c.maxPending >= 1
      modifies this`pendingSessions, this`stats, this`model, PendingSets(pendingSessions)
      ensures Tied() && model == WithPending(old(model), RoomFor(old(model).pending, addr, c.maxPending))
      ensures PendingSets(pendingSessions) <= old(PendingSets(pendingSessions))
    {
      SeekIsFind(addr);
      var k := SeekPending(pendingSessions, addr);
      if k < |pendingSessions| {
        RemovePending(k, Replacement);
      } else if |pendingSessions| >= c.maxPending {
        RemovePending(0, Capacity);
        assert Without(old(model).pending.table, 0) == old(model).pending.table[1..];
      } else {
        assert WithPending(model, model.pending) == model;
      }
    }

    /** A nonce set that no retained session owns. */
    ghost predicate Unowned(nonces: NonceSet)
      reads this
    {
      nonces !in ActiveObjects(sessions) && nonces !in PendingSets(pendingSessions)
    }

    method AppendActive(s: ActiveSession, ghost row: Session)
      requires Tied() && ActiveBacks(s, row, c, homes[s.nonces := InActive(s.addr)])
      requires Unowned(s.nonces)
      modifies this
      ensures Tied() && sessions == old(sessions) + [s] && pendingSessions == old(pendingSessions)
      ensures model == old(model).(active := AddTo(old(model).active, row))
      ensures ActiveObjects(sessions) == old(ActiveObjects(sessions)) + {s, s.nonces}
    {
      MoreActiveObjects(sessions, s);
      sessions := sessions + [s];
      stats := stats.(active := Bump(stats.active, |sessions|));
      model := model.(active := AddTo(model.active, row));
      homes := homes[s.nonces := InActive(s.addr)];
      forall i | 0 <= i < |sessions| ensures ActiveAt(i) {
        if i < |sessions| - 1 { assert old(ActiveAt(i)); }
      }
      forall i | 0 <= i < |pendingSessions| ensures PendingAt(i) {
        assert old(PendingAt(i));
      }
    }

    method AppendPending(p: PendingSession, ghost row: Session)
      requires Tied() && PendingBacks(p, row, c, homes[p.nonces := InPending(p.addr)])
      requires Unowned(p.nonces)
      modifies this
      ensures Tied() && pendingSessions == old(pendingSessions) + [p] && sessions == old(sessions)
      ensures model == old(model).(pending := AddTo(old(model).pending, row))
      ensures PendingSets(pendingSessions) == old(PendingSets(pendingSessions)) + {p.nonces}
    {
      pendingSessions := pendingSessions + [p];
      stats := stats.(pending := Bump(stats.pending, |pendingSessions|));
      model := model.(pending := AddTo(model.pending, row));
      homes := homes[p.nonces := InPending(p.addr)];
      forall i | 0 <= i < |sessions| ensures ActiveAt(i) {
        assert old(ActiveAt(i));
      }
      forall i | 0 <= i < |pendingSessions| ensures PendingAt(i) {
        if i < |pendingSessions| - 1 { assert old(PendingAt(i)); }
      }
    }

    /** Cleanup and room for a pending session at `addr`. */
    method PreparePending(addr: Address, now: int)
      requires Valid() && model.clock <= now
      modifies this`pendingSessions, this`stats, this`model, PendingSets(pendingSessions)
      ensures Tied() && sessions == old(sessions)
      ensures var cleaned := CleanPending(old(model), now, c);
              model == WithPending(cleaned, RoomFor(cleaned.pending, addr, c.maxPending))
      ensures PendingSets(pendingSessions) <= old(PendingSets(pendingSessions))
    {
      var _ := CleanupExpiredPending(now);
      MakeRoomPending(addr);
    }

    method InstallPendingSession(addr: Address, station: string, keys: Keys, now: int) returns (p: PendingSession)
      requires Valid() && model.clock <= now
      modifies this, PendingSets(pendingSessions)
      ensures Valid() && sessions == old(sessions) && fresh(p.nonces)
      ensures PendingSets(pendingSessions) <= old(PendingSets(pendingSessions)) + {p.nonces}
      ensures model == InstallPending(old(model), addr, station, keys, now, c)
      ensures |pendingSessions| > 0 && p == pendingSessions[|pendingSessions| - 1]
    {
      InstallPendingInv(model, addr, station, keys, now, c);
      PreparePending(addr, now);
      var nonces := new BoundedExpiringSet<Nonce>(c.nonceTtl, c.nonceMax, now);
      p := new PendingSession(addr, station, keys, now, nonces);
      AppendPending(p, NewSession(addr, station, keys, now));
    }

    /** The session retained at `addr` is this very object. */
    predicate RetainsActive(addr: Address, session: ActiveSession)
      reads this
    {
      var k := SeekActive(sessions, addr);
      k < |sessions| && sessions[k] == session
    }

    predicate RetainsPending(addr: Address, pending: PendingSession)
      reads this
    {
      var k := SeekPending(pendingSessions, addr);
      k < |pendingSessions| && pendingSessions[k] == pending
    }

    /** A stale handle is refused before anything else happens; a retained one is checked again after cleanup. */
    method GetLiveSessionHandle(addr: Address, session: ActiveSession, now: int) returns (live: bool)
      requires Valid() && model.clock <= now
      modifies this`sessions, this`stats, this`model, ActiveObjects(sessions)
      ensures Valid() && ActiveObjects(sessions) <= old(ActiveObjects(sessions))
      ensures model == if old(RetainsActive(addr, session)) then CleanActive(old(model), now, c) else old(model)
      ensures live <==> old(RetainsActive(addr, session)) && RetainsActive(addr, session)
      ensures old(RetainsActive(addr, session)) ==> (live <==> Has(model.active.table, addr))
      ensures !old(RetainsActive(addr, session)) ==> unchanged(this)
    {
      if !RetainsActive(addr, session) {
        return false;
      }
      ghost var table := model.active.table;
      KnowAddresses();
      var expired := CleanupExpiredSessions(now);
      live := RetainsActive(addr, session);
      SeekIsFind(addr);
      ghost var (k, j) := (SeekActive(old(sessions), addr), SeekActive(sessions, addr));
      if j < |sessions| {
        assert sessions[j] == old(sessions)[|expired| + j];
        SameAddressSameSession(table, |expired| + j, k);
      }
    }

    method GetLivePendingHandle(addr: Address, pending: PendingSession, now: int) returns (live: bool)
      requires Valid() && model.clock <= now
      modifies this`pendingSessions, this`stats, this`model, PendingSets(pendingSessions)
      ensures Valid() && PendingSets(pendingSessions) <= old(PendingSets(pendingSessions))
      ensures model == if old(RetainsPending(addr, pending)) then CleanPending(old(model), now, c) else old(model)
      ensures live <==> old(RetainsPending(addr, pending)) && RetainsPending(addr, pending)
      ensures old(RetainsPending(addr, pending)) ==> (live <==> Has(model.pending.table, addr))
      ensures !old(RetainsPending(addr, pending)) ==> unchanged(this)
    {
      if !RetainsPending(addr, pending) {
        return false;
      }
      ghost var table := model.pending.table;
      KnowAddresses();
      var expired := CleanupExpiredPending(now);
      live := RetainsPending(addr, pending);
      SeekIsFind(addr);
      ghost var (k, j) := (SeekPending(old(pendingSessions), addr), SeekPending(pendingSessions, addr));
      if j < |pendingSessions| {
        assert pendingSessions[j] == old(pendingSessions)[|expired| + j];
        SameAddressSameSession(table, |expired| + j, k);
      }
    }

    method GetActiveSession(addr: Address, now: int) returns (session: ActiveSession?)
      requires Valid() && model.clock <= now
      modifies this`sessions, this`stats, this`model, ActiveObjects(sessions)
      ensures Valid() && model == CleanActive(old(model), now, c)
      ensures ActiveObjects(sessions) <= old(ActiveObjects(sessions))
      ensures session != null <==> Has(model.active.table, addr)
      ensures session != null ==> RetainsActive(addr, session) && session.addr == addr
    {
      var _ := CleanupExpiredSessions(now);
      SeekIsFind(addr);
      var k := SeekActive(sessions, addr);
      session := if k < |sessions| then sessions[k] else null;
    }

    method GetPendingSession(addr: Address, now: int) returns (pending: PendingSession?)
      requires Valid() && model.clock <= now
      modifies this`pendingSessions, this`stats, this`model, PendingSets(pendingSessions)
      ensures Valid() && model == CleanPending(old(model), now, c)
      ensures PendingSets(pendingSessions) <= old(PendingSets(pendingSessions))
      ensures pending != null <==> Has(model.pending.table, addr)
      ensures pending != null ==> RetainsPending(addr, pending) && pending.addr == addr
    {
      var _ := CleanupExpiredPending(now);
      SeekIsFind(addr);
      var k := SeekPending(pendingSessions, addr);
      pending := if k < |pendingSessions| then pendingSessions[k] else null;
    }

    /** What a retained handle tells about its row. */
    lemma RetainedRows(addr: Address)
      requires Valid()
      ensures forall session :: RetainsActive(addr, session) ==>
                && Has(model.active.table, addr)
                && var row := model.active.table[Find(model.active.table, addr)];
                row.keys == session.keys && row.station == session.station && session.addr == addr
      ensures forall pending :: RetainsPending(addr, pending) ==>
                && Has(model.pending.table, addr)
                && var row := model.pending.table[Find(model.pending.table, addr)];
                row.keys == pending.keys && row.station == pending.station && pending.addr == addr
    {
      SeekIsFind(addr);
      var k := SeekActive(sessions, addr);
      if k < |sessions| { assert ActiveAt(k); }
      var m := SeekPending(pendingSessions, addr);
      if m < |pendingSessions| { assert PendingAt(m); }
    }

    /** The newest session is the one retained at its address. */
    lemma NewestIsRetained(session: ActiveSession)
      requires Valid() && |sessions| > 0 && session == sessions[|sessions| - 1]
      ensures RetainsActive(session.addr, session)
    {
      var k := SeekActive(sessions, session.addr);
      assert ActiveAt(k) && ActiveAt(|sessions| - 1);
      SameAddressSameSession(model.active.table, k, |sessions| - 1);
    }

    method MoveToEnd(k: nat)
      requires Tied() && k < |sessions| && OnePerAddress(model.active.table)
      modifies this`sessions, this`model
      ensures Tied() && sessions == old(sessions[..k] + sessions[k + 1..] + [sessions[k]])
      ensures model == old(model).(active := old(model).active.(
                table := Without(old(model).active.table, k) + [old(model).active.table[k]]))
      ensures forall i :: 0 <= i < |sessions| - 1 ==> sessions[i] != old(sessions[k])
    {
      ghost var table := model.active.table;
      forall i | 0 <= i < |sessions| && i != k ensures sessions[i] != sessions[k] {
        SameAddressSameSession(table, i, k);
        assert ActiveAt(i) && ActiveAt(k);
      }
      sessions := sessions[..k] + sessions[k + 1..] + [sessions[k]];
      model := model.(active := model.active.(table := Without(table, k) + [table[k]]));
      forall i | 0 <= i < |sessions| ensures ActiveAt(i) {
        assert old(ActiveAt(if i < k then i else if i < |sessions| - 1 then i + 1 else k));
      }
      forall i | 0 <= i < |pendingSessions| ensures PendingAt(i) {
        assert old(PendingAt(i));
      }
    }

    method MarkNewestSeen(session: ActiveSession, now: int)
      requires Tied() && |sessions| > 0 && session == sessions[|sessions| - 1]
      requires forall i :: 0 <= i < |sessions| - 1 ==> sessions[i] != session
      modifies this`stats, this`model, session`lastSeen
      ensures Tied() && model == SeenNewest(old(model), now)
    {
      assert ActiveAt(|sessions| - 1);
      session.lastSeen := now;
      stats := stats.(touched := stats.touched + 1);
      model := SeenNewest(model, now);
      forall i | 0 <= i < |sessions| ensures ActiveAt(i) {
        assert old(ActiveAt(i));
      }
      forall i | 0 <= i < |pendingSessions| ensures PendingAt(i) {
        assert old(PendingAt(i));
      }
    }

    /** `_touch_active_session`: the newest activity, at the end of the order. */
    method TouchActiveSession(addr: Address, session: ActiveSession, now: int)
      requires Valid() && RetainsActive(addr, session) && model.clock == now
      modifies this`sessions, this`stats, this`model, session`lastSeen
      ensures Valid() && Has(old(model).active.table, addr) && model == Touch(old(model), addr, now)
      ensures ActiveObjects(sessions) <= old(ActiveObjects(sessions))
    {
      SeekIsFind(addr);
      TouchInv(model, addr, c);
      var k := SeekActive(sessions, addr);
      ghost var table := model.active.table;
      MoveToEnd(k);
      MarkNewestSeen(session, now);
      assert model.active.table == Without(table, k) + [table[k].(lastSeen := now)];
      FewerActiveObjects(sessions, old(sessions));
    }

    method TouchSession(addr: Address, session: ActiveSession, now: int) returns (touched: bool)
      requires Valid() && model.clock <= now
      modifies this`sessions, this`stats, this`model, ActiveObjects(sessions), session`lastSeen
      ensures Valid() && ActiveObjects(sessions) <= old(ActiveObjects(sessions))
      ensures !old(RetainsActive(addr, session)) ==> !touched && model == old(model)
      ensures old(RetainsActive(addr, session)) ==>
                && model == Touch(CleanActive(old(model), now, c), addr, now)
                && (touched <==> Has(CleanActive(old(model), now, c).active.table, addr))
    {
      touched := GetLiveSessionHandle(addr, session, now);
      if touched {
        TouchActiveSession(addr, session, now);
      }
    }

    /** No other session shares the nonce set of active session `k`. */
    lemma OwnSetActive(k: nat)
      requires Tied() && k < |sessions| && OnePerAddress(model.active.table)
      ensures forall i :: 0 <= i < |sessions| && i != k ==> sessions[i].nonces != sessions[k].nonces
      ensures forall i :: 0 <= i < |pendingSessions| ==> pendingSessions[i].nonces != sessions[k].nonces
    {
      assert ActiveAt(k);
      forall i | 0 <= i < |sessions| && i != k ensures sessions[i].nonces != sessions[k].nonces {
        SameAddressSameSession(model.active.table, i, k);
        assert ActiveAt(i);
      }
      forall i | 0 <= i < |pendingSessions| ensures pendingSessions[i].nonces != sessions[k].nonces {
        assert PendingAt(i);
      }
    }

    lemma OwnSetPending(k: nat)
      requires Tied() && k < |pendingSessions| && OnePerAddress(model.pending.table)
      ensures forall i :: 0 <= i < |pendingSessions| && i != k ==> pendingSessions[i].nonces != pendingSessions[k].nonces
      ensures forall i :: 0 <= i < |sessions| ==> sessions[i].nonces != pendingSessions[k].nonces
    {
      assert PendingAt(k);
      forall i | 0 <= i < |pendingSessions| && i != k ensures pendingSessions[i].nonces != pendingSessions[k].nonces {
        SameAddressSameSession(model.pending.table, i, k);
        assert PendingAt(i);
      }
      forall i | 0 <= i < |sessions| ensures sessions[i].nonces != pendingSessions[k].nonces {
        assert ActiveAt(i);
      }
    }

    /** `contains` on the set of active session `k`. */
    method ContainsActive(k: nat, nonce: Nonce, now: int) returns (seen: bool, expired: nat)
      requires Tied() && k < |sessions| && OnePerAddress(model.active.table)
      requires model.active.table[k].nonces.clock <= now
      modifies this`model, sessions[k].nonces
      ensures ActiveTied() && PendingTied()
      ensures var b := old(model).active.table[k].nonces;
              && b.gone <= |b.log| && expired == Cleaned(b, now, c.nonceTtl).gone - b.gone
              && model == old(model).(active := old(model).active.(
                   table := SetNonces(old(model).active.table, k, Cleaned(b, now, c.nonceTtl))))
              && (seen <==> Blocks(b.log, nonce, now, c.nonceTtl, Some(c.nonceMax)))
    {
      OwnSetActive(k);
      assert ActiveAt(k);
      seen, expired := sessions[k].nonces.Contains(nonce, now);
      model := model.(active := model.active.(
        table := SetNonces(model.active.table, k, sessions[k].nonces.store)));
      forall i | 0 <= i < |sessions| ensures ActiveAt(i) { assert old(ActiveAt(i)); }
      forall i | 0 <= i < |pendingSessions| ensures PendingAt(i) { assert old(PendingAt(i)); }
    }

    method ContainsPending(k: nat, nonce: Nonce, now: int) returns (seen: bool, expired: nat)
      requires Tied() && k < |pendingSessions| && OnePerAddress(model.pending.table)
      requires model.pending.table[k].nonces.clock <= now
      modifies this`model, pendingSessions[k].nonces
      ensures ActiveTied() && PendingTied()
      ensures var b := old(model).pending.table[k].nonces;
              && b.gone <= |b.log| && expired == Cleaned(b, now, c.nonceTtl).gone - b.gone
              && model == old(model).(pending := old(model).pending.(
                   table := SetNonces(old(model).pending.table, k, Cleaned(b, now, c.nonceTtl))))
              && (seen <==> Blocks(b.log, nonce, now, c.nonceTtl, Some(c.nonceMax)))
    {
      OwnSetPending(k);
      assert PendingAt(k);
      seen, expired := pendingSessions[k].nonces.Contains(nonce, now);
      model := model.(pending := model.pending.(
        table := SetNonces(model.pending.table, k, pendingSessions[k].nonces.store)));
      forall i | 0 <= i < |sessions| ensures ActiveAt(i) { assert old(ActiveAt(i)); }
      forall i | 0 <= i < |pendingSessions| ensures PendingAt(i) { assert old(PendingAt(i)); }
    }

    /** `accept` on the set of active session `k`. */
    method AcceptInActive(k: nat, nonce: Nonce, now: int) returns (admission: Admission)
      requires Tied() && k < |sessions| && OnePerAddress(model.active.table)
      requires model.active.table[k].nonces.clock <= now
      modifies this`model, sessions[k].nonces
      ensures ActiveTied() && PendingTied()
      ensures var b := old(model).active.table[k].nonces;
              && b.gone <= |b.log| && Books(admission, b, nonce, now, c)
              && model == old(model).(active := old(model).active.(
                   table := SetNonces(old(model).active.table, k, Offered(b, nonce, now, c.nonceTtl, Some(c.nonceMax)))))
    {
      OwnSetActive(k);
      assert ActiveAt(k);
      CleanedDecides(model.active.table[k].nonces, nonce, now, c.nonceTtl, Some(c.nonceMax));
      admission := sessions[k].nonces.Accept(nonce, now);
      model := model.(active := model.active.(
        table := SetNonces(model.active.table, k, sessions[k].nonces.store)));
      forall i | 0 <= i < |sessions| ensures ActiveAt(i) { assert old(ActiveAt(i)); }
      forall i | 0 <= i < |pendingSessions| ensures PendingAt(i) { assert old(PendingAt(i)); }
    }

    method AcceptInPending(k: nat, nonce: Nonce, now: int) returns (admission: Admission)
      requires Tied() && k < |pendingSessions| && OnePerAddress(model.pending.table)
      requires model.pending.table[k].nonces.clock <= now
      modifies this`model, pendingSessions[k].nonces
      ensures ActiveTied() && PendingTied()
      ensures var b := old(model).pending.table[k].nonces;
              && b.gone <= |b.log| && Books(admission, b, nonce, now, c)
              && model == old(model).(pending := old(model).pending.(
                   table := SetNonces(old(model).pending.table, k, Offered(b, nonce, now, c.nonceTtl, Some(c.nonceMax)))))
    {
      OwnSetPending(k);
      assert PendingAt(k);
      CleanedDecides(model.pending.table[k].nonces, nonce, now, c.nonceTtl, Some(c.nonceMax));
      admission := pendingSessions[k].nonces.Accept(nonce, now);
      model := model.(pending := model.pending.(
        table := SetNonces(model.pending.table, k, pendingSessions[k].nonces.store)));
      forall i | 0 <= i < |sessions| ensures ActiveAt(i) { assert old(ActiveAt(i)); }
      forall i | 0 <= i < |pendingSessions| ensures PendingAt(i) { assert old(PendingAt(i)); }
    }

    /** Books the counters and the model together. */
    method SetNonceStats(n: NonceStats)
      requires ActiveTied() && PendingTied()
      requires stats == SyncedStats(model)
      modifies this`stats, this`model
      ensures Tied() && model == old(model).(nonces := n)
    {
      stats := stats.(nonces := n);
      model := model.(nonces := n);
      forall i | 0 <= i < |sessions| ensures ActiveAt(i) { assert old(ActiveAt(i)); }
      forall i | 0 <= i < |pendingSessions| ensures PendingAt(i) { assert old(PendingAt(i)); }
    }

    method SeeLive(addr: Address, nonce: Nonce, now: int) returns (seen: bool)
      requires Valid() && model.clock == now && Has(model.active.table, addr)
      modifies this`stats, this`model, ActiveObjects(sessions)
      ensures Valid() && model == SeeActive(old(model), addr, nonce, c)
      ensures seen <==> Replayed(old(model).active.table, addr, nonce, now, c)
    {
      SeekIsFind(addr);
      ActiveNonceInv(model, addr, nonce, c);
      var k := SeekActive(sessions, addr);
      CleanedDecides(model.active.table[k].nonces, nonce, now, c.nonceTtl, Some(c.nonceMax));
      var expired;
      seen, expired := ContainsActive(k, nonce, now);
      var n := stats.nonces.(expired := stats.nonces.expired + expired, current := stats.nonces.current - expired);
      SetNonceStats(if seen then n.(replays := n.replays + 1) else n);
    }

    method SeePendingLive(addr: Address, nonce: Nonce, now: int) returns (seen: bool)
      requires Valid() && model.clock == now && Has(model.pending.table, addr)
      modifies this`stats, this`model, PendingSets(pendingSessions)
      ensures Valid() && model == SeePending(old(model), addr, c)
      ensures seen <==> Replayed(old(model).pending.table, addr, nonce, now, c)
    {
      SeekIsFind(addr);
      PendingNonceInv(model, addr, nonce, c);
      var k := SeekPending(pendingSessions, addr);
      var expired;
      seen, expired := ContainsPending(k, nonce, now);
      SetNonceStats(stats.nonces.(
        expired := stats.nonces.expired + expired, current := stats.nonces.current - expired));
    }

    method AcceptLive(addr: Address, nonce: Nonce, now: int) returns (accepted: bool)
      requires Valid() && model.clock == now && Has(model.active.table, addr)
      modifies this`stats, this`model, ActiveObjects(sessions)
      ensures Valid() && model == AcceptActive(old(model), addr, nonce, c)
      ensures accepted <==> !Replayed(old(model).active.table, addr, nonce, now, c)
    {
      SeekIsFind(addr);
      ActiveNonceInv(model, addr, nonce, c);
      var k := SeekActive(sessions, addr);
      ghost var before := model.active.table[k].nonces;
      var admission := AcceptInActive(k, nonce, now);
      BookedIsAcceptNonce(stats.nonces, admission, before, nonce, now, c);
      SetNonceStats(Booked(stats.nonces, admission));
      accepted := admission.accepted;
    }

    method AcceptPendingLive(addr: Address, nonce: Nonce, now: int) returns (accepted: bool)
      requires Valid() && model.clock == now && Has(model.pending.table, addr)
      modifies this`stats, this`model, PendingSets(pendingSessions)
      ensures Valid() && model == AcceptPending(old(model), addr, nonce, c)
      ensures accepted <==> !Replayed(old(model).pending.table, addr, nonce, now, c)
    {
      SeekIsFind(addr);
      PendingNonceInv(model, addr, nonce, c);
      var k := SeekPending(pendingSessions, addr);
      ghost var before := model.pending.table[k].nonces;
      var admission := AcceptInPending(k, nonce, now);
      BookedIsAcceptNonce(stats.nonces, admission, before, nonce, now, c);
      SetNonceStats(Booked(stats.nonces, admission));
      accepted := admission.accepted;
    }

    /** `data_nonce_seen`: a replay is a nonce refused by the log of its own session. */
    method DataNonceSeen(session: ActiveSession, nonce: Nonce, now: int) returns (seen: bool)
      requires Valid() && model.clock <= now
      modifies this`sessions, this`stats, this`model, ActiveObjects(sessions)
      ensures Valid() && ActiveObjects(sessions) <= old(ActiveObjects(sessions))
      ensures !old(RetainsActive(session.addr, session)) ==> !seen && model == old(model)
      ensures old(RetainsActive(session.addr, session)) ==>
                var cleaned := CleanActive(old(model), now, c);
                && (RetainsActive(session.addr, session) <==> Has(cleaned.active.table, session.addr))
                && model == SeeActive(cleaned, session.addr, nonce, c)
                && (seen <==> Replayed(cleaned.active.table, session.addr, nonce, now, c))
    {
      var live := GetLiveSessionHandle(session.addr, session, now);
      if !live {
        return false;
      }
      seen := SeeLive(session.addr, nonce, now);
    }

    /** `pending_data_nonce_seen`. */
    method PendingDataNonceSeen(pending: PendingSession, nonce: Nonce, now: int) returns (seen: bool)
      requires Valid() && model.clock <= now
      modifies this`pendingSessions, this`stats, this`model, PendingSets(pendingSessions)
      ensures Valid() && PendingSets(pendingSessions) <= old(PendingSets(pendingSessions))
      ensures !old(RetainsPending(pending.addr, pending)) ==> !seen && model == old(model)
      ensures old(RetainsPending(pending.addr, pending)) ==>
                var cleaned := CleanPending(old(model), now, c);
                && (RetainsPending(pending.addr, pending) <==> Has(cleaned.pending.table, pending.addr))
                && model == SeePending(cleaned, pending.addr, c)
                && (seen <==> Replayed(cleaned.pending.table, pending.addr, nonce, now, c))
    {
      var live := GetLivePendingHandle(pending.addr, pending, now);
      if !live {
        return false;
      }
      seen := SeePendingLive(pending.addr, nonce, now);
    }

    /** `accept_data_nonce`. */
    method AcceptDataNonce(session: ActiveSession, nonce: Nonce, now: int) returns (accepted: bool)
      requires Valid() && model.clock <= now
      modifies this`sessions, this`stats, this`model, ActiveObjects(sessions)
      ensures Valid() && ActiveObjects(sessions) <= old(ActiveObjects(sessions))
      ensures !old(RetainsActive(session.addr, session)) ==> !accepted && model == old(model)
      ensures old(RetainsActive(session.addr, session)) ==>
                var cleaned := CleanActive(old(model), now, c);
                && (RetainsActive(session.addr, session) <==> Has(cleaned.active.table, session.addr))
                && model == AcceptActive(cleaned, session.addr, nonce, c)
                && (accepted <==> Has(cleaned.active.table, session.addr)
                                  && !Replayed(cleaned.active.table, session.addr, nonce, now, c))
    {
      var live := GetLiveSessionHandle(session.addr, session, now);
      if !live {
        return false;
      }
      accepted := AcceptLive(session.addr, nonce, now);
    }

    /** `accept_pending_data_nonce`. */
    method AcceptPendingDataNonce(pending: PendingSession, nonce: Nonce, now: int) returns (accepted: bool)
      requires Valid() && model.clock <= now
      modifies this`pendingSessions, this`stats, this`model, PendingSets(pendingSessions)
      ensures Valid() && PendingSets(pendingSessions) <= old(PendingSets(pendingSessions))
      ensures !old(RetainsPending(pending.addr, pending)) ==> !accepted && model == old(model)
      ensures old(RetainsPending(pending.addr, pending)) ==>
                var cleaned := CleanPending(old(model), now, c);
                && (RetainsPending(pending.addr, pending) <==> Has(cleaned.pending.table, pending.addr))
                && model == AcceptPending(cleaned, pending.addr, nonce, c)
                && (accepted <==> Has(cleaned.pending.table, pending.addr)
                                  && !Replayed(cleaned.pending.table, pending.addr, nonce, now, c))
    {
      var live := GetLivePendingHandle(pending.addr, pending, now);
      if !live {
        return false;
      }
      accepted := AcceptPendingLive(pending.addr, nonce, now);
    }

    /** `accept_handshake_replay`: one admission per replay key within its lifetime and capacity. */
    method AcceptHandshakeReplay(key: ReplayKey, now: int) returns (accepted: bool)
      requires Valid() && model.clock <= now
      modifies this`stats, this`model, handshakeReplays
      ensures Valid() && model == AcceptReplay(old(model), key, now, c)
      ensures accepted <==> !Blocks(old(model).replays.log, key, now, c.replayTtl, Some(c.replayMax))
    {
      hide Sound, NoncesConserved;
      AcceptReplayInv(model, key, now, c);
      ghost var before := model.replays;
      var admission := handshakeReplays.Accept(key, now);
      var size := handshakeReplays.Size();
      var r := stats.replays.(
        expired := stats.replays.expired + admission.expired,
        capacityEvicted := stats.replays.capacityEvicted + admission.capacityEvicted);
      r := if admission.accepted then r.(accepted := r.accepted + 1, peak := Max(r.peak, size))
           else r.(rejected := r.rejected + 1);
      stats := stats.(replays := r);
      model := model.(replays := handshakeReplays.store, replayStats := r, clock := now);
      accepted := admission.accepted;
      forall i | 0 <= i < |sessions| ensures ActiveAt(i) { assert old(ActiveAt(i)); }
      forall i | 0 <= i < |pendingSessions| ensures PendingAt(i) { assert old(PendingAt(i)); }
    }

    /** Takes pending session `k` out of its table; its nonce set stays as it is. */
    method TakePending(k: nat)
      requires Tied() && k < |pendingSessions| && OnePerAddress(model.pending.table)
      modifies this`pendingSessions, this`stats, this`model
      ensures Tied() && pendingSessions == old(pendingSessions[..k] + pendingSessions[k + 1..])
      ensures PendingSets(pendingSessions) <= old(PendingSets(pendingSessions))
      ensures var counts := old(model).pending.counts;
              model == old(model).(pending := Shelf(
                Without(old(model).pending.table, k), counts.(promoted := counts.promoted + 1)))
    {
      pendingSessions := pendingSessions[..k] + pendingSessions[k + 1..];
      var counts := stats.pending.(promoted := stats.pending.promoted + 1);
      stats := stats.(pending := counts);
      model := model.(pending := Shelf(Without(model.pending.table, k), counts));
      forall i | 0 <= i < |pendingSessions| ensures PendingAt(i) {
        assert old(PendingAt(if i < k then i else i + 1));
      }
      forall i | 0 <= i < |sessions| ensures ActiveAt(i) { assert old(ActiveAt(i)); }
    }

    /** The pending session leaves its table and the active table has room for it; its nonces are untouched. */
    method PromotionRoom(addr: Address, pending: PendingSession, now: int)
      requires Valid() && model.clock == now && RetainsPending(addr, pending)
      modifies this`sessions, this`pendingSessions, this`stats, this`model, ActiveObjects(sessions)
      ensures Tied() && model == PromoteRoom(old(model), addr, now, c)
      ensures ActiveObjects(sessions) <= old(ActiveObjects(sessions))
      ensures PendingSets(pendingSessions) <= old(PendingSets(pendingSessions))
      ensures Unowned(pending.nonces)
      ensures Has(old(model).pending.table, addr)
      ensures var row := old(model).pending.table[Find(old(model).pending.table, addr)];
              PendingBacks(pending, row, c, homes)
    {
      SeekIsFind(addr);
      var k := SeekPending(pendingSessions, addr);
      var _ := CleanupExpiredSessions(now);
      TakeForPromotion(k);
      MakeRoomActive(addr);
    }

    /** The taken session stays intact behind its row, and nobody else owns its nonce set. */
    method TakeForPromotion(k: nat)
      requires Valid() && k < |pendingSessions|
      modifies this`pendingSessions, this`stats, this`model
      ensures Tied() && OnePerAddress(model.pending.table)
      ensures PendingSets(pendingSessions) <= old(PendingSets(pendingSessions))
      ensures var counts := old(model).pending.counts;
              model == old(model).(pending := Shelf(
                Without(old(model).pending.table, k), counts.(promoted := counts.promoted + 1)))
      ensures Unowned(old(pendingSessions[k].nonces))
      ensures PendingBacks(old(pendingSessions[k]), old(model).pending.table[k], c, homes)
    {
      assert PendingAt(k);
      OwnSetPending(k);
      OrderlyWithout(model.pending.table, k, model.clock, c.nonceTtl, c.nonceMax);
      ghost var nonces := pendingSessions[k].nonces;
      TakePending(k);
      forall s | s in sessions ensures s.nonces != nonces {
        assert s == sessions[IndexOf(sessions, s)];
      }
      forall p | p in pendingSessions ensures p.nonces != nonces {
        assert p == pendingSessions[IndexOf(pendingSessions, p)];
      }
    }

    method PromoteLive(addr: Address, pending: PendingSession, now: int) returns (session: ActiveSession)
      requires Valid() && model.clock == now && RetainsPending(addr, pending) && Has(model.pending.table, addr)
      modifies Objects()
      ensures Valid() && fresh(session) && PendingSets(pendingSessions) <= old(PendingSets(pendingSessions))
      ensures ActiveObjects(sessions) <= old(ActiveObjects(sessions)) + {session, pending.nonces}
      ensures model == Promote(old(model), addr, now, c)
      ensures |sessions| > 0 && session == sessions[|sessions| - 1]
      ensures session.nonces == pending.nonces && session.keys == pending.keys && session.addr == addr
    {
      hide Sound, NoncesConserved;
      PromoteInv(model, addr, now, c);
      ghost var row := model.pending.table[Find(model.pending.table, addr)];
      PromotionRoom(addr, pending, now);
      session := new ActiveSession(addr, pending.station, pending.keys, now, pending.nonces);
      AppendActive(session, row.(createdAt := now, lastSeen := now));
    }

    /** `promote_pending_session`: the same keys and the same nonce set, now active. */
    method PromotePendingSession(addr: Address, pending: PendingSession, now: int) returns (session: ActiveSession?)
      requires Valid() && model.clock <= now
      modifies Objects()
      ensures Valid() && PendingSets(pendingSessions) <= old(PendingSets(pendingSessions))
      ensures session != null ==>
                fresh(session) && ActiveObjects(sessions) <= old(ActiveObjects(sessions)) + {session, pending.nonces}
      ensures session == null ==> ActiveObjects(sessions) <= old(ActiveObjects(sessions))
      ensures !old(RetainsPending(addr, pending)) ==> session == null && model == old(model)
      ensures old(RetainsPending(addr, pending)) ==>
                && model == Promote(CleanPending(old(model), now, c), addr, now, c)
                && (session != null <==> Has(CleanPending(old(model), now, c).pending.table, addr))
      ensures session != null ==> |sessions| > 0 && session == sessions[|sessions| - 1]
      ensures session != null ==> session.nonces == pending.nonces && session.keys == pending.keys && session.addr == addr
    {
      var live := GetLivePendingHandle(addr, pending, now);
      if !live {
        return null;
      }
      session := PromoteLive(addr, pending, now);
    }
  }
}
