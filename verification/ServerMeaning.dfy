/**
 What a turn of the server loop (aismixer_secure.py) owes its peers, said on the
 datagram and on the session tables alone: which hellos are answered, which
 lines are delivered, which pings are answered, and how traffic keeps a session
 alive.
 */
module ServerMeaning {
  import opened Common
  import opened AcceptanceLog
  import opened Wire
  import opened SessionTable
  import opened SecureModel
  import opened ServerModel
  import opened ServerMoves

  // ------------------------------------------------------------------------- tables

  /** Cleanup keeps exactly the sessions younger than the time-to-live. */
  lemma {:induction false} LiveMeans(t: Table, now: int, ttl: int, s: Session)
    ensures s in Live(t, now, ttl) <==> s in t && now - s.lastSeen < ttl
  {
    if t != [] {
      LiveMeans(t[1..], now, ttl, s);
      assert s in t <==> s == t[0] || s in t[1..];
    }
  }

  /** Who leaves for a new session: the one at its address, or from a full table one that was seen longest ago. */
  lemma RoomMeans(f: Shelf, addr: Address, max: nat, clock: int, c: Config)
    requires ShelfOk(f, clock, max, c) && max >= 1
    ensures Has(f.table, addr) ==> forall s :: s in RoomFor(f, addr, max).table <==> s in f.table && s.addr != addr
    ensures !Has(f.table, addr) && |f.table| >= max ==>
              exists gone :: gone in f.table && (forall s :: s in f.table ==> gone.lastSeen <= s.lastSeen)
                && forall s :: s in RoomFor(f, addr, max).table <==> s in f.table && s != gone
    ensures !Has(f.table, addr) && |f.table| < max ==> RoomFor(f, addr, max).table == f.table
  {
    hide Sound;
    var t := f.table;
    if Has(t, addr) {
      WithoutMeans(t, Find(t, addr));
      forall s | s in t && s.addr == addr ensures s == t[Find(t, addr)] {
        var i :| 0 <= i < |t| && t[i] == s;
        SameAddressSameSession(t, i, Find(t, addr));
      }
    } else if |t| >= max {
      WithoutMeans(t, 0);
      assert Without(t, 0) == t[1..];
      forall s | s in t ensures t[0].lastSeen <= s.lastSeen {
        var i :| 0 <= i < |t| && t[i] == s;
        assert NoLaterSeen(t, 0, i);
      }
    }
  }

  lemma WithoutMeans(t: Table, k: nat)
    requires OnePerAddress(t) && k < |t|
    ensures forall s :: s in Without(t, k) <==> s in t && s != t[k]
  {
    var w := Without(t, k);
    forall s | s in t && s != t[k] ensures s in w {
      var i :| 0 <= i < |t| && t[i] == s;
      assert w[if i < k then i else i - 1] == s;
    }
    forall s | s in w ensures s in t && s != t[k] {
      var i :| 0 <= i < |w| && w[i] == s;
      var j := if i < k then i else i + 1;
      assert s == t[j];
      SameAddressSameSession(t, j, k);
    }
  }

  // ------------------------------------------------------------- data on a live session

  /** `row` is the live active session at the source of the datagram, and no other session there has its keys. */
  predicate LiveRow(s: State, a: Arrival, row: Session, c: Config) {
    && row in s.active.table && row.addr == a.from && a.now - row.lastSeen < c.sessionTtl
    && forall p :: p in s.pending.table && p.addr == a.from ==> p.keys.clientToServer != row.keys.clientToServer
  }

  /** An allowed datagram sealed for `row` with a nonce that its log does not refuse, and the message in it. */
  predicate SealedForRow(a: Arrival, row: Session, nonce: Nonce, fields: map<string, Json>, c: Config) {
    && a.allowed
    && a.datagram == Data(Some((nonce, Sealed(row.keys.clientToServer, nonce, Decoded(Object(fields))))))
    && !Blocks(row.nonces.log, nonce, a.now, c.nonceTtl, Some(c.nonceMax))
  }

  /** A message for `row` under the station of the session. */
  predicate Carries(a: Arrival, row: Session, nonce: Nonce, fields: map<string, Json>, c: Config) {
    && SealedForRow(a, row, nonce, fields, c)
    && "source_id" in fields && fields["source_id"] == Text(row.station)
  }

  /** The session as it is after it has been used: seen now, with the nonce in its log. */
  predicate Renewed(t: Table, row: Session, nonce: Nonce, now: int) {
    exists after :: after in t && after.addr == row.addr && after.keys == row.keys && after.station == row.station
      && after.createdAt == row.createdAt && after.lastSeen == now
      && after.nonces.log == row.nonces.log + [Entry(nonce, now)]
  }

  /** The session as it was: not renewed, and with the same log. */
  predicate Idle(t: Table, row: Session) {
    exists after :: after in t && after.addr == row.addr && after.keys == row.keys && after.station == row.station
      && after.createdAt == row.createdAt && after.lastSeen == row.lastSeen && after.nonces.log == row.nonces.log
  }

  lemma RowIsSwept(s: State, a: Arrival, row: Session, c: Config)
    requires Inv(s, c) && s.clock <= a.now && LiveRow(s, a, row, c)
    ensures var t := Swept(s, a.now, c);
            && Inv(t, c) && Tidy(t, c) && t.clock == a.now
            && Has(t.active.table, a.from) && t.active.table[Find(t.active.table, a.from)] == row
            && (Has(t.pending.table, a.from) ==>
                  t.pending.table[Find(t.pending.table, a.from)].keys.clientToServer != row.keys.clientToServer)
  {
    hide Sound, Tidy, NoncesConserved, ReplaysOk, Sorted;
    SweptIsTidy(s, a.now, c);
    var t := Swept(s, a.now, c);
    LiveMeans(s.active.table, a.now, c.sessionTtl, row);
    assert t.active.table == Live(s.active.table, a.now, c.sessionTtl);
    assert t.pending.table == Live(s.pending.table, a.now, c.pendingTtl);
    var k :| 0 <= k < |t.active.table| && t.active.table[k] == row;
    FindIsUnique(t.active.table, a.from, k);
    if Has(t.pending.table, a.from) {
      LiveMeans(s.pending.table, a.now, c.pendingTtl, t.pending.table[Find(t.pending.table, a.from)]);
    }
  }

  lemma RowIsSound(s: State, addr: Address, c: Config)
    requires Inv(s, c) && Has(s.active.table, addr)
    ensures Retaining(s.active.table) && OnePerAddress(s.active.table)
    ensures var n := s.active.table[Find(s.active.table, addr)].nonces;
            Sound(n, c.nonceTtl, Some(c.nonceMax)) && n.clock <= s.clock && n.gone <= |n.log|
  {
  }

  lemma SeeingKeepsRow(s: State, addr: Address, nonce: Nonce, c: Config)
    requires Inv(s, c) && Has(s.active.table, addr)
    ensures var seen := SeeActive(s, addr, nonce, c);
            var row := s.active.table[Find(s.active.table, addr)];
            && Has(seen.active.table, addr)
            && var r := seen.active.table[Find(seen.active.table, addr)];
            r == row.(nonces := r.nonces) && r.nonces.log == row.nonces.log && seen.clock == s.clock
  {
    hide Sound, Cleaned;
    RowIsSound(s, addr, c);
    CleanedKeepsLog(s.active.table[Find(s.active.table, addr)].nonces, s.clock, c.nonceTtl);
    hide Inv;
    SameAddresses(s.active.table, SeeActive(s, addr, nonce, c).active.table);
    FindIsUnique(SeeActive(s, addr, nonce, c).active.table, addr, Find(s.active.table, addr));
  }

  lemma SameAddresses(t: Table, u: Table)
    requires OnePerAddress(t) && |u| == |t| && forall i :: 0 <= i < |t| ==> u[i].addr == t[i].addr
    ensures OnePerAddress(u)
  {
    forall i, j | 0 <= i < j < |u| ensures AddressesDiffer(u, i, j) {
      assert AddressesDiffer(t, i, j);
    }
  }

  lemma AcceptingLogs(s: State, addr: Address, nonce: Nonce, c: Config)
    requires Inv(s, c) && Has(s.active.table, addr)
    requires !Blocks(s.active.table[Find(s.active.table, addr)].nonces.log, nonce, s.clock, c.nonceTtl, Some(c.nonceMax))
    ensures var t := AcceptActive(s, addr, nonce, c).active.table;
            var row := s.active.table[Find(s.active.table, addr)];
            && Has(t, addr)
            && var r := t[Find(t, addr)];
            r == row.(nonces := r.nonces) && r.nonces.log == row.nonces.log + [Entry(nonce, s.clock)]
  {
    hide Sound, Offered, Blocks;
    RowIsSound(s, addr, c);
    OfferedRefinesLog(
      s.active.table[Find(s.active.table, addr)].nonces, nonce, s.clock, c.nonceTtl, Some(c.nonceMax));
    hide Inv;
    SameAddresses(s.active.table, AcceptActive(s, addr, nonce, c).active.table);
    FindIsUnique(AcceptActive(s, addr, nonce, c).active.table, addr, Find(s.active.table, addr));
  }

  lemma TouchedIsLast(s: State, addr: Address, now: int)
    requires Has(s.active.table, addr)
    ensures s.active.table[Find(s.active.table, addr)].(lastSeen := now) in Touch(s, addr, now).active.table
  {
    var t := Touch(s, addr, now).active.table;
    assert t[|t| - 1] in t;
  }

  lemma AcceptedIsRenewed(s: State, a: Arrival, row: Session, nonce: Nonce, c: Config)
    requires Inv(s, c) && Tidy(s, c) && s.clock == a.now
    requires Has(s.active.table, a.from) && s.active.table[Find(s.active.table, a.from)] == row
    requires !Blocks(row.nonces.log, nonce, a.now, c.nonceTtl, Some(c.nonceMax))
    ensures var seen := SeeActive(s, a.from, nonce, c);
            Renewed(Touch(AcceptActive(seen, a.from, nonce, c), a.from, a.now).active.table, row, nonce, a.now)
  {
    hide Inv, Tidy, Blocks, SeeActive, AcceptActive, Touch;
    var seen := SeeActive(s, a.from, nonce, c);
    ActiveDataIsTidy(s, a.from, nonce, c);
    SeeingKeepsRow(s, a.from, nonce, c);
    AcceptingLogs(seen, a.from, nonce, c);
    TouchedIsLast(AcceptActive(seen, a.from, nonce, c), a.from, a.now);
  }

  lemma SeenIsIdle(s: State, addr: Address, row: Session, nonce: Nonce, c: Config)
    requires Inv(s, c) && Has(s.active.table, addr) && s.active.table[Find(s.active.table, addr)] == row
    ensures Idle(SeeActive(s, addr, nonce, c).active.table, row)
  {
    hide Inv, SeeActive;
    SeeingKeepsRow(s, addr, nonce, c);
    var t := SeeActive(s, addr, nonce, c).active.table;
    assert t[Find(t, addr)] in t;
  }

  lemma CleanedKeepsLog(n: Store<Nonce>, now: int, ttl: int)
    requires n.gone <= |n.log|
    ensures Cleaned(n, now, ttl).log == n.log
  {
  }

  /** The turn on the active session, once the tables are clean. */
  lemma ActiveTurn(
    s: State, a: Arrival, row: Session, nonce: Nonce, fields: map<string, Json>, stations: set<string>, c: Config)
    requires Inv(s, c) && s.clock <= a.now && LiveRow(s, a, row, c) && SealedForRow(a, row, nonce, fields, c)
    ensures var message := Classify(Object(fields), row.station);
            var (t, r) := ServerStep(s, a, stations, c);
            && (message.Some? ==> r == Answer(row.keys, row.station, message.value, a))
            && (message.Some? ==> Renewed(t.active.table, row, nonce, a.now))
            && (message.None? ==> r == SILENT && Idle(t.active.table, row))
  {
    hide Inv, Tidy, Swept, Classify, Answer, Renewed, Idle, Blocks, SeeActive, AcceptActive, Touch, SeePending, LiveRow,
      OnConfirmation, IsConfirmation;
    RowIsSwept(s, a, row, c);
    var t := Swept(s, a.now, c);
    AcceptedIsRenewed(t, a, row, nonce, c);
    SeenIsIdle(t, a.from, row, nonce, c);
    if Has(t.pending.table, a.from) {
      SeePendingIsTidy(t, a.from, nonce, c);
      var seen := SeePending(t, a.from, c);
      AcceptedIsRenewed(seen, a, row, nonce, c);
      SeenIsIdle(seen, a.from, row, nonce, c);
    }
  }

  /** An NMEA line that arrives on a live session is delivered, and the session is seen now. */
  lemma LinesAreDelivered(
    s: State, a: Arrival, row: Session, nonce: Nonce, fields: map<string, Json>, line: string, stations: set<string>, c: Config)
    requires Inv(s, c) && s.clock <= a.now && LiveRow(s, a, row, c) && Carries(a, row, nonce, fields, c)
    requires "type" in fields && fields["type"] == Text("nmea")
    requires "payload" in fields && fields["payload"] == Text(line)
    ensures var (t, r) := ServerStep(s, a, stations, c);
            && r == Reaction(None, Some((row.station, line)), None, None)
            && Renewed(t.active.table, row, nonce, a.now)
  {
    hide Inv, ServerStep, Renewed, Blocks, LiveRow;
    ActiveTurn(s, a, row, nonce, fields, stations, c);
  }

  /** A numbered ping on a live session is answered by the pong of its number, under the session's own key. */
  lemma PingsAreAnswered(
    s: State, a: Arrival, row: Session, nonce: Nonce, fields: map<string, Json>, number: int, stations: set<string>, c: Config)
    requires Inv(s, c) && s.clock <= a.now && LiveRow(s, a, row, c) && Carries(a, row, nonce, fields, c)
    requires "type" in fields && fields["type"] == Text("ping")
    requires number > 0 && "seq" in fields && fields["seq"] == Integer(number)
    ensures var (t, r) := ServerStep(s, a, stations, c);
            var pong := Object(map["type" := Text("pong"), "seq" := Integer(number),
                                   "timestamp" := Integer(a.wall), "source_id" := Text(row.station)]);
            && r == Reaction(
                 Some(Data(Some((a.nonce, Sealed(row.keys.serverToClient, a.nonce, Decoded(pong)))))), None, None, None)
            && Renewed(t.active.table, row, nonce, a.now)
  {
    hide Inv, ServerStep, Renewed, Blocks, LiveRow;
    ActiveTurn(s, a, row, nonce, fields, stations, c);
  }

  /** Any other message, or one under another station, is refused in silence, and does not renew the session. */
  lemma OthersAreRefused(
    s: State, a: Arrival, row: Session, nonce: Nonce, fields: map<string, Json>, stations: set<string>, c: Config)
    requires Inv(s, c) && s.clock <= a.now && LiveRow(s, a, row, c) && SealedForRow(a, row, nonce, fields, c)
    requires
      || !("source_id" in fields && fields["source_id"] == Text(row.station))
      || (&& !("type" in fields && fields["type"] == Text("nmea") && "payload" in fields)
          && !("type" in fields && fields["type"] == Text("ping")
               && "seq" in fields && fields["seq"].Integer? && fields["seq"].number > 0))
    ensures var (t, r) := ServerStep(s, a, stations, c);
            r == Reaction(None, None, None, None) && Idle(t.active.table, row)
  {
    hide Inv, ServerStep, Renewed, Idle, Blocks, LiveRow;
    ActiveTurn(s, a, row, nonce, fields, stations, c);
  }

  /** A session that was used lives on until it has been idle for the time-to-live, whenever it was created. */
  lemma UseKeepsAlive(t: Table, row: Session, nonce: Nonce, now: int, later: int, ttl: int)
    requires Renewed(t, row, nonce, now) && later - now < ttl
    ensures exists after :: after in Live(t, later, ttl) && after.addr == row.addr && after.keys == row.keys
  {
    var after :| after in t && after.addr == row.addr && after.keys == row.keys && after.station == row.station
      && after.createdAt == row.createdAt && after.lastSeen == now
      && after.nonces.log == row.nonces.log + [Entry(nonce, now)];
    LiveMeans(t, later, ttl, after);
  }

  // --------------------------------------------------------- data for a pending session

  /** A ping numbered zero from the station, with an integer time. */
  predicate Confirms(j: Json, station: string) {
    && j.Object?
    && "type" in j.fields && j.fields["type"] == Text("ping")
    && "seq" in j.fields && j.fields["seq"] == Integer(0)
    && "timestamp" in j.fields && j.fields["timestamp"].Integer?
    && "source_id" in j.fields && j.fields["source_id"] == Text(station)
  }

  /** `row` is the live pending session at the source, and the datagram is sealed for it with a new nonce. */
  predicate SealedForPending(s: State, a: Arrival, row: Session, nonce: Nonce, plaintext: Plaintext, c: Config) {
    && row in s.pending.table && row.addr == a.from && a.now - row.lastSeen < c.pendingTtl && a.allowed
    && a.datagram == Data(Some((nonce, Sealed(row.keys.clientToServer, nonce, plaintext))))
    && !Blocks(row.nonces.log, nonce, a.now, c.nonceTtl, Some(c.nonceMax))
  }

  lemma PendingRowIsSwept(s: State, a: Arrival, row: Session, c: Config)
    requires Inv(s, c) && s.clock <= a.now
    requires row in s.pending.table && row.addr == a.from && a.now - row.lastSeen < c.pendingTtl
    ensures var t := Swept(s, a.now, c);
            && Inv(t, c) && Tidy(t, c) && t.clock == a.now
            && Has(t.pending.table, a.from) && t.pending.table[Find(t.pending.table, a.from)] == row
  {
    hide Sound, Tidy, NoncesConserved, ReplaysOk, Sorted;
    SweptIsTidy(s, a.now, c);
    var t := Swept(s, a.now, c);
    LiveMeans(s.pending.table, a.now, c.pendingTtl, row);
    assert t.pending.table == Live(s.pending.table, a.now, c.pendingTtl);
    var k :| 0 <= k < |t.pending.table| && t.pending.table[k] == row;
    FindIsUnique(t.pending.table, a.from, k);
  }

  lemma PendingRowIsSound(s: State, addr: Address, c: Config)
    requires Inv(s, c) && Has(s.pending.table, addr)
    ensures Retaining(s.pending.table) && OnePerAddress(s.pending.table)
    ensures var n := s.pending.table[Find(s.pending.table, addr)].nonces;
            Sound(n, c.nonceTtl, Some(c.nonceMax)) && n.clock <= s.clock && n.gone <= |n.log|
  {
  }

  lemma SeeingKeepsPending(s: State, addr: Address, c: Config)
    requires Inv(s, c) && Has(s.pending.table, addr)
    ensures var seen := SeePending(s, addr, c);
            var row := s.pending.table[Find(s.pending.table, addr)];
            && Has(seen.pending.table, addr)
            && var r := seen.pending.table[Find(seen.pending.table, addr)];
            r == row.(nonces := r.nonces) && r.nonces.log == row.nonces.log && seen.clock == s.clock
  {
    hide Sound, Cleaned;
    PendingRowIsSound(s, addr, c);
    CleanedKeepsLog(s.pending.table[Find(s.pending.table, addr)].nonces, s.clock, c.nonceTtl);
    hide Inv;
    SameAddresses(s.pending.table, SeePending(s, addr, c).pending.table);
    FindIsUnique(SeePending(s, addr, c).pending.table, addr, Find(s.pending.table, addr));
  }

  lemma AcceptingPendingLogs(s: State, addr: Address, nonce: Nonce, c: Config)
    requires Inv(s, c) && Has(s.pending.table, addr)
    requires !Blocks(s.pending.table[Find(s.pending.table, addr)].nonces.log, nonce, s.clock, c.nonceTtl, Some(c.nonceMax))
    ensures var t := AcceptPending(s, addr, nonce, c).pending.table;
            var row := s.pending.table[Find(s.pending.table, addr)];
            && Has(t, addr)
            && var r := t[Find(t, addr)];
            r == row.(nonces := r.nonces) && r.nonces.log == row.nonces.log + [Entry(nonce, s.clock)]
  {
    hide Sound, Offered, Blocks;
    PendingRowIsSound(s, addr, c);
    OfferedRefinesLog(
      s.pending.table[Find(s.pending.table, addr)].nonces, nonce, s.clock, c.nonceTtl, Some(c.nonceMax));
    hide Inv;
    SameAddresses(s.pending.table, AcceptPending(s, addr, nonce, c).pending.table);
    FindIsUnique(AcceptPending(s, addr, nonce, c).pending.table, addr, Find(s.pending.table, addr));
  }

  /** The session a pending one has become: active from now on, with its keys, its nonces and the one just used. */
  predicate BecameActive(t: Table, row: Session, nonce: Nonce, now: int) {
    exists after :: after in t && after.addr == row.addr && after.keys == row.keys && after.station == row.station
      && after.createdAt == now && after.lastSeen == now
      && after.nonces.log == row.nonces.log + [Entry(nonce, now)]
  }

  lemma PromotedIsEstablished(s: State, a: Arrival, row: Session, nonce: Nonce, c: Config)
    requires Inv(s, c) && Tidy(s, c) && s.clock == a.now
    requires Has(s.pending.table, a.from) && s.pending.table[Find(s.pending.table, a.from)] == row
    requires !Blocks(row.nonces.log, nonce, a.now, c.nonceTtl, Some(c.nonceMax))
    ensures var t := Touch(Promote(AcceptPending(s, a.from, nonce, c), a.from, a.now, c), a.from, a.now);
            BecameActive(t.active.table, row, nonce, a.now) && !Has(t.pending.table, a.from)
  {
    hide Inv, Tidy, Blocks, AcceptPending, Promote;
    AcceptPendingIsTidy(s, a.from, nonce, c);
    AcceptingPendingLogs(s, a.from, nonce, c);
    var accepted := AcceptPending(s, a.from, nonce, c);
    PromoteIsTidy(accepted, a.from, c);
    var promoted := Promote(accepted, a.from, a.now, c);
    assert !Has(promoted.pending.table, a.from) by { GoneFromPending(accepted, a.from, c); }
    hide Without;
    TouchedIsLast(promoted, a.from, a.now);
    assert Touch(promoted, a.from, a.now).pending == promoted.pending;
  }

  lemma GoneFromPending(s: State, addr: Address, c: Config)
    requires Inv(s, c) && Has(s.pending.table, addr)
    ensures !Has(Without(s.pending.table, Find(s.pending.table, addr)), addr)
  {
    hide Sound;
    OrderlyWithout(s.pending.table, Find(s.pending.table, addr), s.clock, c.nonceTtl, c.nonceMax);
  }

  /**
   Data that opens under the keys of a pending session: a confirmation promotes
   it and is answered by pong zero under its own key; anything else does nothing.
   */
  lemma ConfirmationsPromote(
    s: State, a: Arrival, row: Session, nonce: Nonce, plaintext: Plaintext, stations: set<string>, c: Config)
    requires Inv(s, c) && s.clock <= a.now && SealedForPending(s, a, row, nonce, plaintext, c)
    ensures var (t, r) := ServerStep(s, a, stations, c);
            if plaintext.Decoded? && Confirms(plaintext.json, row.station) then
              var pong := Object(map["type" := Text("pong"), "seq" := Integer(0),
                                     "timestamp" := Integer(a.wall), "source_id" := Text(row.station)]);
              && r == Reaction(
                   Some(Data(Some((a.nonce, Sealed(row.keys.serverToClient, a.nonce, Decoded(pong)))))),
                   None, None, Some(row.keys))
              && BecameActive(t.active.table, row, nonce, a.now) && !Has(t.pending.table, a.from)
            else r == Reaction(None, None, None, None)
  {
    hide Inv, Tidy, Swept, Blocks, BecameActive, AcceptPending, SeePending, Promote, Touch, OnActiveData;
    PendingRowIsSwept(s, a, row, c);
    var t := Swept(s, a.now, c);
    SeePendingIsTidy(t, a.from, nonce, c);
    SeeingKeepsPending(t, a.from, c);
    var seen := SeePending(t, a.from, c);
    var r := seen.pending.table[Find(seen.pending.table, a.from)];
    PromotedIsEstablished(seen, a, r, nonce, c);
    SameEstablished(Touch(Promote(AcceptPending(seen, a.from, nonce, c), a.from, a.now, c), a.from, a.now).active.table,
                    r, row, nonce, a.now);
    assert plaintext.Decoded? ==> (IsConfirmation(plaintext.json, row.station) <==> Confirms(plaintext.json, row.station));
    hide IsConfirmation, Confirms;
  }

  lemma SameEstablished(t: Table, r: Session, row: Session, nonce: Nonce, now: int)
    requires BecameActive(t, r, nonce, now) && r.addr == row.addr && r.keys == row.keys && r.station == row.station
    requires r.nonces.log == row.nonces.log
    ensures BecameActive(t, row, nonce, now)
  {
  }

  lemma SweptMeans(s: State, now: int, c: Config)
    ensures forall row :: row in Swept(s, now, c).active.table <==> row in s.active.table && now - row.lastSeen < c.sessionTtl
    ensures forall p :: p in Swept(s, now, c).pending.table <==> p in s.pending.table && now - p.lastSeen < c.pendingTtl
  {
    hide Live;
    forall row ensures row in Live(s.active.table, now, c.sessionTtl)
                       <==> row in s.active.table && now - row.lastSeen < c.sessionTtl {
      LiveMeans(s.active.table, now, c.sessionTtl, row);
    }
    forall p ensures p in Live(s.pending.table, now, c.pendingTtl)
                     <==> p in s.pending.table && now - p.lastSeen < c.pendingTtl {
      LiveMeans(s.pending.table, now, c.pendingTtl, p);
    }
  }

  /** The hint that there is no session: exactly for allowed data from an address without a live one. */
  lemma NoSessionMeans(s: State, a: Arrival, stations: set<string>, c: Config)
    requires a.datagram.Data?
    ensures ServerStep(s, a, stations, c).1.reply == Some(NoSession) <==>
              && a.allowed
              && (forall row :: row in s.active.table && row.addr == a.from ==> a.now - row.lastSeen >= c.sessionTtl)
              && (forall p :: p in s.pending.table && p.addr == a.from ==> a.now - p.lastSeen >= c.pendingTtl)
  {
    hide Swept, Promote, AcceptPending, SeeActive, AcceptActive, SeePending, Touch, Understood, Replayed, IsConfirmation;
    SweptMeans(s, a.now, c);
  }

  // ---------------------------------------------------------------------------- hellos

  /**
   A hello is answered, by a pending session and a ServerHello, exactly if its
   source is allowed, its time is within thirty seconds, its station is known and
   has signed these very fields, its key is usable, and the replay log does not
   refuse it.
   */
  lemma HellosAreAnswered(s: State, a: Arrival, h: Hello, stations: set<string>, c: Config)
    requires Inv(s, c) && s.clock <= a.now && a.datagram == ClientHello(Some(h)) && a.allowed
    ensures var r := ServerStep(s, a, stations, c).1;
            var digest := ClientAuth(h.station, h.timestamp, h.random, h.ephemeral);
            if -30 <= a.wall - h.timestamp <= 30 && h.station in stations && h.ephemeral.Share?
               && h.signature == Signature(Station(h.station), digest)
               && !Blocks(s.replays.log, (digest, h.signature), a.now, c.replayTtl, Some(c.replayMax))
            then
              var share := Share(a.ephemeral);
              var reply := Reply(a.random, share, Signature(Server, ServerAuth(h, a.random, share)));
              r == Reaction(Some(ServerHello(Some(reply))), None, Some(Transcript(h, reply)), None)
            else r == Reaction(None, None, None, None)
  {
    hide Inv, Tidy, Swept, Blocks, InstallPending, AcceptReplay;
    SweptIsTidy(s, a.now, c);
  }
}
