/**
 How one turn of the server loop moves session identities: rows leave the tables
 or keep their address, station and keys; one pending row appears per accepted
 hello; one row moves from pending to active per confirmation sealed under its
 own keys.
 */
module ServerMoves {
  import opened Common
  import opened AcceptanceLog
  import opened Wire
  import opened SessionTable
  import opened SecureModel
  import opened ServerModel

  datatype Identity = Identity(addr: Address, station: string, keys: Keys)

  function Id(s: Session): Identity {
    Identity(s.addr, s.station, s.keys)
  }

  /** Every row of `t` has an identity of `u`. */
  predicate Within(t: Table, u: set<Identity>) {
    forall i :: 0 <= i < |t| ==> Id(t[i]) in u
  }

  lemma {:induction false} LiveWithin(t: Table, now: int, ttl: int, u: set<Identity>)
    requires Within(t, u)
    ensures Within(Live(t, now, ttl), u)
  {
    if t != [] { LiveWithin(t[1..], now, ttl, u); }
  }

  lemma SweptWithin(s: State, now: int, c: Config, a: set<Identity>, p: set<Identity>)
    requires Within(s.active.table, a) && Within(s.pending.table, p)
    ensures Within(Swept(s, now, c).active.table, a) && Within(Swept(s, now, c).pending.table, p)
  {
    LiveWithin(s.active.table, now, c.sessionTtl, a);
    LiveWithin(s.pending.table, now, c.pendingTtl, p);
  }

  /** A hello that is answered: acceptable, and its pending session is the only new identity. */
  predicate Installs(a: Arrival, r: Reaction, stations: set<string>) {
    && a.datagram.ClientHello? && a.datagram.hello.Some?
    && Acceptable(a.datagram.hello.value, a.wall, stations)
    && r == Reaction(
         Some(ServerHello(Some(ServerReply(a.datagram.hello.value, a.random, a.ephemeral)))), None,
         Some(Transcript(a.datagram.hello.value, ServerReply(a.datagram.hello.value, a.random, a.ephemeral))), None)
  }

  /** A confirmation: sealed under the keys of the session it promotes, and answered by pong zero. */
  predicate Promotes(a: Arrival, r: Reaction, id: Identity) {
    && id.addr == a.from && r.promoted == Some(id.keys) && r.installed.None? && r.delivered.None?
    && r.reply == Some(SealedReply(id.keys, a.nonce, Pong(id.station, CONFIRMATION_SEQUENCE, a.wall)))
    && a.datagram.Data? && a.datagram.content.Some?
    && var (nonce, ciphertext) := a.datagram.content.value;
    && ciphertext.Sealed? && ciphertext.key == id.keys.clientToServer && ciphertext.nonce == nonce
    && ciphertext.plaintext.Decoded? && IsConfirmation(ciphertext.plaintext.json, id.station)
  }

  /** Data on an active session: sealed under its keys; a ping is answered by the pong of its number. */
  predicate Serves(a: Arrival, r: Reaction, id: Identity) {
    && id.addr == a.from && r.promoted.None? && r.installed.None?
    && a.datagram.Data? && a.datagram.content.Some?
    && var (nonce, ciphertext) := a.datagram.content.value;
    && ciphertext.Sealed? && ciphertext.key == id.keys.clientToServer && ciphertext.nonce == nonce
    && ciphertext.plaintext.Decoded?
    && var message := Classify(ciphertext.plaintext.json, id.station);
    && message.Some? && r == Answer(id.keys, id.station, message.value, a)
  }

  /** No key is used in the reply. */
  predicate Quiet(r: Reaction) {
    r.installed.None? && r.promoted.None? && (r.reply == None || r.reply == Some(NoSession)) && r.delivered.None?
  }

  datatype Move = Stays | Enters | Promoted(id: Identity) | Served(id: Identity)

  /** The identities after move `m` from tables within `active` and `pending`. */
  predicate Lands(m: Move, a: Arrival, r: Reaction, active: set<Identity>, pending: set<Identity>, after: State)
    requires m.Enters? ==> r.installed.Some?
  {
    match m
    case Enters =>
      && Within(after.active.table, active)
      && Within(after.pending.table, pending + {Identity(a.from, r.installed.value.hello.station, SessionKeys(r.installed.value))})
    case Promoted(id) =>
      Within(after.active.table, active + {id}) && Within(after.pending.table, pending) && !Has(after.pending.table, id.addr)
    case _ => Within(after.active.table, active) && Within(after.pending.table, pending)
  }

  /** Move `m` is what datagram and reaction show. */
  predicate Shows(m: Move, a: Arrival, r: Reaction, active: set<Identity>, pending: set<Identity>, stations: set<string>) {
    match m
    case Stays => Quiet(r)
    case Enters => Installs(a, r, stations)
    case Promoted(id) => id in pending && Promotes(a, r, id)
    case Served(id) => id in active && Serves(a, r, id)
  }

  lemma RoomWithin(f: Shelf, addr: Address, max: nat, u: set<Identity>)
    requires Within(f.table, u)
    ensures Within(RoomFor(f, addr, max).table, u)
  {
  }

  lemma TouchWithin(s: State, addr: Address, now: int, u: set<Identity>)
    requires Within(s.active.table, u)
    ensures Within(Touch(s, addr, now).active.table, u)
  {
    if Has(s.active.table, addr) {
      assert Id(s.active.table[Find(s.active.table, addr)]) in u;
    }
  }

  lemma NoncesWithin(s: State, addr: Address, nonce: Nonce, c: Config, active: set<Identity>)
    requires Within(s.active.table, active)
    ensures Within(SeeActive(s, addr, nonce, c).active.table, active)
    ensures Within(AcceptActive(s, addr, nonce, c).active.table, active)
    ensures SeeActive(s, addr, nonce, c).pending == AcceptActive(s, addr, nonce, c).pending == s.pending
  {
  }

  /** What a message understood on an active session does to the identities: nothing. */
  lemma AcceptedWithin(s: State, addr: Address, nonce: Nonce, now: int, c: Config, active: set<Identity>)
    requires Within(s.active.table, active)
    ensures var t := Touch(AcceptActive(SeeActive(s, addr, nonce, c), addr, nonce, c), addr, now);
            Within(t.active.table, active) && t.pending == s.pending
  {
    NoncesWithin(s, addr, nonce, c, active);
    var seen := SeeActive(s, addr, nonce, c);
    NoncesWithin(seen, addr, nonce, c, active);
    TouchWithin(AcceptActive(seen, addr, nonce, c), addr, now, active);
  }

  lemma ConfirmationMoves(
    s: State, a: Arrival, nonce: Nonce, c: Config, active: set<Identity>, pending: set<Identity>)
    requires Inv(s, c) && Tidy(s, c) && s.clock == a.now && Has(s.pending.table, a.from)
    requires Within(s.active.table, active) && Within(s.pending.table, pending)
    ensures var (t, r) := OnConfirmation(s, a, nonce, c);
            Lands(Promoted(Id(s.pending.table[Find(s.pending.table, a.from)])), a, r, active, pending, t)
  {
    hide Sound, NoncesConserved, ReplaysOk, Tidy;
    var id := Id(s.pending.table[Find(s.pending.table, a.from)]);
    AcceptPendingIsTidy(s, a.from, nonce, c);
    var accepted := AcceptPending(s, a.from, nonce, c);
    assert Within(accepted.pending.table, pending);
    PromoteIsTidy(accepted, a.from, c);
    RoomWithin(accepted.active, a.from, c.maxSessions, active);
    OrderlyWithout(accepted.pending.table, Find(accepted.pending.table, a.from), a.now, c.nonceTtl, c.nonceMax);
    TouchWithin(Promote(accepted, a.from, a.now, c), a.from, a.now, active + {id});
  }

  lemma ActiveDataMoves(
    s: State, a: Arrival, nonce: Nonce, ciphertext: Ciphertext, c: Config,
    active: set<Identity>, pending: set<Identity>, stations: set<string>) returns (m: Move)
    requires a.datagram == Data(Some((nonce, ciphertext)))
    requires Within(s.active.table, active) && Within(s.pending.table, pending)
    ensures var (t, r) := OnActiveData(s, a, nonce, ciphertext, c);
            !m.Enters? && Shows(m, a, r, active, pending, stations) && Lands(m, a, r, active, pending, t)
  {
    m := Stays;
    if !Has(s.active.table, a.from) { return; }
    var session := s.active.table[Find(s.active.table, a.from)];
    NoncesWithin(s, a.from, nonce, c, active);
    AcceptedWithin(s, a.from, nonce, a.now, c, active);
    if Replayed(s.active.table, a.from, nonce, a.now, c) { return; }
    if Understood(session.keys, session.station, nonce, ciphertext).Some? {
      m := Served(Id(session));
    }
  }

  lemma SeenKeepsIdentity(s: State, addr: Address, nonce: Nonce, c: Config)
    requires Inv(s, c) && Tidy(s, c) && Has(s.pending.table, addr)
    ensures var seen := SeePending(s, addr, c);
            && Has(seen.pending.table, addr)
            && Id(seen.pending.table[Find(seen.pending.table, addr)]) == Id(s.pending.table[Find(s.pending.table, addr)])
  {
    SeePendingIsTidy(s, addr, nonce, c);
    hide Inv, Tidy;
  }

  lemma DataMoves(
    s: State, a: Arrival, content: Option<(Nonce, Ciphertext)>, c: Config,
    active: set<Identity>, pending: set<Identity>, stations: set<string>) returns (m: Move)
    requires Inv(s, c) && Tidy(s, c) && s.clock == a.now && a.datagram == Data(content)
    requires Within(s.active.table, active) && Within(s.pending.table, pending)
    ensures var (t, r) := OnData(s, a, content, c);
            !m.Enters? && Shows(m, a, r, active, pending, stations) && Lands(m, a, r, active, pending, t)
  {
    hide Inv, Tidy, OnActiveData, Replayed, Promote, AcceptPending, Touch;
    m := Stays;
    if content.None? { return; }
    var (nonce, ciphertext) := content.value;
    if !Has(s.pending.table, a.from) {
      if !Has(s.active.table, a.from) { return; }
      m := ActiveDataMoves(s, a, nonce, ciphertext, c, active, pending, stations);
      return;
    }
    var p := s.pending.table[Find(s.pending.table, a.from)];
    var seen := SeePending(s, a.from, c);
    SeePendingIsTidy(s, a.from, nonce, c);
    var plain := Open(p.keys.clientToServer, nonce, ciphertext);
    if Replayed(s.pending.table, a.from, nonce, a.now, c) || plain.None? {
      m := ActiveDataMoves(seen, a, nonce, ciphertext, c, active, pending, stations);
    } else if plain.value.Decoded? && IsConfirmation(plain.value.json, p.station) {
      ConfirmationMoves(seen, a, nonce, c, active, pending);
      m := Promoted(Id(p));
    }
  }

  lemma HelloMoves(
    s: State, a: Arrival, h: Hello, stations: set<string>, c: Config, active: set<Identity>, pending: set<Identity>)
    returns (m: Move)
    requires Inv(s, c) && s.clock <= a.now && a.datagram == ClientHello(Some(h))
    requires Within(s.active.table, active) && Within(s.pending.table, pending)
    ensures var (t, r) := OnHello(s, a, h, stations, c);
            Shows(m, a, r, active, pending, stations) && Lands(m, a, r, active, pending, t)
  {
    m := if OnHello(s, a, h, stations, c).1.installed.Some? then Enters else Stays;
    var t := AcceptReplay(s, (AuthDigest(h), h.signature), a.now, c);
    LiveWithin(t.pending.table, a.now, c.pendingTtl, pending);
    RoomWithin(CleanPending(t, a.now, c).pending, a.from, c.maxPending, pending);
  }

  /** Every turn makes one of the four moves. */
  lemma ServerStepMoves(
    s: State, a: Arrival, stations: set<string>, c: Config, active: set<Identity>, pending: set<Identity>)
    returns (m: Move)
    requires Inv(s, c) && s.clock <= a.now
    requires Within(s.active.table, active) && Within(s.pending.table, pending)
    ensures var (t, r) := ServerStep(s, a, stations, c);
            Shows(m, a, r, active, pending, stations) && Lands(m, a, r, active, pending, t)
  {
    m := Stays;
    if !a.allowed { return; }
    SweptIsTidy(s, a.now, c);
    SweptWithin(s, a.now, c, active, pending);
    match a.datagram
    case Data(content) => m := DataMoves(Swept(s, a.now, c), a, content, c, active, pending, stations);
    case ClientHello(Some(h)) => m := HelloMoves(Swept(s, a.now, c), a, h, stations, c, active, pending);
    case _ =>
  }
}
