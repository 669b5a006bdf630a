/**
 What `_secure_server_loop` (aismixer_secure.py) does with one datagram, on the
 values of SecureModel.dfy: which checks are made in which order, what changes,
 what is answered.
 */
module ServerModel {
  import opened Common
  import opened AcceptanceLog
  import opened Wire
  import opened SessionTable
  import opened SecureModel

  /** One received datagram with the readings and random values used to handle it. */
  datatype Arrival = Arrival(
    from: Address, datagram: Datagram, allowed: bool, now: int, wall: int,
    random: nat, ephemeral: nat, nonce: Nonce)

  /** What a datagram caused besides the change of state. */
  datatype Reaction = Reaction(
    reply: Option<Datagram>, delivered: Option<(string, string)>, installed: Option<Transcript>, promoted: Option<Keys>)

  const SILENT := Reaction(None, None, None, None)

  const HANDSHAKE_WINDOW := 30

  function Distance(a: int, b: int): int {
    if a < b then b - a else a - b
  }

  function AuthDigest(h: Hello): Digest {
    ClientAuth(h.station, h.timestamp, h.random, h.ephemeral)
  }

  /** A hello that may start a handshake: in the clock window, from a known station, signed by it, with a usable key. */
  predicate Acceptable(h: Hello, wall: int, stations: set<string>) {
    && Distance(wall, h.timestamp) <= HANDSHAKE_WINDOW
    && h.station in stations
    && h.signature == Signature(Station(h.station), AuthDigest(h))
    && h.ephemeral.Share?
  }

  function ServerReply(h: Hello, random: nat, ephemeral: nat): Reply {
    Reply(random, Share(ephemeral), Signature(Server, ServerAuth(h, random, Share(ephemeral))))
  }

  function SessionKeys(t: Transcript): Keys {
    Keys(Key(t, ClientToServer), Key(t, ServerToClient))
  }

  /** `_is_session_confirmation_ping`. */
  predicate IsConfirmation(j: Json, station: string) {
    && j.Object?
    && j.Get("type") == Text("ping") && j.Get("seq") == Integer(CONFIRMATION_SEQUENCE)
    && j.Get("timestamp").Integer? && j.Get("source_id") == Text(station)
  }

  datatype Message = NumberedPing(number: int) | Nmea(payload: Json)

  /** The message kinds an active session accepts. */
  function Classify(j: Json, station: string): Option<Message> {
    if !j.Object? || j.Get("source_id") != Text(station) then None
    else if j.Get("type") == Text("ping") then
      if j.Get("seq").Integer? && j.Get("seq").number > CONFIRMATION_SEQUENCE
      then Some(NumberedPing(j.Get("seq").number)) else None
    else if j.Get("type") == Text("nmea") && "payload" in j.fields then Some(Nmea(j.Get("payload")))
    else None
  }

  /** Decryption, decoding and validation of a message on an active session; `None` is an error or a refusal. */
  function Understood(keys: Keys, station: string, nonce: Nonce, ciphertext: Ciphertext): Option<Message> {
    match Open(keys.clientToServer, nonce, ciphertext)
    case Some(Decoded(json)) => Classify(json, station)
    case _ => None
  }

  function SealedReply(keys: Keys, nonce: Nonce, message: Json): Datagram {
    Data(Some((nonce, Sealed(keys.serverToClient, nonce, Decoded(message)))))
  }

  function Answer(keys: Keys, station: string, message: Message, a: Arrival): Reaction {
    match message
    case NumberedPing(number) => SILENT.(reply := Some(SealedReply(keys, a.nonce, Pong(station, number, a.wall))))
    case Nmea(payload) => SILENT.(delivered := if payload.Text? then Some((station, payload.text)) else None)
  }

  function Swept(s: State, now: int, c: Config): State {
    CleanPending(CleanActive(s, now, c), now, c)
  }

  function OnHello(s: State, a: Arrival, h: Hello, stations: set<string>, c: Config): (State, Reaction) {
    if !Acceptable(h, a.wall, stations) then (s, SILENT) else
    var key := (AuthDigest(h), h.signature);
    var t := AcceptReplay(s, key, a.now, c);
    if Blocks(s.replays.log, key, a.now, c.replayTtl, Some(c.replayMax)) then (t, SILENT) else
    var transcript := Transcript(h, ServerReply(h, a.random, a.ephemeral));
    (InstallPending(t, a.from, h.station, SessionKeys(transcript), a.now, c),
     Reaction(Some(ServerHello(Some(transcript.reply))), None, Some(transcript), None))
  }

  /** What a decrypted confirmation does: the nonce is used, the session promoted and touched, a pong sent. */
  function OnConfirmation(s: State, a: Arrival, nonce: Nonce, c: Config): (State, Reaction) {
    if !Has(s.pending.table, a.from) then (s, SILENT) else
    var p := s.pending.table[Find(s.pending.table, a.from)];
    var promoted := Promote(AcceptPending(s, a.from, nonce, c), a.from, a.now, c);
    (Touch(promoted, a.from, a.now),
     Reaction(Some(SealedReply(p.keys, a.nonce, Pong(p.station, CONFIRMATION_SEQUENCE, a.wall))), None, None, Some(p.keys)))
  }

  /** Data on an active session. */
  function OnActiveData(s: State, a: Arrival, nonce: Nonce, ciphertext: Ciphertext, c: Config): (State, Reaction) {
    if !Has(s.active.table, a.from) then (s, SILENT) else
    var session := s.active.table[Find(s.active.table, a.from)];
    var seen := SeeActive(s, a.from, nonce, c);
    if Replayed(s.active.table, a.from, nonce, a.now, c) then (seen, SILENT) else
    var message := Understood(session.keys, session.station, nonce, ciphertext);
    if message.None? then (seen, SILENT) else
    (Touch(AcceptActive(seen, a.from, nonce, c), a.from, a.now), Answer(session.keys, session.station, message.value, a))
  }

  /** Data: first as the confirmation of a pending session, then on the active one. */
  function OnData(s: State, a: Arrival, content: Option<(Nonce, Ciphertext)>, c: Config): (State, Reaction) {
    if !Has(s.pending.table, a.from) && !Has(s.active.table, a.from) then (s, SILENT.(reply := Some(NoSession)))
    else if content.None? then (s, SILENT)
    else
      var (nonce, ciphertext) := content.value;
      if !Has(s.pending.table, a.from) then OnActiveData(s, a, nonce, ciphertext, c) else
      var p := s.pending.table[Find(s.pending.table, a.from)];
      var seen := SeePending(s, a.from, c);
      var plain := Open(p.keys.clientToServer, nonce, ciphertext);
      if Replayed(s.pending.table, a.from, nonce, a.now, c) || plain.None?
      then OnActiveData(seen, a, nonce, ciphertext, c)
      else if plain.value.Undecodable? || !IsConfirmation(plain.value.json, p.station) then (seen, SILENT)
      else OnConfirmation(seen, a, nonce, c)
  }

  /** One turn of the loop. */
  function ServerStep(s: State, a: Arrival, stations: set<string>, c: Config): (State, Reaction) {
    if !a.allowed then (s, SILENT) else
    var swept := Swept(s, a.now, c);
    match a.datagram
    case ClientHello(Some(h)) => OnHello(swept, a, h, stations, c)
    case Data(content) => OnData(swept, a, content, c)
    case _ => (swept, SILENT)
  }

  // ------------------------------------------- nothing is left to expire in one turn

  predicate AllLive(t: Table, now: int, ttl: int) {
    forall i :: 0 <= i < |t| ==> !Expired(t[i], now, ttl)
  }

  lemma {:induction false} NothingExpires(t: Table, now: int, ttl: int)
    requires AllLive(t, now, ttl)
    ensures Live(t, now, ttl) == t
  {
    if t != [] { NothingExpires(t[1..], now, ttl); }
  }

  /** Both tables are free of expired sessions at the current clock. */
  predicate Tidy(s: State, c: Config) {
    AllLive(s.active.table, s.clock, c.sessionTtl) && AllLive(s.pending.table, s.clock, c.pendingTtl)
  }

  /** Cleaning a second time in the same turn changes nothing. */
  lemma CleaningIsIdle(s: State, c: Config)
    requires Tidy(s, c)
    ensures CleanActive(s, s.clock, c) == s && CleanPending(s, s.clock, c) == s
  {
    NothingExpires(s.active.table, s.clock, c.sessionTtl);
    NothingExpires(s.pending.table, s.clock, c.pendingTtl);
  }

  lemma SweptIsTidy(s: State, now: int, c: Config)
    requires Inv(s, c) && s.clock <= now
    ensures Inv(Swept(s, now, c), c) && Tidy(Swept(s, now, c), c) && Swept(s, now, c).clock == now
    ensures Swept(s, now, c).replays == s.replays
  {
    CleanActiveInv(s, now, c);
    var t := CleanActive(s, now, c);
    CleanPendingInv(t, now, c);
    ExpireShelfOk(s.active, s.clock, now, c.sessionTtl, c.maxSessions, c);
    ExpireShelfOk(t.pending, now, now, c.pendingTtl, c.maxPending, c);
  }

  lemma SeePendingIsTidy(s: State, addr: Address, nonce: Nonce, c: Config)
    requires Inv(s, c) && Tidy(s, c) && Has(s.pending.table, addr)
    ensures Inv(SeePending(s, addr, c), c) && Tidy(SeePending(s, addr, c), c)
    ensures SeePending(s, addr, c).clock == s.clock && SeePending(s, addr, c).active == s.active
    ensures Has(SeePending(s, addr, c).pending.table, addr)
    ensures Find(SeePending(s, addr, c).pending.table, addr) == Find(s.pending.table, addr)
    ensures Replayed(SeePending(s, addr, c).pending.table, addr, nonce, s.clock, c)
            <==> Replayed(s.pending.table, addr, nonce, s.clock, c)
  {
    PendingNonceInv(s, addr, nonce, c);
    FindIsUnique(SeePending(s, addr, c).pending.table, addr, Find(s.pending.table, addr));
  }

  lemma AcceptPendingIsTidy(s: State, addr: Address, nonce: Nonce, c: Config)
    requires Inv(s, c) && Tidy(s, c) && Has(s.pending.table, addr)
    ensures Inv(AcceptPending(s, addr, nonce, c), c) && Tidy(AcceptPending(s, addr, nonce, c), c)
    ensures AcceptPending(s, addr, nonce, c).clock == s.clock && AcceptPending(s, addr, nonce, c).active == s.active
    ensures Has(AcceptPending(s, addr, nonce, c).pending.table, addr)
    ensures Find(AcceptPending(s, addr, nonce, c).pending.table, addr) == Find(s.pending.table, addr)
  {
    PendingNonceInv(s, addr, nonce, c);
    FindIsUnique(AcceptPending(s, addr, nonce, c).pending.table, addr, Find(s.pending.table, addr));
  }

  lemma ActiveDataIsTidy(s: State, addr: Address, nonce: Nonce, c: Config)
    requires Inv(s, c) && Tidy(s, c) && Has(s.active.table, addr)
    ensures Inv(SeeActive(s, addr, nonce, c), c) && Tidy(SeeActive(s, addr, nonce, c), c)
    ensures Inv(AcceptActive(s, addr, nonce, c), c) && Tidy(AcceptActive(s, addr, nonce, c), c)
    ensures SeeActive(s, addr, nonce, c).clock == s.clock && AcceptActive(s, addr, nonce, c).clock == s.clock
    ensures Has(SeeActive(s, addr, nonce, c).active.table, addr) && Has(AcceptActive(s, addr, nonce, c).active.table, addr)
    ensures Find(SeeActive(s, addr, nonce, c).active.table, addr) == Find(s.active.table, addr)
    ensures Find(AcceptActive(s, addr, nonce, c).active.table, addr) == Find(s.active.table, addr)
    ensures Replayed(SeeActive(s, addr, nonce, c).active.table, addr, nonce, s.clock, c)
            <==> Replayed(s.active.table, addr, nonce, s.clock, c)
  {
    ActiveNonceInv(s, addr, nonce, c);
    FindIsUnique(SeeActive(s, addr, nonce, c).active.table, addr, Find(s.active.table, addr));
    FindIsUnique(AcceptActive(s, addr, nonce, c).active.table, addr, Find(s.active.table, addr));
  }

  /** Promotion leaves the new session last, under the keys and nonces of the pending one. */
  lemma PromoteIsTidy(s: State, addr: Address, c: Config)
    requires Inv(s, c) && Tidy(s, c) && Has(s.pending.table, addr)
    ensures var t := Promote(s, addr, s.clock, c);
            var p := s.pending.table[Find(s.pending.table, addr)];
            && Inv(t, c) && Tidy(t, c) && t.clock == s.clock
            && t.pending.table == Without(s.pending.table, Find(s.pending.table, addr))
            && Has(t.active.table, addr) && t.active.table[Find(t.active.table, addr)] == p.(createdAt := s.clock, lastSeen := s.clock)
            && t.active.table == RoomFor(s.active, addr, c.maxSessions).table + [p.(createdAt := s.clock, lastSeen := s.clock)]
  {
    hide Sound, NoncesConserved, ReplaysOk;
    CleaningIsIdle(s, c);
    PromoteInv(s, addr, s.clock, c);
    var t := Promote(s, addr, s.clock, c);
    FindIsUnique(t.active.table, addr, |t.active.table| - 1);
  }

  // ------------------------------------------------------- every turn keeps the invariant

  lemma TouchIsTidy(s: State, addr: Address, c: Config)
    requires Inv(s, c) && Tidy(s, c) && Has(s.active.table, addr)
    ensures Inv(Touch(s, addr, s.clock), c) && Tidy(Touch(s, addr, s.clock), c)
  {
    TouchInv(s, addr, c);
  }

  lemma OnHelloInv(s: State, a: Arrival, h: Hello, stations: set<string>, c: Config)
    requires Inv(s, c) && s.clock <= a.now
    ensures Inv(OnHello(s, a, h, stations, c).0, c)
    ensures OnHello(s, a, h, stations, c).0.clock in {s.clock, a.now}
  {
    var key := (AuthDigest(h), h.signature);
    AcceptReplayInv(s, key, a.now, c);
    var transcript := Transcript(h, ServerReply(h, a.random, a.ephemeral));
    InstallPendingInv(AcceptReplay(s, key, a.now, c), a.from, h.station, SessionKeys(transcript), a.now, c);
  }

  lemma OnConfirmationInv(s: State, a: Arrival, nonce: Nonce, c: Config)
    requires Inv(s, c) && Tidy(s, c) && s.clock == a.now && Has(s.pending.table, a.from)
    ensures Inv(OnConfirmation(s, a, nonce, c).0, c) && OnConfirmation(s, a, nonce, c).0.clock == a.now
  {
    AcceptPendingIsTidy(s, a.from, nonce, c);
    PromoteIsTidy(AcceptPending(s, a.from, nonce, c), a.from, c);
    TouchIsTidy(Promote(AcceptPending(s, a.from, nonce, c), a.from, a.now, c), a.from, c);
  }

  lemma OnActiveDataInv(s: State, a: Arrival, nonce: Nonce, ciphertext: Ciphertext, c: Config)
    requires Inv(s, c) && Tidy(s, c) && s.clock == a.now
    ensures Inv(OnActiveData(s, a, nonce, ciphertext, c).0, c)
    ensures OnActiveData(s, a, nonce, ciphertext, c).0.clock == a.now
  {
    hide Inv, Tidy, SeeActive, AcceptActive, Replayed, Understood;
    if Has(s.active.table, a.from) {
      ActiveDataIsTidy(s, a.from, nonce, c);
      var seen := SeeActive(s, a.from, nonce, c);
      ActiveDataIsTidy(seen, a.from, nonce, c);
      TouchIsTidy(AcceptActive(seen, a.from, nonce, c), a.from, c);
    }
  }

  lemma OnDataInv(s: State, a: Arrival, content: Option<(Nonce, Ciphertext)>, c: Config)
    requires Inv(s, c) && Tidy(s, c) && s.clock == a.now
    ensures Inv(OnData(s, a, content, c).0, c) && OnData(s, a, content, c).0.clock == a.now
  {
    hide Inv, Tidy, OnActiveData, OnConfirmation, SeePending, Replayed, IsConfirmation;
    if content.None? { return; }
    var (nonce, ciphertext) := content.value;
    if Has(s.pending.table, a.from) {
      var seen := SeePending(s, a.from, c);
      SeePendingIsTidy(s, a.from, nonce, c);
      OnConfirmationInv(seen, a, nonce, c);
      OnActiveDataInv(seen, a, nonce, ciphertext, c);
    } else {
      OnActiveDataInv(s, a, nonce, ciphertext, c);
    }
  }

  /** One turn of the server loop keeps tables, counters, nonce sets and replay store right. */
  lemma ServerStepInv(s: State, a: Arrival, stations: set<string>, c: Config)
    requires Inv(s, c) && s.clock <= a.now
    ensures Inv(ServerStep(s, a, stations, c).0, c)
    ensures s.clock <= ServerStep(s, a, stations, c).0.clock <= a.now
  {
    if !a.allowed { return; }
    SweptIsTidy(s, a.now, c);
    match a.datagram
    case ClientHello(Some(h)) => OnHelloInv(Swept(s, a.now, c), a, h, stations, c);
    case Data(content) => OnDataInv(Swept(s, a.now, c), a, content, c);
    case _ =>
  }

  // ------------------------------------------------- nonces over the life of a handshake

  /** The log of a session is the list of its acceptances: a nonce is added exactly when the log does not refuse it. */
  lemma AcceptanceIsLogged(s: State, addr: Address, nonce: Nonce, c: Config)
    requires Inv(s, c)
    ensures Has(s.active.table, addr) ==>
              var (t, k) := (AcceptActive(s, addr, nonce, c).active.table, Find(s.active.table, addr));
              |t| == |s.active.table|
              && t[k].nonces.log == Offer(s.active.table[k].nonces.log, nonce, s.clock, c.nonceTtl, Some(c.nonceMax))
    ensures Has(s.pending.table, addr) ==>
              var (t, k) := (AcceptPending(s, addr, nonce, c).pending.table, Find(s.pending.table, addr));
              |t| == |s.pending.table|
              && t[k].nonces.log == Offer(s.pending.table[k].nonces.log, nonce, s.clock, c.nonceTtl, Some(c.nonceMax))
  {
    if Has(s.active.table, addr) {
      var before := s.active.table[Find(s.active.table, addr)].nonces;
      OfferedRefinesLog(before, nonce, s.clock, c.nonceTtl, Some(c.nonceMax));
    }
    if Has(s.pending.table, addr) {
      var before := s.pending.table[Find(s.pending.table, addr)].nonces;
      OfferedRefinesLog(before, nonce, s.clock, c.nonceTtl, Some(c.nonceMax));
    }
  }

  /** Promotion hands the whole log over: what the pending session accepted, the active one refuses. */
  lemma PromotionKeepsTheLog(s: State, addr: Address, c: Config)
    requires Inv(s, c) && Tidy(s, c) && Has(s.pending.table, addr)
    ensures var t := Promote(s, addr, s.clock, c).active.table;
            Has(t, addr) && t[Find(t, addr)].nonces == s.pending.table[Find(s.pending.table, addr)].nonces
  {
    PromoteIsTidy(s, addr, c);
  }
}
