/** `_secure_server_loop` (aismixer_secure.py): the handling of one datagram by the loop, on the session objects. */
module SecureServer {
  import opened Common
  import opened AcceptanceLog
  import opened Wire
  import opened SessionTable
  import opened SecureModel
  import opened ServerModel
  import State = SecureState

  type Sessions = State.SecureState

  /** A ClientHello that parsed. */
  method HandleHello(state: Sessions, a: Arrival, h: Hello, stations: set<string>) returns (r: Reaction)
    requires state.Valid() && state.model.clock <= a.now
    modifies state.Objects()
    ensures state.Valid() && (state.model, r) == OnHello(old(state.model), a, h, stations, state.c)
  {
    r := SILENT;
    if Distance(a.wall, h.timestamp) > HANDSHAKE_WINDOW || h.station !in stations {
      return;
    }
    if h.signature != Signature(Station(h.station), AuthDigest(h)) || !h.ephemeral.Share? {
      return;
    }
    AcceptReplayInv(state.model, (AuthDigest(h), h.signature), a.now, state.c);
    var accepted := state.AcceptHandshakeReplay((AuthDigest(h), h.signature), a.now);
    if !accepted {
      return;
    }
    var transcript := Transcript(h, ServerReply(h, a.random, a.ephemeral));
    var _ := state.InstallPendingSession(a.from, h.station, SessionKeys(transcript), a.now);
    r := Reaction(Some(ServerHello(Some(transcript.reply))), None, Some(transcript), None);
  }

  /** `accept_pending_data_nonce` in a turn whose tables are already clean. */
  method AcceptPendingNonce(state: Sessions, addr: Address, pending: State.PendingSession, nonce: Nonce, now: int)
    requires state.Valid() && Tidy(state.model, state.c) && state.RetainsPending(addr, pending)
    requires state.model.clock == now && !Replayed(state.model.pending.table, addr, nonce, now, state.c)
    modifies state`pendingSessions, state`stats, state`model, State.PendingSets(state.pendingSessions)
    ensures state.Valid() && state.RetainsPending(addr, pending)
    ensures state.model == AcceptPending(old(state.model), addr, nonce, state.c)
    ensures Tidy(state.model, state.c) && state.model.clock == now
    ensures State.PendingSets(state.pendingSessions) <= old(State.PendingSets(state.pendingSessions))
  {
    state.RetainedRows(addr);
    CleaningIsIdle(state.model, state.c);
    AcceptPendingIsTidy(state.model, addr, nonce, state.c);
    var accepted := state.AcceptPendingDataNonce(pending, nonce, now);
    assert accepted;
  }

  method PromoteClean(state: Sessions, addr: Address, pending: State.PendingSession, now: int)
    returns (session: State.ActiveSession)
    requires state.Valid() && Tidy(state.model, state.c) && state.RetainsPending(addr, pending)
    requires state.model.clock == now
    modifies state.Objects()
    ensures state.Valid() && state.RetainsActive(addr, session) && fresh(session)
    ensures state.model == Promote(old(state.model), addr, now, state.c)
    ensures State.ActiveObjects(state.sessions)
            <= old(State.ActiveObjects(state.sessions)) + {session, pending.nonces}
    ensures session.addr == addr && session.keys == pending.keys
    ensures Tidy(state.model, state.c) && state.model.clock == now
  {
    state.RetainedRows(addr);
    PromoteIsTidy(state.model, addr, state.c);
    CleaningIsIdle(state.model, state.c);
    session := state.PromotePendingSession(addr, pending, now);
    state.NewestIsRetained(session);
  }

  method TouchClean(state: Sessions, addr: Address, session: State.ActiveSession, now: int)
    requires state.Valid() && Tidy(state.model, state.c) && state.RetainsActive(addr, session)
    requires state.model.clock == now
    modifies state`sessions, state`stats, state`model, State.ActiveObjects(state.sessions), session`lastSeen
    ensures state.Valid() && state.model == Touch(old(state.model), addr, now)
  {
    CleaningIsIdle(state.model, state.c);
    state.RetainedRows(addr);
    var touched := state.TouchSession(addr, session, now);
    assert touched;
  }

  /** A decrypted confirmation of a pending session. */
  method Confirm(state: Sessions, a: Arrival, pending: State.PendingSession, nonce: Nonce) returns (r: Reaction)
    requires state.Valid() && Tidy(state.model, state.c) && state.model.clock == a.now
    requires state.RetainsPending(a.from, pending)
    requires !Replayed(state.model.pending.table, a.from, nonce, a.now, state.c)
    modifies state.Objects()
    ensures state.Valid() && (state.model, r) == OnConfirmation(old(state.model), a, nonce, state.c)
  {
    hide Tidy, Sound;
    state.RetainedRows(a.from);
    AcceptPendingNonce(state, a.from, pending, nonce, a.now);
    var session := PromoteClean(state, a.from, pending, a.now);
    TouchClean(state, a.from, session, a.now);
    r := Reaction(
      Some(SealedReply(session.keys, a.nonce, Pong(pending.station, CONFIRMATION_SEQUENCE, a.wall))),
      None, None, Some(session.keys));
  }

  /** `data_nonce_seen` in a turn whose tables are already clean. */
  method SeeActiveNonce(state: Sessions, addr: Address, session: State.ActiveSession, nonce: Nonce, now: int)
    returns (seen: bool)
    requires state.Valid() && Tidy(state.model, state.c) && state.RetainsActive(addr, session)
    requires state.model.clock == now
    modifies state`sessions, state`stats, state`model, State.ActiveObjects(state.sessions)
    ensures state.Valid() && Tidy(state.model, state.c) && state.model.clock == now
    ensures state.RetainsActive(addr, session) && Has(old(state.model).active.table, addr)
    ensures state.model == SeeActive(old(state.model), addr, nonce, state.c)
    ensures seen <==> Replayed(old(state.model).active.table, addr, nonce, now, state.c)
    ensures !seen ==> !Replayed(state.model.active.table, addr, nonce, now, state.c)
    ensures State.ActiveObjects(state.sessions) <= old(State.ActiveObjects(state.sessions))
  {
    state.RetainedRows(addr);
    CleaningIsIdle(state.model, state.c);
    ActiveDataIsTidy(state.model, addr, nonce, state.c);
    seen := state.DataNonceSeen(session, nonce, now);
  }

  /** `accept_data_nonce` and `touch_session`, once the message has been found valid. */
  method AcceptAndTouch(state: Sessions, addr: Address, session: State.ActiveSession, nonce: Nonce, now: int)
    requires state.Valid() && Tidy(state.model, state.c) && state.RetainsActive(addr, session)
    requires state.model.clock == now && !Replayed(state.model.active.table, addr, nonce, now, state.c)
    modifies state`sessions, state`stats, state`model, State.ActiveObjects(state.sessions), session`lastSeen
    ensures state.Valid()
    ensures state.model == Touch(AcceptActive(old(state.model), addr, nonce, state.c), addr, now)
  {
    state.RetainedRows(addr);
    CleaningIsIdle(state.model, state.c);
    ActiveDataIsTidy(state.model, addr, nonce, state.c);
    var accepted := state.AcceptDataNonce(session, nonce, now);
    assert accepted;
    TouchClean(state, addr, session, now);
  }

  /** Data on the active session of its source address. */
  method HandleActiveData(
    state: Sessions, a: Arrival, session: State.ActiveSession, nonce: Nonce, ciphertext: Ciphertext)
    returns (r: Reaction)
    requires state.Valid() && Tidy(state.model, state.c) && state.model.clock == a.now
    requires state.RetainsActive(a.from, session)
    modifies state`sessions, state`stats, state`model, State.ActiveObjects(state.sessions), session`lastSeen
    ensures state.Valid() && (state.model, r) == OnActiveData(old(state.model), a, nonce, ciphertext, state.c)
  {
    r := SILENT;
    state.RetainedRows(a.from);
    var seen := SeeActiveNonce(state, a.from, session, nonce, a.now);
    if seen {
      return;
    }
    var message := Understood(session.keys, session.station, nonce, ciphertext);
    if message.None? {
      return;
    }
    AcceptAndTouch(state, a.from, session, nonce, a.now);
    r := Answer(session.keys, session.station, message.value, a);
  }

  /** `pending_data_nonce_seen` in a turn whose tables are already clean. */
  method SeePendingNonce(state: Sessions, addr: Address, pending: State.PendingSession, nonce: Nonce, now: int)
    returns (seen: bool)
    requires state.Valid() && Tidy(state.model, state.c) && state.RetainsPending(addr, pending)
    requires state.model.clock == now
    modifies state`pendingSessions, state`stats, state`model, State.PendingSets(state.pendingSessions)
    ensures state.Valid() && Tidy(state.model, state.c) && state.model.clock == now
    ensures state.RetainsPending(addr, pending) && Has(old(state.model).pending.table, addr)
    ensures state.model == SeePending(old(state.model), addr, state.c)
    ensures seen <==> Replayed(old(state.model).pending.table, addr, nonce, now, state.c)
    ensures !seen ==> !Replayed(state.model.pending.table, addr, nonce, now, state.c)
    ensures State.PendingSets(state.pendingSessions) <= old(State.PendingSets(state.pendingSessions))
  {
    state.RetainedRows(addr);
    CleaningIsIdle(state.model, state.c);
    SeePendingIsTidy(state.model, addr, nonce, state.c);
    seen := state.PendingDataNonceSeen(pending, nonce, now);
  }

  /** The sessions of both tables at one address, in a turn whose tables are already clean. */
  method LookUp(state: Sessions, addr: Address, now: int)
    returns (pending: State.PendingSession?, session: State.ActiveSession?)
    requires state.Valid() && Tidy(state.model, state.c) && state.model.clock == now
    modifies state`sessions, state`pendingSessions, state`stats, state`model
    modifies State.ActiveObjects(state.sessions), State.PendingSets(state.pendingSessions)
    ensures state.Valid() && state.model == old(state.model)
    ensures pending != null <==> Has(state.model.pending.table, addr)
    ensures session != null <==> Has(state.model.active.table, addr)
    ensures pending != null ==> state.RetainsPending(addr, pending)
    ensures session != null ==> state.RetainsActive(addr, session) && session in old(State.ActiveObjects(state.sessions))
    ensures State.ActiveObjects(state.sessions) <= old(State.ActiveObjects(state.sessions))
    ensures State.PendingSets(state.pendingSessions) <= old(State.PendingSets(state.pendingSessions))
  {
    CleaningIsIdle(state.model, state.c);
    pending := state.GetPendingSession(addr, now);
    session := state.GetActiveSession(addr, now);
    assert session != null ==> session in state.sessions;
  }

  /** Data at an address with a pending session: `done` unless it is left to the active session. */
  method HandlePendingData(
    state: Sessions, a: Arrival, pending: State.PendingSession, nonce: Nonce, ciphertext: Ciphertext)
    returns (r: Reaction, done: bool)
    requires state.Valid() && Tidy(state.model, state.c) && state.model.clock == a.now
    requires state.RetainsPending(a.from, pending)
    modifies state.Objects()
    ensures state.Valid() && Has(old(state.model).pending.table, a.from)
    ensures done ==> (state.model, r) == OnData(old(state.model), a, Some((nonce, ciphertext)), state.c)
    ensures !done ==>
              var seen := SeePending(old(state.model), a.from, state.c);
              && state.model == seen && Tidy(seen, state.c) && seen.clock == a.now && state.sessions == old(state.sessions)
              && OnData(old(state.model), a, Some((nonce, ciphertext)), state.c)
                 == OnActiveData(seen, a, nonce, ciphertext, state.c)
  {
    hide Tidy, Sound;
    r, done := SILENT, true;
    state.RetainedRows(a.from);
    var seen := SeePendingNonce(state, a.from, pending, nonce, a.now);
    var plain := Open(pending.keys.clientToServer, nonce, ciphertext);
    if seen || plain.None? {
      done := false;
    } else if plain.value.Decoded? && IsConfirmation(plain.value.json, pending.station) {
      r := Confirm(state, a, pending, nonce);
    }
  }

  /** A data packet: first as the confirmation of a pending session, then on the active one. */
  method HandleData(state: Sessions, a: Arrival, content: Option<(Nonce, Ciphertext)>) returns (r: Reaction)
    requires state.Valid() && Tidy(state.model, state.c) && state.model.clock == a.now
    modifies state.Objects()
    ensures state.Valid() && (state.model, r) == OnData(old(state.model), a, content, state.c)
  {
    r := SILENT;
    var pending, session := LookUp(state, a.from, a.now);
    if pending == null && session == null {
      return SILENT.(reply := Some(NoSession));
    }
    if content.None? {
      return;
    }
    var (nonce, ciphertext) := content.value;
    if pending != null {
      var done;
      r, done := HandlePendingData(state, a, pending, nonce, ciphertext);
      if done {
        return;
      }
    }
    r := SILENT;
    if session != null {
      r := HandleActiveData(state, a, session, nonce, ciphertext);
    }
  }

  /** One turn of the loop. */
  method Handle(state: Sessions, a: Arrival, stations: set<string>) returns (r: Reaction)
    requires state.Valid() && state.model.clock <= a.now
    modifies state.Objects()
    ensures state.Valid() && (state.model, r) == ServerStep(old(state.model), a, stations, state.c)
  {
    r := SILENT;
    if !a.allowed {
      return;
    }
    SweptIsTidy(state.model, a.now, state.c);
    hide Inv, Tidy, OnHello, OnData, ExpireShelf;
    var _ := state.CleanupExpiredSessions(a.now);
    var _ := state.CleanupExpiredPending(a.now);
    match a.datagram {
      case ClientHello(Some(h)) => r := HandleHello(state, a, h, stations);
      case Data(content) => r := HandleData(state, a, content);
      case _ =>
    }
  }
}
