/**
 What the server accepted over a whole run: every nonce, under the keys it was
 sealed with, and every answered hello.  The sessions a handshake goes through,
 pending and then active, come and go; these histories do not forget.
 */
module ServerHistory {
  import opened Common
  import opened AcceptanceLog
  import opened Wire
  import opened SessionTable
  import opened SecureModel
  import opened ServerModel
  import opened ServerMoves
  import opened Protocol

  datatype Accepted = Accepted(keys: Keys, nonce: Nonce, at: int)

  /** The nonce a datagram on an active session uses up, if it is understood and no replay. */
  function AcceptedOnActive(s: State, a: Arrival, nonce: Nonce, ciphertext: Ciphertext, c: Config): seq<Accepted> {
    if !Has(s.active.table, a.from) || Replayed(s.active.table, a.from, nonce, a.now, c) then [] else
    var session := s.active.table[Find(s.active.table, a.from)];
    if Understood(session.keys, session.station, nonce, ciphertext).None? then []
    else [Accepted(session.keys, nonce, a.now)]
  }

  /** The same for data at large: as confirmation of a pending session, or on the active one. */
  function AcceptedFrom(s: State, a: Arrival, nonce: Nonce, ciphertext: Ciphertext, c: Config): seq<Accepted> {
    if !Has(s.pending.table, a.from) then AcceptedOnActive(s, a, nonce, ciphertext, c) else
    var p := s.pending.table[Find(s.pending.table, a.from)];
    var plain := Open(p.keys.clientToServer, nonce, ciphertext);
    if Replayed(s.pending.table, a.from, nonce, a.now, c) || plain.None?
    then AcceptedOnActive(SeePending(s, a.from, c), a, nonce, ciphertext, c)
    else if plain.value.Undecodable? || !IsConfirmation(plain.value.json, p.station) then []
    else [Accepted(p.keys, nonce, a.now)]
  }

  function AcceptedByTurn(s: State, a: Arrival, c: Config): seq<Accepted> {
    if !a.allowed || !a.datagram.Data? || a.datagram.content.None? then []
    else AcceptedFrom(Swept(s, a.now, c), a, a.datagram.content.value.0, a.datagram.content.value.1, c)
  }

  function AcceptedByEvent(w: World, e: Event, g: Setting): seq<Accepted> {
    if e.ServerTurn? then AcceptedByTurn(w.server, e.arrival, g.config) else []
  }

  /** All acceptances of a run, in order. */
  function Acceptances(w: World, events: seq<Event>, g: Setting): seq<Accepted>
    requires Feasible(w, events, g)
    decreases |events|
  {
    if events == [] then []
    else AcceptedByEvent(w, events[0], g) + Acceptances(Step(w, events[0], g), events[1..], g)
  }

  /** The acceptances under the keys of one handshake. */
  function LogOf(history: seq<Accepted>, keys: Keys): Log<Nonce> {
    if history == [] then []
    else
      var last := history[|history| - 1];
      LogOf(history[..|history| - 1], keys) + if last.keys == keys then [Entry(last.nonce, last.at)] else []
  }

  /** Every session of a table holds the log of its handshake. */
  predicate Booked(t: Table, history: seq<Accepted>) {
    forall i :: 0 <= i < |t| ==> t[i].nonces.log == LogOf(history, t[i].keys)
  }

  /** Keys belong to one identity. */
  predicate KeysIdentify(active: set<Identity>, pending: set<Identity>) {
    forall x, y :: x in active + pending && y in active + pending && x.keys == y.keys ==>
      x == y && (x in active <==> y !in pending)
  }

  predicate BothBooked(s: State, history: seq<Accepted>) {
    Booked(s.active.table, history) && Booked(s.pending.table, history)
  }

  predicate BothWithin(s: State, active: set<Identity>, pending: set<Identity>) {
    Within(s.active.table, active) && Within(s.pending.table, pending)
  }

  lemma LogOfAppend(history: seq<Accepted>, x: Accepted, keys: Keys)
    ensures LogOf(history + [x], keys) == LogOf(history, keys) + if x.keys == keys then [Entry(x.nonce, x.at)] else []
  {
    assert (history + [x])[..|history|] == history;
  }

  // -------------------------------------------------------- operations and the book

  lemma {:induction false} LiveBooked(t: Table, now: int, ttl: int, history: seq<Accepted>)
    requires Booked(t, history)
    ensures Booked(Live(t, now, ttl), history)
  {
    if t != [] {
      assert forall i :: 0 <= i < |t[1..]| ==> t[1..][i] == t[i + 1];
      LiveBooked(t[1..], now, ttl, history);
    }
  }

  lemma SweptBooked(s: State, now: int, c: Config, history: seq<Accepted>)
    requires BothBooked(s, history)
    ensures BothBooked(Swept(s, now, c), history)
  {
    LiveBooked(s.active.table, now, c.sessionTtl, history);
    LiveBooked(s.pending.table, now, c.pendingTtl, history);
  }

  lemma WithoutBooked(t: Table, k: nat, history: seq<Accepted>)
    requires k < |t| && Booked(t, history)
    ensures Booked(Without(t, k), history)
  {
    forall i | 0 <= i < |t| - 1 ensures Without(t, k)[i] == t[if i < k then i else i + 1] {}
  }

  lemma RoomBooked(f: Shelf, addr: Address, max: nat, history: seq<Accepted>)
    requires Booked(f.table, history)
    ensures Booked(RoomFor(f, addr, max).table, history)
  {
    if Has(f.table, addr) { WithoutBooked(f.table, Find(f.table, addr), history); }
  }

  /** Lookups only expire nonces; the logs stay. */
  lemma SeeingBooked(s: State, addr: Address, nonce: Nonce, c: Config, history: seq<Accepted>)
    requires BothBooked(s, history)
    ensures BothBooked(SeeActive(s, addr, nonce, c), history) && BothBooked(SeePending(s, addr, c), history)
  {
  }

  lemma TouchBooked(s: State, addr: Address, now: int, history: seq<Accepted>)
    requires BothBooked(s, history)
    ensures BothBooked(Touch(s, addr, now), history)
  {
    if Has(s.active.table, addr) { WithoutBooked(s.active.table, Find(s.active.table, addr), history); }
  }

  /** Other sessions have other keys, so an acceptance of session `k` leaves their logs alone. */
  lemma OthersBooked(t: Table, history: seq<Accepted>, x: Accepted)
    requires Booked(t, history) && forall i :: 0 <= i < |t| ==> t[i].keys != x.keys
    ensures Booked(t, history + [x])
  {
    forall i | 0 <= i < |t| ensures t[i].nonces.log == LogOf(history + [x], t[i].keys) {
      LogOfAppend(history, x, t[i].keys);
    }
  }

  lemma OwnBooked(t: Table, k: nat, nonces: Store<Nonce>, history: seq<Accepted>, x: Accepted)
    requires k < |t| && Booked(t, history) && x.keys == t[k].keys
    requires nonces.log == t[k].nonces.log + [Entry(x.nonce, x.at)]
    requires forall i :: 0 <= i < |t| && i != k ==> t[i].keys != x.keys
    ensures Booked(SetNonces(t, k, nonces), history + [x])
  {
    var u := SetNonces(t, k, nonces);
    forall i | 0 <= i < |u| ensures u[i].nonces.log == LogOf(history + [x], u[i].keys) {
      LogOfAppend(history, x, t[i].keys);
    }
  }

  /** Within one table keys belong to one address, across the tables to one table. */
  lemma OnlyHere(t: Table, u: Table, k: nat, own: set<Identity>, others: set<Identity>)
    requires OnePerAddress(t) && k < |t| && Within(t, own) && Within(u, others)
    requires KeysIdentify(own, others)
    ensures forall i :: 0 <= i < |t| && i != k ==> t[i].keys != t[k].keys
    ensures forall i :: 0 <= i < |u| ==> u[i].keys != t[k].keys
  {
    forall i | 0 <= i < |t| && i != k ensures t[i].keys != t[k].keys {
      assert if i < k then AddressesDiffer(t, i, k) else AddressesDiffer(t, k, i);
      assert Id(t[i]) in own && Id(t[k]) in own;
    }
    forall i | 0 <= i < |u| ensures u[i].keys != t[k].keys {
      assert Id(u[i]) in others && Id(t[k]) in own;
    }
  }

  /** No handshake ever had a nonce accepted twice without the spacing its filter promises. */
  ghost predicate AllSpaced(history: seq<Accepted>, c: Config) {
    forall keys: Keys :: Spaced(LogOf(history, keys), c.nonceTtl, Some(c.nonceMax))
  }

  ghost predicate Book(s: State, history: seq<Accepted>, c: Config) {
    BothBooked(s, history) && AllSpaced(history, c)
  }

  lemma OneMoreSpaced(history: seq<Accepted>, x: Accepted, c: Config)
    requires AllSpaced(history, c)
    requires !Blocks(LogOf(history, x.keys), x.nonce, x.at, c.nonceTtl, Some(c.nonceMax))
    ensures AllSpaced(history + [x], c)
  {
    hide Spaced;
    OfferKeepsSpacing(LogOf(history, x.keys), x.nonce, x.at, c.nonceTtl, Some(c.nonceMax));
    forall keys: Keys ensures Spaced(LogOf(history + [x], keys), c.nonceTtl, Some(c.nonceMax)) {
      LogOfAppend(history, x, keys);
      assert LogOf(history, keys) + [] == LogOf(history, keys);
      assert Spaced(LogOf(history, keys), c.nonceTtl, Some(c.nonceMax));
    }
  }

  lemma AcceptActiveBooked(
    s: State, a: Arrival, nonce: Nonce, c: Config, history: seq<Accepted>, active: set<Identity>, pending: set<Identity>)
    requires Inv(s, c) && s.clock == a.now && Has(s.active.table, a.from)
    requires !Replayed(s.active.table, a.from, nonce, a.now, c)
    requires Book(s, history, c) && BothWithin(s, active, pending) && KeysIdentify(active, pending)
    ensures Book(AcceptActive(s, a.from, nonce, c),
                 history + [Accepted(s.active.table[Find(s.active.table, a.from)].keys, nonce, a.now)], c)
  {
    var (t, k) := (s.active.table, Find(s.active.table, a.from));
    var x := Accepted(t[k].keys, nonce, a.now);
    OfferedRefinesLog(t[k].nonces, nonce, s.clock, c.nonceTtl, Some(c.nonceMax));
    OnlyHere(t, s.pending.table, k, active, pending);
    hide Sound, Offered, Blocks, AllSpaced, LogOf, Sorted, NoncesConserved, ReplaysOk, Within, KeysIdentify;
    OwnBooked(t, k, Offered(t[k].nonces, nonce, s.clock, c.nonceTtl, Some(c.nonceMax)), history, x);
    OthersBooked(s.pending.table, history, x);
    OneMoreSpaced(history, x, c);
  }

  lemma AcceptPendingBooked(
    s: State, a: Arrival, nonce: Nonce, c: Config, history: seq<Accepted>, active: set<Identity>, pending: set<Identity>)
    requires Inv(s, c) && s.clock == a.now && Has(s.pending.table, a.from)
    requires !Replayed(s.pending.table, a.from, nonce, a.now, c)
    requires Book(s, history, c) && BothWithin(s, active, pending) && KeysIdentify(pending, active)
    ensures Book(AcceptPending(s, a.from, nonce, c),
                 history + [Accepted(s.pending.table[Find(s.pending.table, a.from)].keys, nonce, a.now)], c)
  {
    var (t, k) := (s.pending.table, Find(s.pending.table, a.from));
    var x := Accepted(t[k].keys, nonce, a.now);
    OfferedRefinesLog(t[k].nonces, nonce, s.clock, c.nonceTtl, Some(c.nonceMax));
    OnlyHere(t, s.active.table, k, pending, active);
    hide Sound, Offered, Blocks, AllSpaced, LogOf, Sorted, NoncesConserved, ReplaysOk, Within, KeysIdentify;
    OwnBooked(t, k, Offered(t[k].nonces, nonce, s.clock, c.nonceTtl, Some(c.nonceMax)), history, x);
    OthersBooked(s.active.table, history, x);
    OneMoreSpaced(history, x, c);
  }

  lemma ActiveDataBooked(
    s: State, a: Arrival, nonce: Nonce, ciphertext: Ciphertext, c: Config, history: seq<Accepted>,
    active: set<Identity>, pending: set<Identity>)
    requires Inv(s, c) && Tidy(s, c) && s.clock == a.now
    requires Book(s, history, c) && BothWithin(s, active, pending) && KeysIdentify(active, pending)
    ensures Book(OnActiveData(s, a, nonce, ciphertext, c).0, history + AcceptedOnActive(s, a, nonce, ciphertext, c), c)
  {
    assert history + [] == history;
    if !Has(s.active.table, a.from) { return; }
    var seen := SeeActive(s, a.from, nonce, c);
    SeeingBooked(s, a.from, nonce, c, history);
    ActiveDataIsTidy(s, a.from, nonce, c);
    NoncesWithin(s, a.from, nonce, c, active);
    if AcceptedOnActive(s, a, nonce, ciphertext, c) == [] { return; }
    assert seen.active.table[Find(seen.active.table, a.from)].keys == s.active.table[Find(s.active.table, a.from)].keys;
    hide Inv, Tidy, AllSpaced, Replayed, SeeActive, AcceptActive, KeysIdentify, Within, Booked, LogOf;
    AcceptActiveBooked(seen, a, nonce, c, history, active, pending);
    ActiveDataIsTidy(seen, a.from, nonce, c);
    var x := AcceptedOnActive(s, a, nonce, ciphertext, c);
    TouchBooked(AcceptActive(seen, a.from, nonce, c), a.from, a.now, history + x);
  }

  /** Promotion takes the row with its log from one table to the other. */
  lemma PromoteBooked(s: State, addr: Address, c: Config, history: seq<Accepted>)
    requires Inv(s, c) && Tidy(s, c) && Has(s.pending.table, addr) && BothBooked(s, history)
    ensures BothBooked(Promote(s, addr, s.clock, c), history)
  {
    PromoteIsTidy(s, addr, c);
    var k := Find(s.pending.table, addr);
    WithoutBooked(s.pending.table, k, history);
    RoomBooked(s.active, addr, c.maxSessions, history);
    hide Inv, Tidy, LogOf, Promote, RoomFor, Without;
    var p := s.pending.table[k].(createdAt := s.clock, lastSeen := s.clock);
    assert p.nonces.log == LogOf(history, p.keys);
  }

  lemma ConfirmationBooked(
    s: State, a: Arrival, nonce: Nonce, c: Config, history: seq<Accepted>, active: set<Identity>, pending: set<Identity>)
    requires Inv(s, c) && Tidy(s, c) && s.clock == a.now && Has(s.pending.table, a.from)
    requires !Replayed(s.pending.table, a.from, nonce, a.now, c)
    requires Book(s, history, c) && BothWithin(s, active, pending) && KeysIdentify(pending, active)
    ensures Book(OnConfirmation(s, a, nonce, c).0,
                 history + [Accepted(s.pending.table[Find(s.pending.table, a.from)].keys, nonce, a.now)], c)
  {
    var x := Accepted(s.pending.table[Find(s.pending.table, a.from)].keys, nonce, a.now);
    AcceptPendingBooked(s, a, nonce, c, history, active, pending);
    AcceptPendingIsTidy(s, a.from, nonce, c);
    hide Inv, Tidy, AllSpaced, BothBooked, Promote, AcceptPending, Touch, Replayed;
    var accepted := AcceptPending(s, a.from, nonce, c);
    PromoteBooked(accepted, a.from, c, history + [x]);
    TouchBooked(Promote(accepted, a.from, a.now, c), a.from, a.now, history + [x]);
  }

  lemma IdentifyBoth(active: set<Identity>, pending: set<Identity>)
    requires KeysIdentify(active, pending)
    ensures KeysIdentify(pending, active)
  {
  }

  lemma SeePendingWithin(s: State, addr: Address, c: Config, active: set<Identity>, pending: set<Identity>)
    requires BothWithin(s, active, pending) && Has(s.pending.table, addr)
    ensures BothWithin(SeePending(s, addr, c), active, pending)
  {
  }

  lemma DataBooked(
    s: State, a: Arrival, nonce: Nonce, ciphertext: Ciphertext, c: Config, history: seq<Accepted>,
    active: set<Identity>, pending: set<Identity>)
    requires Inv(s, c) && Tidy(s, c) && s.clock == a.now
    requires Book(s, history, c) && BothWithin(s, active, pending) && KeysIdentify(active, pending)
    ensures Book(OnData(s, a, Some((nonce, ciphertext)), c).0, history + AcceptedFrom(s, a, nonce, ciphertext, c), c)
  {
    assert history + [] == history;
    if !Has(s.pending.table, a.from) {
      ActiveDataBooked(s, a, nonce, ciphertext, c, history, active, pending);
      return;
    }
    var p := s.pending.table[Find(s.pending.table, a.from)];
    var seen := SeePending(s, a.from, c);
    SeeingBooked(s, a.from, nonce, c, history);
    SeePendingIsTidy(s, a.from, nonce, c);
    SeePendingWithin(s, a.from, c, active, pending);
    SeenKeepsIdentity(s, a.from, nonce, c);
    var plain := Open(p.keys.clientToServer, nonce, ciphertext);
    hide Inv, Tidy, AllSpaced, BothBooked, BothWithin, OnActiveData, OnConfirmation, SeePending, AcceptedOnActive,
      KeysIdentify, IsConfirmation, Replayed;
    if Replayed(s.pending.table, a.from, nonce, a.now, c) || plain.None? {
      ActiveDataBooked(seen, a, nonce, ciphertext, c, history, active, pending);
    } else if plain.value.Decoded? && IsConfirmation(plain.value.json, p.station) {
      IdentifyBoth(active, pending);
      ConfirmationBooked(seen, a, nonce, c, history, active, pending);
    }
  }

  /** A new pending session starts with an empty log; keys never used before have none. */
  lemma HelloBooked(s: State, a: Arrival, h: Hello, stations: set<string>, c: Config, history: seq<Accepted>)
    requires Book(s, history, c)
    requires LogOf(history, SessionKeys(Transcript(h, ServerReply(h, a.random, a.ephemeral)))) == []
    ensures Book(OnHello(s, a, h, stations, c).0, history, c)
  {
    hide AllSpaced, Blocks, Acceptable, Offered, LogOf;
    var t := AcceptReplay(s, (AuthDigest(h), h.signature), a.now, c);
    assert t.active == s.active && t.pending == s.pending;
    LiveBooked(t.pending.table, a.now, c.pendingTtl, history);
    RoomBooked(CleanPending(t, a.now, c).pending, a.from, c.maxPending, history);
  }

  lemma TurnBooked(
    s: State, a: Arrival, stations: set<string>, c: Config, history: seq<Accepted>,
    active: set<Identity>, pending: set<Identity>)
    requires Inv(s, c) && s.clock <= a.now
    requires Book(s, history, c) && BothWithin(s, active, pending) && KeysIdentify(active, pending)
    requires a.datagram.ClientHello? && a.datagram.hello.Some? ==>
               var h := a.datagram.hello.value;
               LogOf(history, SessionKeys(Transcript(h, ServerReply(h, a.random, a.ephemeral)))) == []
    ensures Book(ServerStep(s, a, stations, c).0, history + AcceptedByTurn(s, a, c), c)
  {
    assert history + [] == history;
    if !a.allowed { return; }
    SweptIsTidy(s, a.now, c);
    SweptWithin(s, a.now, c, active, pending);
    SweptBooked(s, a.now, c, history);
    hide Inv, Tidy, AllSpaced, BothBooked, KeysIdentify, Swept, AcceptedFrom, OnHello, Within, LogOf;
    match a.datagram {
      case ClientHello(Some(h)) => HelloBooked(Swept(s, a.now, c), a, h, stations, c, history);
      case Data(Some((nonce, ciphertext))) =>
        DataBooked(Swept(s, a.now, c), a, nonce, ciphertext, c, history, active, pending);
      case Data(None) =>
      case _ =>
    }
  }

  // --------------------------------------------------------------------- whole runs

  predicate IssuedKeys(w: World, keys: Keys) {
    keys == SessionKeys(keys.clientToServer.transcript) && keys.clientToServer.transcript in w.issued
  }

  ghost predicate BookOk(w: World, history: seq<Accepted>, g: Setting) {
    && Book(w.server, history, g.config)
    && forall i :: 0 <= i < |history| ==> IssuedKeys(w, history[i].keys)
  }

  lemma TranscriptsIdentify(issued: Issued, promoted: seq<Keys>)
    ensures KeysIdentify(Established(issued, promoted), Awaiting(issued, promoted))
  {
  }

  lemma {:induction false} NeverSeen(history: seq<Accepted>, keys: Keys)
    requires forall i :: 0 <= i < |history| ==> history[i].keys != keys
    ensures LogOf(history, keys) == []
  {
    if history != [] { NeverSeen(history[..|history| - 1], keys); }
  }

  lemma AcceptedIsIssued(s: State, a: Arrival, c: Config, active: set<Identity>, pending: set<Identity>)
    requires BothWithin(s, active, pending)
    ensures forall x :: x in AcceptedByTurn(s, a, c) ==>
              exists id :: id in active + pending && id.keys == x.keys
  {
    var swept := Swept(s, a.now, c);
    SweptWithin(s, a.now, c, active, pending);
    hide Swept;
    forall i | 0 <= i < |swept.active.table| ensures Id(swept.active.table[i]) in active {}
    forall i | 0 <= i < |swept.pending.table| ensures Id(swept.pending.table[i]) in pending {}
    assert forall addr :: SeePending(swept, addr, c).active == swept.active;
    hide SeePending, Replayed, Understood;
    forall x | x in AcceptedByTurn(s, a, c)
      ensures exists id :: id in active + pending && id.keys == x.keys
    {
      if Has(swept.pending.table, a.from) && x.keys == swept.pending.table[Find(swept.pending.table, a.from)].keys {
        assert Id(swept.pending.table[Find(swept.pending.table, a.from)]) in pending;
      } else {
        assert Id(swept.active.table[Find(swept.active.table, a.from)]) in active;
      }
    }
  }

  lemma ServerTurnKeepsBook(w: World, a: Arrival, history: seq<Accepted>, g: Setting)
    requires Safe(w, g) && Can(w, ServerTurn(a)) && BookOk(w, history, g)
    ensures BookOk(Step(w, ServerTurn(a), g), history + AcceptedByTurn(w.server, a, g.config), g)
  {
    hide Book, AcceptedByTurn, ServerStep, KeysIdentify, Inv, SentSafe, RunSafe, AnswerSafe, DeliverySafe;
    var (active, pending) := (Established(w.issued, w.promoted), Awaiting(w.issued, w.promoted));
    TranscriptsIdentify(w.issued, w.promoted);
    AcceptedIsIssued(w.server, a, g.config, active, pending);
    if a.datagram.ClientHello? && a.datagram.hello.Some? {
      var t := Transcript(a.datagram.hello.value, ServerReply(a.datagram.hello.value, a.random, a.ephemeral));
      NeverSeen(history, SessionKeys(t));
    }
    TurnBooked(w.server, a, g.stations, g.config, history, active, pending);
    var x := AcceptedByTurn(w.server, a, g.config);
    var v := Step(w, ServerTurn(a), g);
    hide Safe;
    forall i | 0 <= i < |history + x|
      ensures IssuedKeys(v, (history + x)[i].keys)
    {
      if i >= |history| {
        assert x[i - |history|] in x;
        var id: Identity :| id in active + pending && id.keys == x[i - |history|].keys;
      }
    }
  }

  lemma StepKeepsBook(w: World, e: Event, history: seq<Accepted>, g: Setting)
    requires Safe(w, g) && Can(w, e) && BookOk(w, history, g)
    ensures BookOk(Step(w, e, g), history + AcceptedByEvent(w, e, g), g)
  {
    if e.ServerTurn? {
      ServerTurnKeepsBook(w, e.arrival, history, g);
    } else {
      assert history + [] == history;
      hide Safe, Book, AfterPass, AfterTurn;
    }
  }

  lemma {:induction false} RunKeepsBook(w: World, events: seq<Event>, history: seq<Accepted>, g: Setting)
    requires Safe(w, g) && Feasible(w, events, g) && BookOk(w, history, g)
    ensures BookOk(After(w, events, g), history + Acceptances(w, events, g), g)
    decreases |events|
  {
    hide Safe, Can, Step, BookOk, AcceptedByEvent;
    if events == [] {
      assert history + [] == history;
    } else {
      var first := AcceptedByEvent(w, events[0], g);
      StepKeepsSafe(w, events[0], g);
      StepKeepsBook(w, events[0], history, g);
      RunKeepsBook(Step(w, events[0], g), events[1..], history + first, g);
      var rest := Acceptances(Step(w, events[0], g), events[1..], g);
      assert (history + first) + rest == history + (first + rest);
    }
  }

  // ----------------------------------------------------------------------- results

  /** The acceptances of a handshake strictly between two entries. */
  function Between(history: seq<Accepted>, i: nat, j: nat, keys: Keys): nat
    requires i < j <= |history|
  {
    |LogOf(history[i + 1..j], keys)|
  }

  lemma {:induction false} LogOfConcat(a: seq<Accepted>, b: seq<Accepted>, keys: Keys)
    ensures LogOf(a + b, keys) == LogOf(a, keys) + LogOf(b, keys)
    decreases |b|
  {
    if b == [] {
      assert a + b == a;
    } else {
      var n := |b| - 1;
      assert (a + b)[..|a + b| - 1] == a + b[..n];
      LogOfConcat(a, b[..n], keys);
    }
  }

  /** An entry of the history is the entry of its log at the number of earlier ones. */
  lemma PlaceInLog(history: seq<Accepted>, i: nat)
    requires i < |history|
    ensures var x := history[i];
            var log := LogOf(history, x.keys);
            |LogOf(history[..i], x.keys)| < |log| && log[|LogOf(history[..i], x.keys)|] == Entry(x.nonce, x.at)
  {
    var x := history[i];
    assert history == history[..i + 1] + history[i + 1..];
    LogOfConcat(history[..i + 1], history[i + 1..], x.keys);
    assert history[..i + 1] == history[..i] + [x];
    LogOfAppend(history[..i], x, x.keys);
  }

  lemma PlacesApart(history: seq<Accepted>, i: nat, j: nat)
    requires i < j < |history| && history[i].keys == history[j].keys
    ensures var keys := history[i].keys;
            |LogOf(history[..j], keys)| == |LogOf(history[..i], keys)| + 1 + Between(history, i, j, keys)
  {
    var keys := history[i].keys;
    assert history[..j] == history[..i + 1] + history[i + 1..j];
    LogOfConcat(history[..i + 1], history[i + 1..j], keys);
    assert history[..i + 1] == history[..i] + [history[i]];
    LogOfAppend(history[..i], history[i], keys);
  }

  /**
   Nonce uniqueness over the whole life of a handshake, pending and then active,
   in every run: two acceptances of one nonce under one handshake's keys are a
   nonce lifetime apart, or a full set of other acceptances lies between them.
   */
  lemma NoncesAreSpacedInEveryRun(clock: int, events: seq<Event>, g: Setting, i: nat, j: nat)
    requires ValidConfig(g.config) && Feasible(InitialWorld(clock), events, g)
    requires i < j < |Acceptances(InitialWorld(clock), events, g)|
    requires var history := Acceptances(InitialWorld(clock), events, g);
             history[i].keys == history[j].keys && history[i].nonce == history[j].nonce
    ensures var history := Acceptances(InitialWorld(clock), events, g);
            || history[j].at - history[i].at >= g.config.nonceTtl
            || Between(history, i, j, history[i].keys) >= g.config.nonceMax
  {
    var w := InitialWorld(clock);
    InitialInv(clock, g.config);
    var history := Acceptances(w, events, g);
    assert BookOk(w, [], g);
    RunKeepsBook(w, events, [], g);
    assert [] + history == history;
    hide Safe, Feasible, After, Acceptances;
    PlaceInLog(history, i);
    PlaceInLog(history, j);
    PlacesApart(history, i, j);
    var keys := history[i].keys;
    var (p, q) := (|LogOf(history[..i], keys)|, |LogOf(history[..j], keys)|);
    hide LogOf;
    assert Spaced(LogOf(history, keys), g.config.nonceTtl, Some(g.config.nonceMax));
    assert Apart(LogOf(history, keys), p, q, g.config.nonceTtl, Some(g.config.nonceMax));
  }

  /** A reaction that uses the keys of a session uses up exactly the nonce of the datagram, under these keys. */
  predicate PaidFor(r: Reaction, a: Arrival, used: seq<Accepted>) {
    r.promoted.Some? || r.delivered.Some? || (r.reply.Some? && r.reply.value.Data?) ==>
      && a.datagram.Data? && a.datagram.content.Some?
      && |used| == 1 && used[0].nonce == a.datagram.content.value.0 && used[0].at == a.now
      && (r.promoted.Some? ==> r.promoted.value == used[0].keys)
      && (r.reply.Some? ==> SealedUnder(r.reply.value) == Some(used[0].keys.serverToClient))
  }

  lemma ActiveDataIsPaidFor(s: State, a: Arrival, nonce: Nonce, ciphertext: Ciphertext, c: Config)
    requires a.datagram == Data(Some((nonce, ciphertext)))
    ensures PaidFor(OnActiveData(s, a, nonce, ciphertext, c).1, a, AcceptedOnActive(s, a, nonce, ciphertext, c))
  {
    hide Understood, Replayed, SeeActive, AcceptActive, Touch;
  }

  lemma DataIsPaidFor(s: State, a: Arrival, nonce: Nonce, ciphertext: Ciphertext, c: Config)
    requires Inv(s, c) && Tidy(s, c) && s.clock == a.now && a.datagram == Data(Some((nonce, ciphertext)))
    ensures PaidFor(OnData(s, a, Some((nonce, ciphertext)), c).1, a, AcceptedFrom(s, a, nonce, ciphertext, c))
  {
    hide Inv, Tidy, OnActiveData, AcceptedOnActive, SeePending, Replayed, IsConfirmation, Promote, AcceptPending, Touch;
    if Has(s.pending.table, a.from) {
      SeenKeepsIdentity(s, a.from, nonce, c);
      ActiveDataIsPaidFor(SeePending(s, a.from, c), a, nonce, ciphertext, c);
    } else {
      ActiveDataIsPaidFor(s, a, nonce, ciphertext, c);
    }
  }

  /** Nothing is promoted, delivered or answered under session keys without an acceptance of its nonce. */
  lemma ServiceNeedsAcceptance(s: State, a: Arrival, stations: set<string>, c: Config)
    requires Inv(s, c) && s.clock <= a.now
    ensures PaidFor(ServerStep(s, a, stations, c).1, a, AcceptedByTurn(s, a, c))
  {
    if !a.allowed { return; }
    SweptIsTidy(s, a.now, c);
    hide Inv, Tidy, Swept, AcceptedFrom, InstallPending, AcceptReplay, Acceptable, Blocks;
    if a.datagram.Data? && a.datagram.content.Some? {
      DataIsPaidFor(Swept(s, a.now, c), a, a.datagram.content.value.0, a.datagram.content.value.1, c);
      hide OnData;
    }
  }

  /** The hello a turn answers: its digest and signature, with the time. */
  function AnsweredByEvent(w: World, e: Event, g: Setting): Log<ReplayKey> {
    if !e.ServerTurn? then [] else
    var r := ServerStep(w.server, e.arrival, g.stations, g.config).1;
    if r.installed.None? then []
    else [Entry((AuthDigest(r.installed.value.hello), r.installed.value.hello.signature), e.arrival.now)]
  }

  function AnsweredHellos(w: World, events: seq<Event>, g: Setting): Log<ReplayKey>
    requires Feasible(w, events, g)
    decreases |events|
  {
    if events == [] then []
    else AnsweredByEvent(w, events[0], g) + AnsweredHellos(Step(w, events[0], g), events[1..], g)
  }

  lemma DataKeepsReplays(s: State, a: Arrival, content: Option<(Nonce, Ciphertext)>, c: Config)
    ensures OnData(s, a, content, c).0.replays == s.replays && OnData(s, a, content, c).1.installed.None?
  {
    hide Replayed, Classify, IsConfirmation, Find, Has, Retaining, RoomFor, Live;
  }

  lemma TurnLogsHellos(w: World, a: Arrival, g: Setting)
    requires Inv(w.server, g.config) && w.server.clock <= a.now
    ensures ServerStep(w.server, a, g.stations, g.config).0.replays.log
            == w.server.replays.log + AnsweredByEvent(w, ServerTurn(a), g)
  {
    var log := w.server.replays.log;
    assert log + [] == log;
    if !a.allowed { return; }
    SweptIsTidy(w.server, a.now, g.config);
    var swept := Swept(w.server, a.now, g.config);
    hide Inv, Tidy, Swept;
    match a.datagram {
      case Data(content) => DataKeepsReplays(swept, a, content, g.config);
      case ClientHello(Some(h)) => HelloIsLogged(swept, a, h, g);
      case _ =>
    }
  }

  lemma HelloIsLogged(s: State, a: Arrival, h: Hello, g: Setting)
    requires Inv(s, g.config) && s.clock <= a.now
    ensures var (t, r) := OnHello(s, a, h, g.stations, g.config);
            t.replays.log == s.replays.log
              + if r.installed.None? then [] else [Entry((AuthDigest(h), h.signature), a.now)]
    ensures var r := OnHello(s, a, h, g.stations, g.config).1;
            r.installed.Some? ==> r.installed.value.hello == h
  {
    OfferedRefinesLog(s.replays, (AuthDigest(h), h.signature), a.now, g.config.replayTtl, Some(g.config.replayMax));
    hide Offered, Blocks, Sound, ShelfOk, NoncesConserved, Acceptable, RoomFor, Live;
  }

  lemma {:induction false} EveryAnswerIsLogged(w: World, events: seq<Event>, g: Setting)
    requires Safe(w, g) && Feasible(w, events, g)
    ensures After(w, events, g).server.replays.log == w.server.replays.log + AnsweredHellos(w, events, g)
    decreases |events|
  {
    hide Can, AnsweredByEvent, ServerStep, Inv, AfterPass, AfterTurn;
    if events == [] {
      assert w.server.replays.log + [] == w.server.replays.log;
    } else {
      var first := AnsweredByEvent(w, events[0], g);
      StepKeepsSafe(w, events[0], g);
      StepLogsHellos(w, events[0], g);
      hide Safe, Step;
      EveryAnswerIsLogged(Step(w, events[0], g), events[1..], g);
      var rest := AnsweredHellos(Step(w, events[0], g), events[1..], g);
      assert (w.server.replays.log + first) + rest == w.server.replays.log + (first + rest);
    }
  }

  lemma StepLogsHellos(w: World, e: Event, g: Setting)
    requires Safe(w, g) && Can(w, e)
    ensures Step(w, e, g).server.replays.log == w.server.replays.log + AnsweredByEvent(w, e, g)
  {
    if e.ServerTurn? {
      TurnLogsHellos(w, e.arrival, g);
    } else {
      assert w.server.replays.log + [] == w.server.replays.log;
    }
  }

  /** One signed hello is answered again only after a replay lifetime, or after a full store of other hellos. */
  lemma HelloReplaysAreRefused(clock: int, events: seq<Event>, g: Setting, i: nat, j: nat)
    requires ValidConfig(g.config) && Feasible(InitialWorld(clock), events, g)
    requires i < j < |AnsweredHellos(InitialWorld(clock), events, g)|
    requires var answered := AnsweredHellos(InitialWorld(clock), events, g); answered[i].key == answered[j].key
    ensures var answered := AnsweredHellos(InitialWorld(clock), events, g);
            answered[j].at - answered[i].at >= g.config.replayTtl || j - i - 1 >= g.config.replayMax
  {
    var w := InitialWorld(clock);
    ReachableIsSafe(clock, [], g);
    ReachableIsSafe(clock, events, g);
    EveryAnswerIsLogged(w, events, g);
    var s := After(w, events, g).server;
    var answered := AnsweredHellos(w, events, g);
    assert s.replays.log == answered;
    hide Feasible, After, AnsweredHellos, SentSafe, RunSafe, AnswerSafe, DeliverySafe;
    assert Sound(s.replays, g.config.replayTtl, Some(g.config.replayMax));
    assert Apart(s.replays.log, i, j, g.config.replayTtl, Some(g.config.replayMax));
  }
}
