/**
 The protocol can do its work: on an undisturbed network, within the deadlines
 and the clock window, a handshake that begins in any reachable world finishes.
 */
module HandshakeCompletes {
  import opened Common
  import opened AcceptanceLog
  import opened Wire
  import opened SessionTable
  import opened SecureModel
  import opened ServerModel
  import opened ServerMoves
  import opened ClientModel
  import opened Protocol

  /** The values read and drawn during one handshake. */
  datatype Plan = Plan(
    client: Client, config: ClientConfig, startedAt: int, addr: Address,
    random: nat, ephemeral: nat, helloAt: int, helloWall: int,
    first: Reception, confirmAt: int, pongNonce: Nonce, pongWall: int, second: Reception)

  function Agreed(p: Plan): Transcript {
    Transcript(p.client.hello, ServerReply(p.client.hello, p.random, p.ephemeral))
  }

  function HelloArrival(p: Plan): Arrival {
    Arrival(p.addr, ClientHello(Some(p.client.hello)), true, p.helloAt, p.helloWall, p.random, p.ephemeral, 0)
  }

  function ConfirmationArrival(p: Plan): Arrival {
    Arrival(p.addr, Confirmation(p.client, Agreed(p), p.first), true, p.confirmAt, p.pongWall, 0, p.ephemeral + 1, p.pongNonce)
  }

  function FinalPong(p: Plan): Datagram {
    SealedReply(SessionKeys(Agreed(p)), p.pongNonce, Pong(p.client.hello.station, CONFIRMATION_SEQUENCE, p.pongWall))
  }

  function Five(p: Plan): seq<Event> {
    [Begin(p.client, p.config, p.startedAt), ServerTurn(HelloArrival(p)), HandshakePass(p.client.hello, p.first),
     ServerTurn(ConfirmationArrival(p)), HandshakePass(p.client.hello, p.second)]
  }

  /** Nothing is lost, late or refused. */
  predicate Undisturbed(w: World, p: Plan, g: Setting) {
    var h := p.client.hello;
    && Acceptable(h, p.helloWall, g.stations)
    && w.server.clock <= p.helloAt
    && !Blocks(w.server.replays.log, (AuthDigest(h), h.signature), p.helloAt, g.config.replayTtl, Some(g.config.replayMax))
    && (forall t :: t in w.issued ==> t.reply.ephemeral != Share(p.ephemeral) && t.reply.ephemeral != Share(p.ephemeral + 1))
    && p.first.now < p.startedAt + p.client.timeout && p.first.sends
    && p.first.received == Packet(p.client.server, ServerHello(Some(Agreed(p).reply)))
    && p.helloAt <= p.confirmAt < p.helloAt + g.config.pendingTtl
    && p.second.now < p.first.later + p.client.timeout
    && p.second.received == Packet(p.client.server, FinalPong(p))
  }

  // ------------------------------------------------------------------ the server's part

  lemma {:induction false} LastStays(t: Table, now: int, ttl: int)
    requires t != [] && !Expired(t[|t| - 1], now, ttl)
    ensures Live(t, now, ttl) != [] && Live(t, now, ttl)[|Live(t, now, ttl)| - 1] == t[|t| - 1]
  {
    if |t| > 1 {
      LastStays(t[1..], now, ttl);
      assert t[1..][|t| - 2] == t[|t| - 1];
    }
  }

  /** The hello installs a pending session, the youngest of its table, and is answered. */
  lemma HelloInstalls(w: World, p: Plan, g: Setting)
    requires Inv(w.server, g.config) && Undisturbed(w, p, g)
    ensures var (s, r) := ServerStep(w.server, HelloArrival(p), g.stations, g.config);
            && r == Reaction(Some(ServerHello(Some(Agreed(p).reply))), None, Some(Agreed(p)), None)
            && s.pending.table != []
            && s.pending.table[|s.pending.table| - 1]
               == NewSession(p.addr, p.client.hello.station, SessionKeys(Agreed(p)), p.helloAt)
            && s.clock == p.helloAt && Inv(s, g.config)
  {
    SweptIsTidy(w.server, p.helloAt, g.config);
    ServerStepInv(w.server, HelloArrival(p), g.stations, g.config);
    hide Inv, Tidy, Swept, Blocks, Acceptable, RoomFor, Live, Offered;
  }

  /** The session is still there when the confirmation comes. */
  lemma PendingSurvives(s: State, p: Plan, c: Config)
    requires Inv(s, c) && s.clock <= p.confirmAt < p.helloAt + c.pendingTtl
    requires s.pending.table != []
    requires s.pending.table[|s.pending.table| - 1]
             == NewSession(p.addr, p.client.hello.station, SessionKeys(Agreed(p)), p.helloAt)
    ensures var t := Swept(s, p.confirmAt, c).pending.table;
            && Has(t, p.addr) && Id(t[Find(t, p.addr)]) == Identity(p.addr, p.client.hello.station, SessionKeys(Agreed(p)))
            && !Replayed(t, p.addr, p.first.nonce, p.confirmAt, c)
  {
    hide Agreed, Tidy, NoncesConserved, ReplaysOk, Sound, Sorted;
    SweptIsTidy(s, p.confirmAt, c);
    LastStays(s.pending.table, p.confirmAt, c.pendingTtl);
    var t := Swept(s, p.confirmAt, c).pending.table;
    FindIsUnique(t, p.addr, |t| - 1);
  }

  /** A live pending session without nonces is promoted by its confirmation. */
  lemma ConfirmationPromotes(s: State, p: Plan, stations: set<string>, c: Config)
    requires Inv(s, c) && s.clock <= p.confirmAt < p.helloAt + c.pendingTtl
    requires s.pending.table != []
    requires s.pending.table[|s.pending.table| - 1]
             == NewSession(p.addr, p.client.hello.station, SessionKeys(Agreed(p)), p.helloAt)
    ensures var r := ServerStep(s, ConfirmationArrival(p), stations, c).1;
            r == Reaction(Some(FinalPong(p)), None, None, Some(SessionKeys(Agreed(p))))
  {
    hide Inv, Tidy, Swept, Replayed, Promote, AcceptPending, SeePending, Touch, OnActiveData, Agreed;
    PendingSurvives(s, p, c);
    SweptIsTidy(s, p.confirmAt, c);
    SeenKeepsIdentity(Swept(s, p.confirmAt, c), p.addr, p.first.nonce, c);
    assert IsConfirmation(Ping(p.client.hello.station, CONFIRMATION_SEQUENCE, p.first.wall), p.client.hello.station);
  }

  // ------------------------------------------------------------------ the client's part

  lemma ClientPasses(p: Plan)
    requires p.first.now < p.startedAt + p.client.timeout && p.first.sends
    requires p.first.received == Packet(p.client.server, ServerHello(Some(Agreed(p).reply)))
    requires p.second.now < p.first.later + p.client.timeout
    requires p.second.received == Packet(p.client.server, FinalPong(p))
    ensures HandshakeStep(p.client, AwaitingHello(p.startedAt + p.client.timeout), p.first)
            == (AwaitingConfirmation(Agreed(p), p.first.later + p.client.timeout),
                [Confirmation(p.client, Agreed(p), p.first)])
    ensures HandshakeStep(p.client, AwaitingConfirmation(Agreed(p), p.first.later + p.client.timeout), p.second)
            == (Confirmed(Agreed(p)), [])
  {
    assert IsPong(Pong(p.client.hello.station, CONFIRMATION_SEQUENCE, p.pongWall), p.client.hello.station,
                  Some(CONFIRMATION_SEQUENCE));
  }

  // -------------------------------------------------------------------------- together

  function World1(w: World, p: Plan, g: Setting): World
    requires Can(w, Begin(p.client, p.config, p.startedAt))
  {
    Step(w, Begin(p.client, p.config, p.startedAt), g)
  }

  /** After the server has answered the hello. */
  lemma HelloTurn(w: World, p: Plan, g: Setting)
    requires Safe(w, g) && Can(w, Begin(p.client, p.config, p.startedAt)) && Undisturbed(w, p, g)
    ensures var v := World1(w, p, g);
            && Can(v, ServerTurn(HelloArrival(p)))
            && var u := Step(v, ServerTurn(HelloArrival(p)), g);
            && u.runs == v.runs && u.promoted == v.promoted && u.issued == v.issued[Agreed(p) := p.addr]
            && ServerHello(Some(Agreed(p).reply)) in u.sent
            && u.server == ServerStep(w.server, HelloArrival(p), g.stations, g.config).0
  {
    hide Safe, ServerStep, Acceptable, Blocks, Inv;
    SafeMeansInv(w, g);
    HelloInstalls(w, p, g);
  }

  lemma FirstPass(w: World, v: World, p: Plan, g: Setting)
    requires Undisturbed(w, p, g)
    requires ShakingAt(v, p, AwaitingHello(p.startedAt + p.client.timeout))
    requires ServerHello(Some(Agreed(p).reply)) in v.sent
    ensures Can(v, HandshakePass(p.client.hello, p.first))
    ensures var u := Step(v, HandshakePass(p.client.hello, p.first), g);
            && ShakingAt(u, p, AwaitingConfirmation(Agreed(p), p.first.later + p.client.timeout))
            && u.server == v.server && u.issued == v.issued && Confirmation(p.client, Agreed(p), p.first) in u.sent
  {
    ClientPasses(p);
    hide HandshakeStep, Acceptable, Blocks, Agreed, Confirmation;
  }

  lemma SecondPass(w: World, v: World, p: Plan, g: Setting)
    requires Undisturbed(w, p, g)
    requires ShakingAt(v, p, AwaitingConfirmation(Agreed(p), p.first.later + p.client.timeout)) && FinalPong(p) in v.sent
    ensures Can(v, HandshakePass(p.client.hello, p.second))
    ensures var u := Step(v, HandshakePass(p.client.hello, p.second), g);
            ShakingAt(u, p, Confirmed(Agreed(p))) && u.promoted == v.promoted
  {
    ClientPasses(p);
    hide HandshakeStep, Acceptable, Blocks, Agreed, Confirmation, FinalPong;
  }

  predicate ShakingAt(w: World, p: Plan, phase: Phase) {
    var h := p.client.hello;
    h in w.runs && w.runs[h].stage == Shaking(phase) && w.runs[h].client == p.client
  }

  /** After the server has seen the confirmation. */
  lemma ConfirmationTurn(w: World, v: World, p: Plan, g: Setting)
    requires Undisturbed(w, p, g)
    requires v.server.clock == p.helloAt && v.issued == w.issued[Agreed(p) := p.addr]
    requires Confirmation(p.client, Agreed(p), p.first) in v.sent
    requires ServerStep(v.server, ConfirmationArrival(p), g.stations, g.config).1
             == Reaction(Some(FinalPong(p)), None, None, Some(SessionKeys(Agreed(p))))
    ensures Can(v, ServerTurn(ConfirmationArrival(p)))
    ensures var u := Step(v, ServerTurn(ConfirmationArrival(p)), g);
            u.runs == v.runs && FinalPong(p) in u.sent && SessionKeys(Agreed(p)) in u.promoted
  {
    hide ServerStep, Acceptable, Blocks, FinalPong;
  }

  /**
   On an undisturbed network the five steps lead from any safe world to a client
   that returns keys and a server that has promoted them.
   */
  lemma HandshakeFinishes(w: World, p: Plan, g: Setting)
    requires Safe(w, g) && Can(w, Begin(p.client, p.config, p.startedAt)) && Undisturbed(w, p, g)
    ensures Feasible(w, Five(p), g)
    ensures var v := After(w, Five(p), g);
            && p.client.hello in v.runs && v.runs[p.client.hello].stage == Shaking(Confirmed(Agreed(p)))
            && SessionKeys(Agreed(p)) in v.promoted
  {
    hide Safe, Undisturbed, ServerStep, Can, Step, Agreed, FinalPong, Confirmation, World1, Feasible, After;
    SafeMeansInv(w, g);
    HelloInstalls(w, p, g);
    HelloTurn(w, p, g);
    InTime(w, p, g);
    var s := ServerStep(w.server, HelloArrival(p), g.stations, g.config).0;
    ConfirmationPromotes(s, p, g.stations, g.config);
    var w1 := World1(w, p, g);
    Begun(w, p, g);
    var w2 := Step(w1, ServerTurn(HelloArrival(p)), g);
    FirstPass(w, w2, p, g);
    var w3 := Step(w2, HandshakePass(p.client.hello, p.first), g);
    ConfirmationTurn(w, w3, p, g);
    var w4 := Step(w3, ServerTurn(ConfirmationArrival(p)), g);
    SecondPass(w, w4, p, g);
    var w5 := Step(w4, HandshakePass(p.client.hello, p.second), g);
    FiveSteps(w, p, g, w1, w2, w3, w4, w5);
  }

  lemma SafeMeansInv(w: World, g: Setting)
    requires Safe(w, g)
    ensures Inv(w.server, g.config)
  {
    hide Inv, SentSafe, RunSafe, AnswerSafe, DeliverySafe;
  }

  lemma InTime(w: World, p: Plan, g: Setting)
    requires Undisturbed(w, p, g)
    ensures p.helloAt <= p.confirmAt < p.helloAt + g.config.pendingTtl
  {
    hide Acceptable, Blocks;
  }

  lemma Begun(w: World, p: Plan, g: Setting)
    requires Can(w, Begin(p.client, p.config, p.startedAt))
    ensures World1(w, p, g) == Step(w, Begin(p.client, p.config, p.startedAt), g)
    ensures ShakingAt(World1(w, p, g), p, AwaitingHello(p.startedAt + p.client.timeout))
    ensures World1(w, p, g).issued == w.issued
  {
    hide NewHello;
  }

  lemma FiveSteps(w: World, p: Plan, g: Setting, w1: World, w2: World, w3: World, w4: World, w5: World)
    requires var e := Five(p);
             && Can(w, e[0]) && w1 == Step(w, e[0], g) && Can(w1, e[1]) && w2 == Step(w1, e[1], g)
             && Can(w2, e[2]) && w3 == Step(w2, e[2], g) && Can(w3, e[3]) && w4 == Step(w3, e[3], g)
             && Can(w4, e[4]) && w5 == Step(w4, e[4], g)
    ensures Feasible(w, Five(p), g) && After(w, Five(p), g) == w5
  {
    hide Can, Step;
    var e := Five(p);
    assert e[1..][1..] == e[2..] && e[2..][1..] == e[3..] && e[3..][1..] == e[4..] && e[4..][1..] == [];
    assert Feasible(w4, e[4..], g) && After(w4, e[4..], g) == w5;
    assert Feasible(w3, e[3..], g) && After(w3, e[3..], g) == w5;
    assert Feasible(w2, e[2..], g) && After(w2, e[2..], g) == w5;
    assert Feasible(w1, e[1..], g) && After(w1, e[1..], g) == w5;
  }
}
