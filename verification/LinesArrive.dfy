/**
 The purpose of the transport: a line that a client run forwards is delivered by
 the server as soon as its datagram arrives on the session of the run, whatever
 else happens before, between and after.
 */
module LinesArrive {
  import opened Common
  import opened AcceptanceLog
  import opened Wire
  import opened SessionTable
  import opened SecureModel
  import opened ServerModel
  import opened ServerMoves
  import opened ClientModel
  import opened Protocol
  import opened ServerMeaning
  import opened ClientMeaning

  /** Nothing that was sent or delivered is taken back. */
  lemma StepKeepsRecords(w: World, e: Event, g: Setting)
    requires Can(w, e)
    ensures w.sent <= Step(w, e, g).sent && w.delivered <= Step(w, e, g).delivered
  {
    hide Can, ServerStep, ForwardTurn, HandshakeStep;
  }

  lemma {:induction false} RunKeepsRecords(w: World, events: seq<Event>, g: Setting)
    requires Feasible(w, events, g)
    ensures w.sent <= After(w, events, g).sent && w.delivered <= After(w, events, g).delivered
    decreases |events|
  {
    hide Can, Step;
    if events != [] {
      StepKeepsRecords(w, events[0], g);
      RunKeepsRecords(Step(w, events[0], g), events[1..], g);
    }
  }

  /** The session of a run is alive at the server, and the nonce is new there. */
  predicate SessionOpen(w: World, t: Transcript, a: Arrival, nonce: Nonce, c: Config) {
    exists row :: row in w.server.active.table && AliveFor(row, t, a, nonce, c)
  }

  predicate AliveFor(row: Session, t: Transcript, a: Arrival, nonce: Nonce, c: Config) {
    && row.addr == a.from && row.keys == SessionKeys(t) && a.now - row.lastSeen < c.sessionTtl
    && !Blocks(row.nonces.log, nonce, a.now, c.nonceTtl, Some(c.nonceMax))
  }

  /** In a safe world no pending session has the keys of an active one, and the station is the one of the hello. */
  lemma OpenRowIsLive(w: World, t: Transcript, row: Session, a: Arrival, nonce: Nonce, g: Setting)
    requires Safe(w, g) && row in w.server.active.table && AliveFor(row, t, a, nonce, g.config)
    ensures LiveRow(w.server, a, row, g.config) && row.station == t.hello.station
  {
    hide Blocks, Inv, SentSafe, RunSafe, AnswerSafe, DeliverySafe;
    var i :| 0 <= i < |w.server.active.table| && w.server.active.table[i] == row;
    assert Id(row) in Established(w.issued, w.promoted);
    forall p | p in w.server.pending.table && p.addr == a.from
      ensures p.keys.clientToServer != row.keys.clientToServer
    {
      var j :| 0 <= j < |w.server.pending.table| && w.server.pending.table[j] == p;
      assert Id(p) in Awaiting(w.issued, w.promoted);
    }
  }

  lemma SafeMeansInv(w: World, g: Setting)
    requires Safe(w, g)
    ensures Inv(w.server, g.config)
  {
    hide Inv, SentSafe, RunSafe, AnswerSafe, DeliverySafe;
  }

  /** The turn that receives the line delivers it. */
  lemma ReceivedLineIsDelivered(
    w: World, t: Transcript, wall: int, line: (Nonce, string), a: Arrival, g: Setting)
    requires Safe(w, g) && Can(w, ServerTurn(a)) && a.allowed
    requires a.datagram == LinePacket(Key(t, ClientToServer), t.hello.station, wall, line)
    requires SessionOpen(w, t, a, line.0, g.config)
    ensures (Key(t, ClientToServer), line.1) in Step(w, ServerTurn(a), g).delivered
  {
    hide Safe, Inv, Blocks, ServerStep, LiveRow, AliveFor, Renewed;
    var row :| row in w.server.active.table && AliveFor(row, t, a, line.0, g.config);
    SafeMeansInv(w, g);
    OpenRowIsLive(w, t, row, a, line.0, g);
    var fields := map["type" := Text("nmea"), "payload" := Text(line.1),
                      "timestamp" := Integer(wall), "source_id" := Text(t.hello.station)];
    assert Carries(a, row, line.0, fields, g.config) by { OpenCarries(row, t, a, line.0, fields, g.config); }
    hide Carries;
    LinesAreDelivered(w.server, a, row, line.0, fields, line.1, g.stations, g.config);
    assert SealedUnder(a.datagram) == Some(Key(t, ClientToServer));
  }

  lemma OpenCarries(row: Session, t: Transcript, a: Arrival, nonce: Nonce, fields: map<string, Json>, c: Config)
    requires AliveFor(row, t, a, nonce, c) && a.allowed && row.station == t.hello.station
    requires a.datagram == Data(Some((nonce, Sealed(Key(t, ClientToServer), nonce, Decoded(Object(fields))))))
    requires "source_id" in fields && fields["source_id"] == Text(t.hello.station)
    ensures Carries(a, row, nonce, fields, c)
  {
    hide Blocks;
  }

  /** A turn of a run that goes on has sent every line it read. */
  lemma TurnSendsLine(w: World, h: Hello, turn: Turn, i: nat, g: Setting)
    requires Safe(w, g) && Can(w, SendingTurn(h, turn)) && i < |turn.pendingLines + turn.readyLines|
    requires EndOf(w.runs[h].stage.f, turn, w.runs[h].client.server, w.runs[h].config).None?
    ensures var t := w.runs[h].stage.session;
            && t.hello == h
            && LinePacket(Key(t, ClientToServer), h.station, turn.wall, (turn.pendingLines + turn.readyLines)[i])
               in Step(w, SendingTurn(h, turn), g).sent
  {
    hide ForwardTurn, EndOf, LinePackets, ServerSafe, SentSafe, AnswerSafe, DeliverySafe, AfterHearing, KeepaliveIsDue;
    assert RunSafe(w, h);
    var run := w.runs[h];
    var (t, f, key) := (run.stage.session, run.stage.f, Key(run.stage.session, ClientToServer));
    TurnsSendEverything(f, turn, SessionKeys(t), h.station, run.client.server, run.config);
    if i < |turn.pendingLines| {
      LineIsAmong(key, h.station, turn.wall, turn.pendingLines, i);
    } else {
      LineIsAmong(key, h.station, turn.wall, turn.readyLines, i - |turn.pendingLines|);
    }
  }

  /**
   From sending to delivery: a line read in a turn that does not end the session
   is delivered when its datagram reaches the server while the session of the run
   is alive there and the nonce is new, however much happens in between; and it
   stays delivered.
   */
  lemma SentLinesAreDelivered(
    w: World, h: Hello, turn: Turn, i: nat, middle: seq<Event>, a: Arrival, rest: seq<Event>, g: Setting)
    requires Safe(w, g) && Can(w, SendingTurn(h, turn)) && i < |turn.pendingLines + turn.readyLines|
    requires EndOf(w.runs[h].stage.f, turn, w.runs[h].client.server, w.runs[h].config).None?
    requires Feasible(Step(w, SendingTurn(h, turn), g), middle, g)
    requires var v := After(Step(w, SendingTurn(h, turn), g), middle, g);
             var t := w.runs[h].stage.session;
             var line := (turn.pendingLines + turn.readyLines)[i];
             && a.allowed && v.server.clock <= a.now && SessionOpen(v, t, a, line.0, g.config)
             && a.datagram == LinePacket(Key(t, ClientToServer), h.station, turn.wall, line)
             && forall x :: x in v.issued ==> x.reply.ephemeral != Share(a.ephemeral)
    ensures var v := After(Step(w, SendingTurn(h, turn), g), middle, g);
            && Can(v, ServerTurn(a))
            && (Feasible(Step(v, ServerTurn(a), g), rest, g) ==>
                  (Key(w.runs[h].stage.session, ClientToServer), (turn.pendingLines + turn.readyLines)[i].1)
                  in After(Step(v, ServerTurn(a), g), rest, g).delivered)
  {
    hide Safe, EndOf, Step, SessionOpen, LinePacket, Feasible, After;
    TurnSendsLine(w, h, turn, i, g);
    StepKeepsSafe(w, SendingTurn(h, turn), g);
    var u := Step(w, SendingTurn(h, turn), g);
    EveryRunIsSafe(u, middle, g);
    RunKeepsRecords(u, middle, g);
    var v := After(u, middle, g);
    ReceivedLineIsDelivered(v, w.runs[h].stage.session, turn.wall, (turn.pendingLines + turn.readyLines)[i], a, g);
    if Feasible(Step(v, ServerTurn(a), g), rest, g) {
      RunKeepsRecords(Step(v, ServerTurn(a), g), rest, g);
    }
  }
}
