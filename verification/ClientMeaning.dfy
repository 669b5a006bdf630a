/**
 What the proxy (nmea_sproxy/nmea_sproxy.py) sends, accepts and ends with, said
 on the readings and inputs of a pass or turn alone.
 */
module ClientMeaning {
  import opened Common
  import opened Wire
  import opened SessionTable
  import opened ServerModel
  import opened ClientModel

  /** Nothing but a text message under a key, with a nonce of its own. */
  function Packaged(key: Key, nonce: Nonce, fields: map<string, Json>): Datagram {
    Data(Some((nonce, Sealed(key, nonce, Decoded(Object(fields))))))
  }

  function LinePacket(key: Key, station: string, wall: int, line: (Nonce, string)): Datagram {
    Packaged(key, line.0, map["type" := Text("nmea"), "payload" := Text(line.1),
                              "timestamp" := Integer(wall), "source_id" := Text(station)])
  }

  function PingPacket(key: Key, nonce: Nonce, station: string, wall: int, number: int): Datagram {
    Packaged(key, nonce, map["type" := Text("ping"), "seq" := Integer(number),
                             "timestamp" := Integer(wall), "source_id" := Text(station)])
  }

  /** One packet for every line, in order. */
  function LinePackets(key: Key, station: string, wall: int, lines: seq<(Nonce, string)>): seq<Datagram> {
    if lines == [] then []
    else [LinePacket(key, station, wall, lines[0])] + LinePackets(key, station, wall, lines[1..])
  }

  lemma {:induction false} ForwardedIsPackets(key: Key, station: string, wall: int, lines: seq<(Nonce, string)>)
    ensures Forwarded(key, station, wall, lines) == LinePackets(key, station, wall, lines)
  {
    if lines == [] {
    } else {
      ForwardedIsPackets(key, station, wall, lines[1..]);
      var (all, rest) := (Forwarded(key, station, wall, lines), Forwarded(key, station, wall, lines[1..]));
      assert forall i :: 0 < i < |lines| ==> all[i] == rest[i - 1];
      assert all == [LinePacket(key, station, wall, lines[0])] + rest;
    }
  }

  /** A datagram that opens under the key to a pong of this station with this number. */
  predicate IsSealedPong(d: Datagram, key: Key, station: string, number: int) {
    && d.Data? && d.content.Some?
    && var (nonce, sealed) := d.content.value;
    && sealed.Sealed? && sealed.key == key && sealed.nonce == nonce
    && sealed.plaintext.Decoded? && sealed.plaintext.json.Object?
    && var fields := sealed.plaintext.json.fields;
    && "type" in fields && fields["type"] == Text("pong")
    && "source_id" in fields && fields["source_id"] == Text(station)
    && "seq" in fields && fields["seq"] == Integer(number)
  }

  /** Only the server is listened to; only the expected pong authenticates it. */
  lemma PacketsAreJudged(d: Datagram, from: Address, server: Address, key: Key, station: string, expected: Option<int>)
    ensures HandleServerPacket(d, from, server, key, station, expected)
            == if from == server && d == NoSession then SessionUnknown
               else if from == server && expected.Some? && IsSealedPong(d, key, station, expected.value) then Authenticated
               else Ignored
  {
  }

  // ---------------------------------------------------------------------- a turn

  predicate PeerIsLate(f: Forwarding, turn: Turn, c: ClientConfig) {
    turn.now - f.lastPeer >= c.peerTimeout
  }

  predicate RefreshIsDue(f: Forwarding, turn: Turn, c: ClientConfig) {
    c.refresh > 0 && turn.now - f.startedAt >= c.refresh
  }

  predicate KeepaliveIsDue(f: Forwarding, turn: Turn, c: ClientConfig) {
    turn.later - f.lastPing >= c.keepalive
  }

  predicate NoSessionHeard(turn: Turn, server: Address) {
    turn.packet == Some((server, NoSession))
  }

  predicate PongHeard(f: Forwarding, turn: Turn, keys: Keys, station: string, server: Address) {
    && turn.packet.Some? && turn.packet.value.0 == server && f.expected.Some?
    && IsSealedPong(turn.packet.value.1, keys.serverToClient, station, f.expected.value)
  }

  /** After an accepted pong the peer was heard at that moment, and no pong is expected. */
  function AfterHearing(f: Forwarding, turn: Turn, keys: Keys, station: string, server: Address): Forwarding {
    if PongHeard(f, turn, keys, station, server)
    then Forwarding(f.startedAt, turn.authenticatedAt, f.lastPing, None, f.next) else f
  }

  lemma HeardMeans(f: Forwarding, turn: Turn, keys: Keys, station: string, server: Address)
    ensures Heard(f, turn, keys, station, server)
            == if NoSessionHeard(turn, server) then SessionUnknown
               else if PongHeard(f, turn, keys, station, server) then Authenticated else Ignored
  {
    if turn.packet.Some? {
      PacketsAreJudged(turn.packet.value.1, turn.packet.value.0, server, keys.serverToClient, station, f.expected);
    }
    hide HandleServerPacket, IsSealedPong;
  }

  /** Why a turn ends the session: a late peer before a planned refresh, failures in the order of the loop. */
  function EndOf(f: Forwarding, turn: Turn, server: Address, c: ClientConfig): Option<SessionEnd> {
    if PeerIsLate(f, turn, c) then Some(PeerTimeout)
    else if RefreshIsDue(f, turn, c) then Some(PlannedRefresh)
    else if turn.fault in {PendingInputFails, SelectFails, ReceiveFails} then Some(SocketError)
    else if NoSessionHeard(turn, server) then Some(NoSessionHint)
    else if turn.fault == ReadyInputFails || (turn.fault == PingFails && KeepaliveIsDue(f, turn, c)) then Some(SocketError)
    else None
  }

  lemma TurnsEndForAReason(f: Forwarding, turn: Turn, keys: Keys, station: string, server: Address, c: ClientConfig)
    ensures ForwardTurn(f, turn, keys, station, server, c).end == EndOf(f, turn, server, c)
  {
    hide Heard, NoSessionHeard, PongHeard, Forwarded;
    HeardMeans(f, turn, keys, station, server);
  }

  /**
   A turn that does not end the session sends the pending lines, then the lines
   that became ready, each under its own nonce and in order, and then one ping
   with the next number exactly if the keepalive is due.
   */
  lemma TurnsSendEverything(f: Forwarding, turn: Turn, keys: Keys, station: string, server: Address, c: ClientConfig)
    requires EndOf(f, turn, server, c).None?
    ensures var r := ForwardTurn(f, turn, keys, station, server, c);
            var key := keys.clientToServer;
            var lines := LinePackets(key, station, turn.wall, turn.pendingLines)
                         + LinePackets(key, station, turn.wall, turn.readyLines);
            var heard := AfterHearing(f, turn, keys, station, server);
            if KeepaliveIsDue(f, turn, c) then
              && r.sent == lines + [PingPacket(key, turn.nonce, station, turn.wall, f.next)]
              && r.f == Forwarding(f.startedAt, heard.lastPeer, turn.later, Some(f.next), f.next + 1)
            else r.sent == lines && r.f == heard
  {
    hide Heard, NoSessionHeard, PongHeard, Forwarded, LinePackets;
    HeardMeans(f, turn, keys, station, server);
    ForwardedIsPackets(keys.clientToServer, station, turn.wall, turn.pendingLines);
    ForwardedIsPackets(keys.clientToServer, station, turn.wall, turn.readyLines);
  }

  /** What has been sent, and what is known of the peer, when a turn ends the session. */
  lemma EndedTurnsSend(f: Forwarding, turn: Turn, keys: Keys, station: string, server: Address, c: ClientConfig)
    requires EndOf(f, turn, server, c).Some?
    ensures var r := ForwardTurn(f, turn, keys, station, server, c);
            var pending := LinePackets(keys.clientToServer, station, turn.wall, turn.pendingLines);
            var ready := LinePackets(keys.clientToServer, station, turn.wall, turn.readyLines);
            if PeerIsLate(f, turn, c) || RefreshIsDue(f, turn, c) || turn.fault == PendingInputFails then
              r.sent == [] && r.f == f
            else if turn.fault in {SelectFails, ReceiveFails} || NoSessionHeard(turn, server) then
              r.sent == pending && r.f == f
            else
              && r.f == AfterHearing(f, turn, keys, station, server)
              && r.sent == if turn.fault == ReadyInputFails then pending else pending + ready
  {
    hide Heard, NoSessionHeard, PongHeard, Forwarded, LinePackets;
    HeardMeans(f, turn, keys, station, server);
    ForwardedIsPackets(keys.clientToServer, station, turn.wall, turn.pendingLines);
    ForwardedIsPackets(keys.clientToServer, station, turn.wall, turn.readyLines);
  }

  /** Every line of a turn is among what it sends. */
  lemma {:induction false} LineIsAmong(key: Key, station: string, wall: int, lines: seq<(Nonce, string)>, i: nat)
    requires i < |lines|
    ensures LinePacket(key, station, wall, lines[i]) in LinePackets(key, station, wall, lines)
  {
    if i > 0 { LineIsAmong(key, station, wall, lines[1..], i - 1); }
  }

  // ---------------------------------------------------------------------- a pass

  /** A reply the server signed over this very hello, with a usable key. */
  predicate SignedOver(hello: Hello, reply: Reply) {
    reply.ephemeral.Share? && reply.signature == Signature(Server, ServerAuth(hello, reply.random, reply.ephemeral))
  }

  /** Waiting for the ServerHello: the first genuine one in time is confirmed by ping zero; everything else is passed over. */
  lemma HelloPassMeans(c: Client, deadline: int, rx: Reception)
    ensures var next := HandshakeStep(c, AwaitingHello(deadline), rx);
            if rx.now >= deadline || !rx.received.Packet? then next == (Failed, [])
            else if rx.received.from == c.server && rx.received.datagram.ServerHello?
                    && rx.received.datagram.reply.Some? && SignedOver(c.hello, rx.received.datagram.reply.value) then
              var t := Transcript(c.hello, rx.received.datagram.reply.value);
              next == if rx.sends
                      then (AwaitingConfirmation(t, rx.later + c.timeout),
                            [PingPacket(Key(t, ClientToServer), rx.nonce, c.hello.station, rx.wall, 0)])
                      else (Failed, [])
            else next == (AwaitingHello(deadline), [])
  {
  }

  /** Waiting for the confirmation: pong zero under the session's key ends the handshake, NOSESSION fails it. */
  lemma ConfirmationPassMeans(c: Client, t: Transcript, deadline: int, rx: Reception)
    ensures var (next, sent) := HandshakeStep(c, AwaitingConfirmation(t, deadline), rx);
            && sent == []
            && next ==
               if rx.now >= deadline || !rx.received.Packet? then Failed
               else if rx.received.from != c.server then AwaitingConfirmation(t, deadline)
               else if rx.received.datagram == NoSession then Failed
               else if IsSealedPong(rx.received.datagram, Key(t, ServerToClient), c.hello.station, 0) then Confirmed(t)
               else AwaitingConfirmation(t, deadline)
  {
    if rx.received.Packet? {
      PacketsAreJudged(rx.received.datagram, rx.received.from, c.server, Key(t, ServerToClient), c.hello.station, Some(0));
    }
    hide HandleServerPacket, IsSealedPong;
  }

  // ------------------------------------------------------------------- whole loops

  function Joined(parts: seq<seq<Datagram>>): seq<Datagram> {
    if parts == [] then [] else parts[0] + Joined(parts[1..])
  }

  /** Turn after turn, each from where the last one left off. */
  predicate TurnsFollow(
    states: seq<Forwarding>, sent: seq<seq<Datagram>>, turns: seq<Turn>, keys: Keys, station: string, server: Address,
    c: ClientConfig)
  {
    && |states| == |sent| + 1 && |sent| <= |turns|
    && forall i :: 0 <= i < |sent| ==>
         && TurnLeads(states[i], turns[i], states[i + 1], sent[i], keys, station, server, c)
         && (i + 1 < |sent| ==> EndOf(states[i], turns[i], server, c).None?)
  }

  predicate TurnLeads(
    f: Forwarding, turn: Turn, next: Forwarding, sent: seq<Datagram>, keys: Keys, station: string, server: Address,
    c: ClientConfig)
  {
    var r := ForwardTurn(f, turn, keys, station, server, c);
    next == r.f && sent == r.sent
  }

  /** The loop takes turn after turn up to the first that ends the session, and sends what they send. */
  lemma {:induction false} LoopTakesAllTurns(
    f: Forwarding, turns: seq<Turn>, keys: Keys, station: string, server: Address, c: ClientConfig)
    returns (states: seq<Forwarding>, sent: seq<seq<Datagram>>)
    ensures TurnsFollow(states, sent, turns, keys, station, server, c) && states[0] == f
    ensures var r := ForwardRun(f, turns, 0, keys, station, server, c);
            var n := |sent|;
            && r.sent == Joined(sent) && r.f == states[n]
            && r.end == (if n == 0 then None else EndOf(states[n - 1], turns[n - 1], server, c))
            && (r.end.None? ==> n == |turns|)
    decreases |turns|
  {
    hide ForwardTurn, EndOf, TurnsFollow;
    if turns == [] {
      states, sent := [f], [];
      NoTurns(f, turns, keys, station, server, c);
    } else {
      var r := ForwardTurn(f, turns[0], keys, station, server, c);
      TurnsEndForAReason(f, turns[0], keys, station, server, c);
      if r.end.Some? {
        states, sent := [f, r.f], [r.sent];
        LastTurn(f, turns, keys, station, server, c);
        assert sent[1..] == [] && Joined(sent) == r.sent + Joined([]) && r.sent + [] == r.sent;
      } else {
        var later, more := LoopTakesAllTurns(r.f, turns[1..], keys, station, server, c);
        RunOfRest(r.f, turns, keys, station, server, c);
        states, sent := [f] + later, [r.sent] + more;
        FollowingSizes(later, more, turns[1..], keys, station, server, c);
        OneTurnFirst(f, turns, later, more, keys, station, server, c);
        assert sent[1..] == more;
        assert more != [] ==>
                 states[|sent| - 1] == later[|more| - 1] && turns[|sent| - 1] == turns[1..][|more| - 1];
      }
    }
  }

  lemma NoTurns(f: Forwarding, turns: seq<Turn>, keys: Keys, station: string, server: Address, c: ClientConfig)
    ensures TurnsFollow([f], [], turns, keys, station, server, c)
  {
  }

  lemma LastTurn(f: Forwarding, turns: seq<Turn>, keys: Keys, station: string, server: Address, c: ClientConfig)
    requires turns != []
    ensures var r := ForwardTurn(f, turns[0], keys, station, server, c);
            TurnsFollow([f, r.f], [r.sent], turns, keys, station, server, c)
  {
    hide ForwardTurn;
    var r := ForwardTurn(f, turns[0], keys, station, server, c);
    assert [f, r.f][0] == f && [f, r.f][1] == r.f && [r.sent][0] == r.sent;
  }

  lemma FollowingSizes(
    states: seq<Forwarding>, sent: seq<seq<Datagram>>, turns: seq<Turn>, keys: Keys, station: string, server: Address,
    c: ClientConfig)
    requires TurnsFollow(states, sent, turns, keys, station, server, c)
    ensures |states| == |sent| + 1 && |sent| <= |turns|
  {
  }

  lemma OneTurnFirst(
    f: Forwarding, turns: seq<Turn>, later: seq<Forwarding>, more: seq<seq<Datagram>>,
    keys: Keys, station: string, server: Address, c: ClientConfig)
    requires turns != [] && TurnsFollow(later, more, turns[1..], keys, station, server, c)
    requires var r := ForwardTurn(f, turns[0], keys, station, server, c); later[0] == r.f && r.end.None?
    ensures var r := ForwardTurn(f, turns[0], keys, station, server, c);
            TurnsFollow([f] + later, [r.sent] + more, turns, keys, station, server, c)
  {
    hide ForwardTurn, EndOf;
    TurnsEndForAReason(f, turns[0], keys, station, server, c);
    var r := ForwardTurn(f, turns[0], keys, station, server, c);
    var (states, sent) := ([f] + later, [r.sent] + more);
    assert TurnLeads(f, turns[0], r.f, r.sent, keys, station, server, c);
    hide TurnLeads;
    forall i | 0 <= i < |sent|
      ensures TurnLeads(states[i], turns[i], states[i + 1], sent[i], keys, station, server, c)
      ensures i + 1 < |sent| ==> EndOf(states[i], turns[i], server, c).None?
    {
      if i > 0 {
        assert turns[1..][i - 1] == turns[i] && later[i - 1] == states[i] && later[i] == states[i + 1];
        assert more[i - 1] == sent[i];
      }
    }
  }

  lemma {:induction false} ShiftedRun(
    f: Forwarding, turns: seq<Turn>, i: nat, keys: Keys, station: string, server: Address, c: ClientConfig)
    requires turns != [] && i + 1 <= |turns|
    ensures ForwardRun(f, turns, i + 1, keys, station, server, c) == ForwardRun(f, turns[1..], i, keys, station, server, c)
    decreases |turns| - i
  {
    hide ForwardTurn;
    if i + 1 < |turns| {
      assert turns[1..][i] == turns[i + 1];
      ShiftedRun(ForwardTurn(f, turns[i + 1], keys, station, server, c).f, turns, i + 1, keys, station, server, c);
    }
  }

  lemma RunOfRest(f: Forwarding, turns: seq<Turn>, keys: Keys, station: string, server: Address, c: ClientConfig)
    requires turns != []
    ensures ForwardRun(f, turns, 1, keys, station, server, c) == ForwardRun(f, turns[1..], 0, keys, station, server, c)
  {
    ShiftedRun(f, turns, 0, keys, station, server, c);
  }

  /** Pass after pass, each from the phase the last one left. */
  predicate PassesFollow(phases: seq<Phase>, sent: seq<seq<Datagram>>, c: Client, script: seq<Reception>, from: nat) {
    && |phases| == |sent| + 1 && from + |sent| <= |script|
    && forall i :: 0 <= i < |sent| ==>
         Waiting(phases[i]) && (phases[i + 1], sent[i]) == HandshakeStep(c, phases[i], script[from + i])
  }

  /** The handshake goes on pass after pass until it has ended or nothing more is received. */
  lemma {:induction false} HandshakeTakesAllPasses(c: Client, phase: Phase, script: seq<Reception>, from: nat)
    returns (phases: seq<Phase>, sent: seq<seq<Datagram>>)
    requires from <= |script|
    ensures PassesFollow(phases, sent, c, script, from) && phases[0] == phase
    ensures var r := HandshakeRun(c, phase, script, from);
            && r.phase == phases[|sent|] && r.sent == Joined(sent) && r.read == from + |sent|
            && (Waiting(r.phase) ==> r.read == |script|)
    decreases |script| - from
  {
    hide HandshakeStep;
    if from == |script| || !Waiting(phase) {
      phases, sent := [phase], [];
    } else {
      var (next, out) := HandshakeStep(c, phase, script[from]);
      var later, more := HandshakeTakesAllPasses(c, next, script, from + 1);
      phases, sent := [phase] + later, [out] + more;
      assert sent[1..] == more;
      forall i | 0 <= i < |sent|
        ensures Waiting(phases[i]) && (phases[i + 1], sent[i]) == HandshakeStep(c, phases[i], script[from + i])
      {
        if i > 0 { assert later[i - 1] == phases[i] && later[i] == phases[i + 1]; }
      }
    }
  }
}
