/**
 The proxy side of UDPSEC (nmea_sproxy/nmea_sproxy.py): the handshake and the
 forwarding loop, one received packet or one loop turn at a time, and the loops
 themselves proved against these steps.  Sockets, clocks and random values are
 the fields of `Reception` and `Turn`.
 */
module ClientModel {
  import opened Common
  import opened Wire
  import opened SessionTable
  import opened ServerModel

  datatype Client = Client(hello: Hello, server: Address, timeout: int)

  datatype ClientConfig = ClientConfig(keepalive: int, peerTimeout: int, refresh: int)

  datatype PacketResult = Ignored | SessionUnknown | Authenticated

  datatype SessionEnd = PlannedRefresh | PeerTimeout | NoSessionHint | SocketError

  /** `handle_server_packet`. */
  function HandleServerPacket(
    d: Datagram, from: Address, server: Address, key: Key, station: string, expected: Option<int>): PacketResult
  {
    if from != server then Ignored
    else if d.NoSession? then SessionUnknown
    else match d
      case Data(Some((nonce, ciphertext))) =>
        (match Open(key, nonce, ciphertext)
         case Some(Decoded(j)) => if IsPong(j, station, expected) then Authenticated else Ignored
         case _ => Ignored)
      case _ => Ignored
  }

  predicate IsPong(j: Json, station: string, expected: Option<int>) {
    && j.Object? && j.Get("seq").Integer?
    && j.Get("type") == Text("pong") && j.Get("source_id") == Text(station)
    && expected == Some(j.Get("seq").number)
  }

  function SealedRequest(key: Key, nonce: Nonce, message: Json): Datagram {
    Data(Some((nonce, Sealed(key, nonce, Decoded(message)))))
  }

  function NmeaMessage(station: string, line: string, timestamp: int): Json {
    Object(map["type" := Text("nmea"), "payload" := Text(line),
               "timestamp" := Integer(timestamp), "source_id" := Text(station)])
  }

  // ---------------------------------------------------------------- the handshake

  datatype Received = Packet(from: Address, datagram: Datagram) | TimedOut | ReceiveError

  /**
   One pass of a receive loop: the clock reading before it, what was received,
   and the readings and random values used if it makes the client send.
   */
  datatype Reception = Reception(now: int, received: Received, sends: bool, later: int, wall: int, nonce: Nonce)

  datatype Phase =
    | AwaitingHello(deadline: int)
    | AwaitingConfirmation(transcript: Transcript, deadline: int)
    | Confirmed(transcript: Transcript)
    | Failed

  predicate Waiting(phase: Phase) {
    phase.AwaitingHello? || phase.AwaitingConfirmation?
  }

  /** A ServerHello signed by the server over this very ClientHello. */
  predicate GenuineReply(hello: Hello, reply: Reply) {
    reply.ephemeral.Share? && reply.signature == Signature(Server, ServerAuth(hello, reply.random, reply.ephemeral))
  }

  function Confirmation(c: Client, t: Transcript, rx: Reception): Datagram {
    SealedRequest(SessionKeys(t).clientToServer, rx.nonce, Ping(c.hello.station, CONFIRMATION_SEQUENCE, rx.wall))
  }

  /** One pass of either receive loop of `perform_handshake`: the next phase and what was sent. */
  function HandshakeStep(c: Client, phase: Phase, rx: Reception): (Phase, seq<Datagram>)
    requires Waiting(phase)
  {
    if phase.deadline - rx.now <= 0 || !rx.received.Packet? then (Failed, [])
    else if rx.received.from != c.server then (phase, [])
    else match phase
      case AwaitingHello(_) =>
        (match rx.received.datagram
         case ServerHello(Some(reply)) =>
           if !GenuineReply(c.hello, reply) then (phase, [])
           else if !rx.sends then (Failed, [])
           else
             var t := Transcript(c.hello, reply);
             (AwaitingConfirmation(t, rx.later + c.timeout), [Confirmation(c, t, rx)])
         case _ => (phase, []))
      case AwaitingConfirmation(t, _) =>
        (match HandleServerPacket(rx.received.datagram, rx.received.from, c.server,
                                  SessionKeys(t).serverToClient, c.hello.station, Some(CONFIRMATION_SEQUENCE))
         case Ignored => (phase, [])
         case SessionUnknown => (Failed, [])
         case Authenticated => (Confirmed(t), []))
  }

  datatype HandshakeResult = HandshakeResult(phase: Phase, sent: seq<Datagram>, read: nat)

  /** All passes, until the handshake ends or nothing more is received. */
  function HandshakeRun(c: Client, phase: Phase, script: seq<Reception>, i: nat): HandshakeResult
    requires i <= |script|
    decreases |script| - i
  {
    if i == |script| || !Waiting(phase) then HandshakeResult(phase, [], i) else
    var (next, sent) := HandshakeStep(c, phase, script[i]);
    var rest := HandshakeRun(c, next, script, i + 1);
    rest.(sent := sent + rest.sent)
  }

  lemma IdlePass(c: Client, phase: Phase, script: seq<Reception>, i: nat)
    requires i < |script| && Waiting(phase)
    ensures HandshakeStep(c, phase, script[i]) == (phase, []) ==>
              HandshakeRun(c, phase, script, i) == HandshakeRun(c, phase, script, i + 1)
  {
  }

  /** `perform_handshake`: one loop for the ServerHello, inside it one for the confirmation. */
  method PerformHandshake(c: Client, started: int, script: seq<Reception>) returns (r: HandshakeResult)
    ensures r == HandshakeRun(c, AwaitingHello(started + c.timeout), script, 0)
  {
    var deadline := started + c.timeout;
    var read := 0;
    while read < |script|
      invariant read <= |script|
      invariant HandshakeRun(c, AwaitingHello(deadline), script, 0)
                == HandshakeRun(c, AwaitingHello(deadline), script, read)
    {
      var rx := script[read];
      IdlePass(c, AwaitingHello(deadline), script, read);
      read := read + 1;
      if deadline - rx.now <= 0 || !rx.received.Packet? {
        return HandshakeResult(Failed, [], read);
      }
      if rx.received.from != c.server || !rx.received.datagram.ServerHello? || rx.received.datagram.reply.None? {
        continue;
      }
      var reply := rx.received.datagram.reply.value;
      if !GenuineReply(c.hello, reply) {
        continue;
      }
      if !rx.sends {
        return HandshakeResult(Failed, [], read);
      }
      var t := Transcript(c.hello, reply);
      var confirmation := Confirmation(c, t, rx);
      r := AwaitConfirmation(c, t, rx.later + c.timeout, script, read);
      return r.(sent := [confirmation]);
    }
    r := HandshakeResult(AwaitingHello(deadline), [], read);
  }

  method AwaitConfirmation(c: Client, t: Transcript, deadline: int, script: seq<Reception>, from: nat)
    returns (r: HandshakeResult)
    requires from <= |script|
    ensures r == HandshakeRun(c, AwaitingConfirmation(t, deadline), script, from) && r.sent == []
  {
    var read := from;
    while read < |script|
      invariant read <= |script|
      invariant HandshakeRun(c, AwaitingConfirmation(t, deadline), script, from)
                == HandshakeRun(c, AwaitingConfirmation(t, deadline), script, read)
    {
      var rx := script[read];
      read := read + 1;
      if deadline - rx.now <= 0 || !rx.received.Packet? {
        return HandshakeResult(Failed, [], read);
      }
      if rx.received.from != c.server {
        continue;
      }
      var result := HandleServerPacket(rx.received.datagram, rx.received.from, c.server,
                                       SessionKeys(t).serverToClient, c.hello.station, Some(CONFIRMATION_SEQUENCE));
      match result {
        case SessionUnknown => return HandshakeResult(Failed, [], read);
        case Authenticated => return HandshakeResult(Confirmed(t), [], read);
        case Ignored =>
      }
    }
    r := HandshakeResult(AwaitingConfirmation(t, deadline), [], read);
  }

  // ------------------------------------------------------------------- forwarding

  /** The local variables of `forward_loop`. */
  datatype Forwarding = Forwarding(startedAt: int, lastPeer: int, lastPing: int, expected: Option<int>, next: int)

  function StartForwarding(now: int): Forwarding {
    Forwarding(now, now, now, None, 1)
  }

  datatype Fault = Fine | PendingInputFails | SelectFails | ReceiveFails | ReadyInputFails | PingFails

  /** One turn of the loop: its clock readings, lines to forward with their nonces, a received packet, a failure. */
  datatype Turn = Turn(
    now: int, pendingLines: seq<(Nonce, string)>, packet: Option<(Address, Datagram)>, authenticatedAt: int,
    readyLines: seq<(Nonce, string)>, later: int, wall: int, nonce: Nonce, fault: Fault)

  function SessionExpirationReason(now: int, f: Forwarding, c: ClientConfig): Option<SessionEnd> {
    if now - f.lastPeer >= c.peerTimeout then Some(PeerTimeout)
    else if c.refresh > 0 && now - f.startedAt >= c.refresh then Some(PlannedRefresh)
    else None
  }

  function SessionPollTimeout(now: int, f: Forwarding, c: ClientConfig): int {
    var deadline := Min(f.lastPing + c.keepalive, f.lastPeer + c.peerTimeout);
    Max(0, (if c.refresh > 0 then Min(deadline, f.startedAt + c.refresh) else deadline) - now)
  }

  predicate PingDue(now: int, f: Forwarding, c: ClientConfig) {
    now - f.lastPing >= c.keepalive
  }

  predicate SomethingDue(now: int, f: Forwarding, c: ClientConfig) {
    PingDue(now, f, c) || SessionExpirationReason(now, f, c).Some?
  }

  /** The poll never sleeps past a deadline, and when it times out one has been reached. */
  lemma PollEndsAtTheNextDeadline(now: int, f: Forwarding, c: ClientConfig, later: int)
    requires now <= later
    ensures SomethingDue(later, f, c) <==> now + SessionPollTimeout(now, f, c) <= later
  {
  }

  datatype TurnResult = TurnResult(f: Forwarding, sent: seq<Datagram>, end: Option<SessionEnd>)

  function Forwarded(key: Key, station: string, wall: int, lines: seq<(Nonce, string)>): (sent: seq<Datagram>)
    ensures |sent| == |lines|
    ensures forall i :: 0 <= i < |lines| ==>
              sent[i] == SealedRequest(key, lines[i].0, NmeaMessage(station, lines[i].1, wall))
  {
    seq(|lines|, i requires 0 <= i < |lines| => SealedRequest(key, lines[i].0, NmeaMessage(station, lines[i].1, wall)))
  }

  /** The packet of the turn, if one was read. */
  function Heard(f: Forwarding, turn: Turn, keys: Keys, station: string, server: Address): PacketResult {
    if turn.packet.None? then Ignored
    else HandleServerPacket(
      turn.packet.value.1, turn.packet.value.0, server, keys.serverToClient, station, f.expected)
  }

  /** The rest of the turn, after the packet. */
  function Finish(f: Forwarding, sent: seq<Datagram>, turn: Turn, keys: Keys, station: string, c: ClientConfig): TurnResult {
    if turn.fault == ReadyInputFails then TurnResult(f, sent, Some(SocketError)) else
    var lines := sent + Forwarded(keys.clientToServer, station, turn.wall, turn.readyLines);
    if !PingDue(turn.later, f, c) then TurnResult(f, lines, None)
    else if turn.fault == PingFails then TurnResult(f, lines, Some(SocketError))
    else
      TurnResult(
        f.(expected := Some(f.next), next := f.next + 1, lastPing := turn.later),
        lines + [SealedRequest(keys.clientToServer, turn.nonce, Ping(station, f.next, turn.wall))], None)
  }

  /** One turn of `forward_loop`. */
  function ForwardTurn(
    f: Forwarding, turn: Turn, keys: Keys, station: string, server: Address, c: ClientConfig): TurnResult
  {
    var reason := SessionExpirationReason(turn.now, f, c);
    if reason.Some? then TurnResult(f, [], reason)
    else if turn.fault == PendingInputFails then TurnResult(f, [], Some(SocketError)) else
    var sent := Forwarded(keys.clientToServer, station, turn.wall, turn.pendingLines);
    if turn.fault in {SelectFails, ReceiveFails} then TurnResult(f, sent, Some(SocketError)) else
    match Heard(f, turn, keys, station, server)
    case SessionUnknown => TurnResult(f, sent, Some(NoSessionHint))
    case Authenticated => Finish(f.(lastPeer := turn.authenticatedAt, expected := None), sent, turn, keys, station, c)
    case Ignored => Finish(f, sent, turn, keys, station, c)
  }

  function AfterSending(sent: seq<Datagram>, rest: TurnResult): TurnResult {
    rest.(sent := sent + rest.sent)
  }

  function ForwardRun(
    f: Forwarding, turns: seq<Turn>, i: nat, keys: Keys, station: string, server: Address, c: ClientConfig): TurnResult
    requires i <= |turns|
    decreases |turns| - i
  {
    if i == |turns| then TurnResult(f, [], None) else
    var now := ForwardTurn(f, turns[i], keys, station, server, c);
    if now.end.Some? then now else
    AfterSending(now.sent, ForwardRun(now.f, turns, i + 1, keys, station, server, c))
  }

  /** The body of the loop of `forward_loop`. */
  method RunTurn(f: Forwarding, turn: Turn, keys: Keys, station: string, server: Address, c: ClientConfig)
    returns (r: TurnResult)
    ensures r == ForwardTurn(f, turn, keys, station, server, c)
  {
    var (lastPeer, lastPing, expected, next) := (f.lastPeer, f.lastPing, f.expected, f.next);
    var reason := SessionExpirationReason(turn.now, f, c);
    if reason.Some? {
      return TurnResult(f, [], reason);
    }
    if turn.fault == PendingInputFails {
      return TurnResult(f, [], Some(SocketError));
    }
    var sent := Forwarded(keys.clientToServer, station, turn.wall, turn.pendingLines);
    if turn.fault in {SelectFails, ReceiveFails} {
      return TurnResult(f, sent, Some(SocketError));
    }
    if turn.packet.Some? {
      var result := HandleServerPacket(
        turn.packet.value.1, turn.packet.value.0, server, keys.serverToClient, station, expected);
      if result.SessionUnknown? {
        return TurnResult(f, sent, Some(NoSessionHint));
      }
      if result.Authenticated? {
        lastPeer, expected := turn.authenticatedAt, None;
      }
    }
    if turn.fault == ReadyInputFails {
      return TurnResult(Forwarding(f.startedAt, lastPeer, lastPing, expected, next), sent, Some(SocketError));
    }
    sent := sent + Forwarded(keys.clientToServer, station, turn.wall, turn.readyLines);
    if turn.later - lastPing >= c.keepalive {
      if turn.fault == PingFails {
        return TurnResult(Forwarding(f.startedAt, lastPeer, lastPing, expected, next), sent, Some(SocketError));
      }
      sent := sent + [SealedRequest(keys.clientToServer, turn.nonce, Ping(station, next, turn.wall))];
      expected, next, lastPing := Some(next), next + 1, turn.later;
    }
    r := TurnResult(Forwarding(f.startedAt, lastPeer, lastPing, expected, next), sent, None);
  }

  /** `forward_loop`. */
  method ForwardLoop(started: int, turns: seq<Turn>, keys: Keys, station: string, server: Address, c: ClientConfig)
    returns (r: TurnResult)
    ensures r == ForwardRun(StartForwarding(started), turns, 0, keys, station, server, c)
  {
    var f := StartForwarding(started);
    var sent: seq<Datagram> := [];
    var i := 0;
    while i < |turns|
      invariant i <= |turns|
      invariant ForwardRun(StartForwarding(started), turns, 0, keys, station, server, c)
                == AfterSending(sent, ForwardRun(f, turns, i, keys, station, server, c))
    {
      var step := RunTurn(f, turns[i], keys, station, server, c);
      ghost var rest := ForwardRun(step.f, turns, i + 1, keys, station, server, c);
      assert sent + (step.sent + rest.sent) == (sent + step.sent) + rest.sent;
      sent, i := sent + step.sent, i + 1;
      if step.end.Some? {
        return step.(sent := sent);
      }
      f := step.f;
    }
    r := TurnResult(f, sent, None);
  }
}
