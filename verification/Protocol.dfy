/**
 UDPSEC as a whole: one server (aismixer_secure.py), any number of client
 handshakes and sessions (nmea_sproxy/nmea_sproxy.py), and a network that drops,
 duplicates, reorders, redirects and adds datagrams.  A datagram once sent can be
 delivered to anybody, any number of times, from any source address.

 Cryptography is symbolic (Wire.dfy): what the network adds may be anything that
 needs neither the server's signature nor the session keys of a client run.
 */
module Protocol {
  import opened Common
  import opened AcceptanceLog
  import opened Wire
  import opened SessionTable
  import opened SecureModel
  import opened ServerModel
  import opened ServerMoves
  import opened ClientModel

  datatype Stage =
    | Shaking(phase: Phase)
    | Sending(session: Transcript, f: Forwarding)
    | Over

  /**
   One run of a client, from its ClientHello on; `bound` is the transcript it
   derived keys from, `pings` and `lines` what it sent under them, `accepted`
   the pongs it accepted.
   */
  datatype Run = Run(
    client: Client, config: ClientConfig, stage: Stage,
    bound: Option<Transcript>, pings: set<int>, lines: set<string>, accepted: seq<int>)

  /** `issued` has the address each transcript was issued to; `promoted` is in order of promotion. */
  datatype World = World(
    server: State, runs: map<Hello, Run>, sent: set<Datagram>,
    issued: map<Transcript, Address>, promoted: seq<Keys>,
    answered: set<(Key, int)>, delivered: set<(Key, string)>)

  datatype Event =
    | Begin(client: Client, config: ClientConfig, startedAt: int)
    | HandshakePass(hello: Hello, rx: Reception)
    | BeginSending(hello: Hello, now: int)
    | SendingTurn(hello: Hello, turn: Turn)
    | ServerTurn(arrival: Arrival)
    | NetworkAdds(datagram: Datagram)

  datatype Setting = Setting(config: Config, stations: set<string>)

  function InitialWorld(clock: int): World {
    World(Initial(clock), map[], {}, map[], [], {}, {})
  }

  // ------------------------------------------------------------------ what can happen

  function SealedUnder(d: Datagram): Option<Key> {
    match d
    case Data(Some((_, Sealed(key, _, _)))) => Some(key)
    case _ => None
  }

  predicate SignedByServer(d: Datagram) {
    d.ServerHello? && d.reply.Some? && d.reply.value.signature.Signature? && d.reply.value.signature.signer == Server
  }

  /** The random values of a new hello occur nowhere yet. */
  predicate NewHello(w: World, h: Hello) {
    && h !in w.runs
    && (forall t :: t in w.issued ==> t.hello != h)
    && (forall d :: d in w.sent && SealedUnder(d).Some? ==> SealedUnder(d).value.transcript.hello != h)
  }

  /** What the network may add by itself. */
  predicate Foreign(w: World, d: Datagram) {
    && !SignedByServer(d)
    && (SealedUnder(d).Some? ==> SealedUnder(d).value.transcript.hello !in w.runs)
  }

  predicate FromNetwork(w: World, rx: Reception) {
    rx.received.Packet? ==> rx.received.datagram in w.sent
  }

  predicate Can(w: World, e: Event) {
    match e
    case Begin(client, _, _) =>
      && NewHello(w, client.hello)
      && client.hello.signature == Signature(Station(client.hello.station), AuthDigest(client.hello))
      && client.hello.ephemeral.Share?
    case HandshakePass(h, rx) =>
      h in w.runs && w.runs[h].stage.Shaking? && Waiting(w.runs[h].stage.phase) && FromNetwork(w, rx)
    case BeginSending(h, _) => h in w.runs && w.runs[h].stage.Shaking? && w.runs[h].stage.phase.Confirmed?
    case SendingTurn(h, turn) =>
      h in w.runs && w.runs[h].stage.Sending? && (turn.packet.Some? ==> turn.packet.value.1 in w.sent)
    case ServerTurn(a) =>
      && a.datagram in w.sent && w.server.clock <= a.now
      && (forall t :: t in w.issued ==> t.reply.ephemeral != Share(a.ephemeral))
    case NetworkAdds(d) => Foreign(w, d)
  }

  // -------------------------------------------------------------------- what it does

  function Elements(s: seq<Datagram>): set<Datagram> {
    set d | d in s
  }

  function AfterPass(w: World, h: Hello, rx: Reception): World
    requires Can(w, HandshakePass(h, rx))
  {
    var run := w.runs[h];
    var (phase, sent) := HandshakeStep(run.client, run.stage.phase, rx);
    var bound := if phase.AwaitingConfirmation? then Some(phase.transcript) else run.bound;
    w.(runs := w.runs[h := run.(stage := Shaking(phase), bound := bound)], sent := w.sent + Elements(sent))
  }

  /** The pong number accepted in a turn, if any. */
  function Accepted(run: Run, turn: Turn): Option<int>
    requires run.stage.Sending?
  {
    var f := run.stage.f;
    var r := SessionExpirationReason(turn.now, f, run.config);
    if r.None? && turn.fault !in {PendingInputFails, SelectFails, ReceiveFails}
       && Heard(f, turn, SessionKeys(run.stage.session), run.client.hello.station, run.client.server) == Authenticated
    then f.expected else None
  }

  function LinesOf(lines: seq<(Nonce, string)>): set<string> {
    set l | l in lines :: l.1
  }

  function AfterTurn(w: World, h: Hello, turn: Turn): World
    requires Can(w, SendingTurn(h, turn))
  {
    var run := w.runs[h];
    var (t, f) := (run.stage.session, run.stage.f);
    var r := ForwardTurn(f, turn, SessionKeys(t), run.client.hello.station, run.client.server, run.config);
    var accepted := Accepted(run, turn);
    var next := run.(
      stage := if r.end.Some? then Over else Sending(t, r.f),
      pings := if r.f.next > f.next then run.pings + {f.next} else run.pings,
      lines := run.lines + LinesOf(turn.pendingLines) + LinesOf(turn.readyLines),
      accepted := if accepted.Some? then run.accepted + [accepted.value] else run.accepted);
    w.(runs := w.runs[h := next], sent := w.sent + Elements(r.sent))
  }

  /** The ping answered by a reply, under the session it was answered in. */
  function PongIn(r: Reaction): set<(Key, int)> {
    match r.reply
    case Some(Data(Some((_, Sealed(key, _, Decoded(json)))))) =>
      if json.Object? && json.Get("seq").Integer? then {(key, json.Get("seq").number)} else {}
    case _ => {}
  }

  /** The world after the server has moved to `server` with reaction `r`. */
  function AfterReaction(w: World, a: Arrival, server: State, r: Reaction): World {
    World(
      server, w.runs,
      w.sent + (if r.reply.Some? then {r.reply.value} else {}),
      if r.installed.Some? then w.issued[r.installed.value := a.from] else w.issued,
      if r.promoted.Some? then w.promoted + [r.promoted.value] else w.promoted,
      w.answered + PongIn(r),
      w.delivered + (if r.delivered.Some? && SealedUnder(a.datagram).Some?
                     then {(SealedUnder(a.datagram).value, r.delivered.value.1)} else {}))
  }

  function AfterServer(w: World, a: Arrival, g: Setting): World {
    var (server, r) := ServerStep(w.server, a, g.stations, g.config);
    AfterReaction(w, a, server, r)
  }

  function Step(w: World, e: Event, g: Setting): World
    requires Can(w, e)
  {
    match e
    case Begin(client, config, startedAt) =>
      var run := Run(client, config, Shaking(AwaitingHello(startedAt + client.timeout)), None, {}, {}, []);
      w.(runs := w.runs[client.hello := run], sent := w.sent + {ClientHello(Some(client.hello))})
    case HandshakePass(h, rx) => AfterPass(w, h, rx)
    case BeginSending(h, now) =>
      var run := w.runs[h];
      w.(runs := w.runs[h := run.(stage := Sending(run.stage.phase.transcript, StartForwarding(now)))])
    case SendingTurn(h, turn) => AfterTurn(w, h, turn)
    case ServerTurn(a) => AfterServer(w, a, g)
    case NetworkAdds(d) => w.(sent := w.sent + {d})
  }

  // ---------------------------------------------------------------------- what holds

  type Issued = map<Transcript, Address>

  /** The identities of transcripts issued and not yet promoted, and of the promoted ones. */
  function Awaiting(issued: Issued, promoted: seq<Keys>): set<Identity> {
    set t | t in issued && SessionKeys(t) !in promoted :: Identity(issued[t], t.hello.station, SessionKeys(t))
  }

  function Established(issued: Issued, promoted: seq<Keys>): set<Identity> {
    set t | t in issued && SessionKeys(t) in promoted :: Identity(issued[t], t.hello.station, SessionKeys(t))
  }

  predicate KeysDiffer(s: seq<Keys>, i: int, j: int)
    requires 0 <= i < |s| && 0 <= j < |s|
  {
    s[i] != s[j]
  }

  predicate NoKeysTwice(s: seq<Keys>) {
    forall i, j :: 0 <= i < j < |s| ==> KeysDiffer(s, i, j)
  }

  predicate ServerSafe(w: World, g: Setting) {
    && Inv(w.server, g.config)
    && Within(w.server.pending.table, Awaiting(w.issued, w.promoted))
    && Within(w.server.active.table, Established(w.issued, w.promoted))
    && NoKeysTwice(w.promoted)
    && (forall i :: 0 <= i < |w.promoted| ==> PromotedSafe(w, w.promoted[i]))
  }

  /** Promoted keys were issued, and a client run with their hello derived the same keys. */
  predicate PromotedSafe(w: World, keys: Keys) {
    var t := keys.clientToServer.transcript;
    && keys == SessionKeys(t) && t in w.issued
    && (t.hello in w.runs ==> w.runs[t.hello].bound == Some(t))
  }

  /** A request under `key`: a ping with a number in `pings`, or a line in `lines`. */
  predicate Requests(d: Datagram, key: Key, pings: set<int>, lines: set<string>) {
    && SealedUnder(d) == Some(key)
    && var p := d.content.value.1.plaintext;
    && p.Decoded? && p.json.Object?
    && (p.json.Get("type") == Text("ping") ==> p.json.Get("seq").Integer? && p.json.Get("seq").number in pings)
    && (p.json.Get("type") == Text("nmea") ==> p.json.Get("payload").Text? && p.json.Get("payload").text in lines)
  }

  /** A request sealed by the client run of `key`: a ping it sent, or a line it sent. */
  predicate RequestSafe(w: World, key: Key, d: Datagram)
    requires key.transcript.hello in w.runs
  {
    var run := w.runs[key.transcript.hello];
    run.bound == Some(key.transcript) && Requests(d, key, run.pings + {CONFIRMATION_SEQUENCE}, run.lines)
  }

  /** A message sealed by the server: only after promotion, and a pong only for the ping it answered. */
  predicate ResponseSafe(w: World, key: Key, p: Plaintext) {
    && SessionKeys(key.transcript) in w.promoted
    && p.Decoded? && p.json.Object? && p.json.Get("seq").Integer?
    && (key, p.json.Get("seq").number) in w.answered
  }

  predicate SentSafe(w: World, d: Datagram) {
    && (SignedByServer(d) ==>
          && d.reply.value.signature.digest.ServerAuth?
          && Transcript(d.reply.value.signature.digest.hello, d.reply.value) in w.issued)
    && (SealedUnder(d).Some? && SealedUnder(d).value.transcript.hello in w.runs ==>
          var key := SealedUnder(d).value;
          var plaintext := d.content.value.1.plaintext;
          if key.direction == ClientToServer then RequestSafe(w, key, d) else ResponseSafe(w, key, plaintext))
  }

  /** A ping was answered in a promoted session, and a client run of that session had sent it. */
  predicate AnswerSafe(w: World, key: Key, number: int) {
    var t := key.transcript;
    && SessionKeys(t) in w.promoted
    && (t.hello in w.runs ==>
          w.runs[t.hello].bound == Some(t) && number in w.runs[t.hello].pings + {CONFIRMATION_SEQUENCE})
  }

  predicate DeliverySafe(w: World, key: Key, line: string) {
    var t := key.transcript;
    && SessionKeys(t) in w.promoted
    && (t.hello in w.runs ==> w.runs[t.hello].bound == Some(t) && line in w.runs[t.hello].lines)
  }

  predicate Ascending(s: seq<int>) {
    forall i, j :: 0 <= i < j < |s| ==> s[i] < s[j]
  }

  predicate Increasing(s: seq<int>, below: int) {
    && Ascending(s)
    && (forall i :: 0 <= i < |s| ==> s[i] < below)
  }

  /** The session a stage works under, once keys are derived. */
  function SessionOf(stage: Stage): Option<Transcript> {
    match stage
    case Shaking(AwaitingConfirmation(t, _)) => Some(t)
    case Shaking(Confirmed(t)) => Some(t)
    case Sending(t, _) => Some(t)
    case _ => None
  }

  /** The peer has confirmed: keys have been returned by the handshake. */
  predicate HasKeys(stage: Stage) {
    stage.Sending? || (stage.Shaking? && stage.phase.Confirmed?)
  }

  /** An accepted pong: the run sent that ping, and the server answered it in the session of the run. */
  predicate AcceptedSafe(w: World, run: Run, number: int) {
    && run.bound.Some? && number in run.pings
    && (SessionKeys(run.bound.value).serverToClient, number) in w.answered
  }

  predicate RunSafe(w: World, h: Hello)
    requires h in w.runs
  {
    var run := w.runs[h];
    && run.client.hello == h
    && (run.stage.Shaking? && run.stage.phase.AwaitingHello? ==> run.bound.None?)
    && (SessionOf(run.stage).Some? ==>
          var t := SessionOf(run.stage).value; run.bound == Some(t) && t.hello == h && t in w.issued)
    && (HasKeys(run.stage) ==> SessionKeys(SessionOf(run.stage).value) in w.promoted)
    && (!run.stage.Sending? && !run.stage.Over? ==> run.accepted == [])
    && (run.stage.Over? ==> Ascending(run.accepted))
    && (run.bound.Some? ==> run.bound.value.hello == h)
    && (run.stage.Sending? ==>
          var f := run.stage.f;
          && f.next >= 1
          && (f.expected.Some? ==> 1 <= f.expected.value < f.next)
          && Increasing(run.accepted, if f.expected.Some? then f.expected.value else f.next))
    && (forall i :: 0 <= i < |run.accepted| ==> AcceptedSafe(w, run, run.accepted[i]))
  }

  predicate Safe(w: World, g: Setting) {
    && ServerSafe(w, g)
    && (forall d :: d in w.sent ==> SentSafe(w, d))
    && (forall x :: x in w.answered ==> AnswerSafe(w, x.0, x.1))
    && (forall x :: x in w.delivered ==> DeliverySafe(w, x.0, x.1))
    && (forall h :: h in w.runs ==> RunSafe(w, h))
  }

  // ------------------------------------------------------------- every step keeps it

  /** A client run only learns and only sends more. */
  predicate RunGrows(r: Run, later: Run) {
    && (r.bound.Some? ==> later.bound == r.bound)
    && r.pings <= later.pings && r.lines <= later.lines
  }

  predicate Grows(w: World, v: World) {
    && w.sent <= v.sent && w.answered <= v.answered && w.delivered <= v.delivered
    && (forall t :: t in w.issued ==> t in v.issued)
    && (forall k :: k in w.promoted ==> k in v.promoted)
    && (forall h :: h in w.runs ==> h in v.runs && RunGrows(w.runs[h], v.runs[h]))
    && (forall h :: h in v.runs && h !in w.runs ==> NewHello(w, h))
  }

  lemma PromotedStaysSafe(w: World, v: World, keys: Keys)
    requires Grows(w, v) && PromotedSafe(w, keys)
    ensures PromotedSafe(v, keys)
  {
    var t := keys.clientToServer.transcript;
    assert t in v.issued;
  }

  lemma IssuedOf(w: World, g: Setting, keys: Keys)
    requires ServerSafe(w, g) && keys in w.promoted
    ensures PromotedSafe(w, keys)
  {
    var i :| 0 <= i < |w.promoted| && w.promoted[i] == keys;
  }

  lemma SentStaysSafe(w: World, v: World, d: Datagram)
    requires Grows(w, v) && d in w.sent && SentSafe(w, d)
    ensures SentSafe(v, d)
  {
  }

  lemma AnswerStaysSafe(w: World, v: World, g: Setting, key: Key, number: int)
    requires ServerSafe(w, g) && Grows(w, v) && AnswerSafe(w, key, number)
    ensures AnswerSafe(v, key, number)
  {
    IssuedOf(w, g, SessionKeys(key.transcript));
  }

  lemma DeliveryStaysSafe(w: World, v: World, g: Setting, key: Key, line: string)
    requires ServerSafe(w, g) && Grows(w, v) && DeliverySafe(w, key, line)
    ensures DeliverySafe(v, key, line)
  {
    IssuedOf(w, g, SessionKeys(key.transcript));
  }

  /** A run that did not move stays safe while the world grows. */
  lemma RunStaysSafe(w: World, v: World, h: Hello)
    requires Grows(w, v) && h in w.runs && RunSafe(w, h) && v.runs[h] == w.runs[h]
    ensures RunSafe(v, h)
  {
    forall i | 0 <= i < |v.runs[h].accepted| ensures AcceptedSafe(v, v.runs[h], v.runs[h].accepted[i]) {
      assert AcceptedSafe(w, w.runs[h], w.runs[h].accepted[i]);
    }
  }

  /** To show a grown world safe, only what is new has to be looked at. */
  lemma OnlyTheNew(w: World, v: World, g: Setting)
    requires Safe(w, g) && Grows(w, v) && ServerSafe(v, g)
    requires forall d :: d in v.sent && d !in w.sent ==> SentSafe(v, d)
    requires forall x :: x in v.answered && x !in w.answered ==> AnswerSafe(v, x.0, x.1)
    requires forall x :: x in v.delivered && x !in w.delivered ==> DeliverySafe(v, x.0, x.1)
    requires forall h :: h in v.runs && (h !in w.runs || v.runs[h] != w.runs[h]) ==> RunSafe(v, h)
    ensures Safe(v, g)
  {
    forall d | d in v.sent ensures SentSafe(v, d) {
      if d in w.sent { SentStaysSafe(w, v, d); }
    }
    forall x | x in v.answered ensures AnswerSafe(v, x.0, x.1) {
      if x in w.answered { AnswerStaysSafe(w, v, g, x.0, x.1); }
    }
    forall x | x in v.delivered ensures DeliverySafe(v, x.0, x.1) {
      if x in w.delivered { DeliveryStaysSafe(w, v, g, x.0, x.1); }
    }
    forall h | h in v.runs ensures RunSafe(v, h) {
      if h in w.runs && v.runs[h] == w.runs[h] { RunStaysSafe(w, v, h); }
    }
  }

  /** The server part is untouched by client steps. */
  lemma ServerStaysSafe(w: World, v: World, g: Setting)
    requires ServerSafe(w, g) && Grows(w, v)
    requires v.server == w.server && v.issued == w.issued && v.promoted == w.promoted
    ensures ServerSafe(v, g)
  {
    forall i | 0 <= i < |v.promoted| ensures PromotedSafe(v, v.promoted[i]) {
      PromotedStaysSafe(w, v, v.promoted[i]);
    }
  }

  lemma BeginKeepsSafe(w: World, client: Client, config: ClientConfig, startedAt: int, g: Setting)
    requires Safe(w, g) && Can(w, Begin(client, config, startedAt))
    ensures Safe(Step(w, Begin(client, config, startedAt), g), g)
  {
    hide ServerSafe, AnswerSafe, DeliverySafe;
    var v := Step(w, Begin(client, config, startedAt), g);
    ServerStaysSafe(w, v, g);
    OnlyTheNew(w, v, g);
  }

  lemma NetworkKeepsSafe(w: World, d: Datagram, g: Setting)
    requires Safe(w, g) && Can(w, NetworkAdds(d))
    ensures Safe(Step(w, NetworkAdds(d), g), g)
  {
    hide ServerSafe, AnswerSafe, DeliverySafe;
    var v := Step(w, NetworkAdds(d), g);
    ServerStaysSafe(w, v, g);
    OnlyTheNew(w, v, g);
  }

  lemma BeginSendingKeepsSafe(w: World, h: Hello, now: int, g: Setting)
    requires Safe(w, g) && Can(w, BeginSending(h, now))
    ensures Safe(Step(w, BeginSending(h, now), g), g)
  {
    hide ServerSafe, AnswerSafe, DeliverySafe, SentSafe;
    var v := Step(w, BeginSending(h, now), g);
    assert RunSafe(w, h);
    ServerStaysSafe(w, v, g);
    OnlyTheNew(w, v, g);
  }

  /** A pass moves a run forward, and what it learns was learned from the server. */
  lemma PassOutcome(w: World, h: Hello, rx: Reception, g: Setting)
    requires Safe(w, g) && Can(w, HandshakePass(h, rx))
    ensures var v := AfterPass(w, h, rx);
            && RunGrows(w.runs[h], v.runs[h]) && RunSafe(v, h)
            && (forall d :: d in v.sent && d !in w.sent ==> SentSafe(v, d))
  {
    hide ServerSafe, AnswerSafe, DeliverySafe;
    assert RunSafe(w, h);
    assert rx.received.Packet? ==> SentSafe(w, rx.received.datagram);
  }

  lemma PassKeepsSafe(w: World, h: Hello, rx: Reception, g: Setting)
    requires Safe(w, g) && Can(w, HandshakePass(h, rx))
    ensures Safe(Step(w, HandshakePass(h, rx), g), g)
  {
    hide ServerSafe, AnswerSafe, DeliverySafe, SentSafe, RunSafe, HandshakeStep;
    var v := Step(w, HandshakePass(h, rx), g);
    PassOutcome(w, h, rx, g);
    ServerStaysSafe(w, v, g);
    OnlyTheNew(w, v, g);
  }

  lemma ForwardedRequests(
    key: Key, station: string, wall: int, lines: seq<(Nonce, string)>, pings: set<int>, all: set<string>, d: Datagram)
    requires d in Forwarded(key, station, wall, lines) && LinesOf(lines) <= all
    ensures Requests(d, key, pings, all)
  {
    var i :| 0 <= i < |lines| && d == Forwarded(key, station, wall, lines)[i];
    assert lines[i].1 in LinesOf(lines);
  }

  /** Everything a turn sends is a line it read or the ping of its next number. */
  lemma TurnRequests(run: Run, turn: Turn, d: Datagram)
    requires run.stage.Sending?
    ensures var (t, f) := (run.stage.session, run.stage.f);
            var r := ForwardTurn(f, turn, SessionKeys(t), run.client.hello.station, run.client.server, run.config);
            d in r.sent ==>
              Requests(d, SessionKeys(t).clientToServer, if r.f.next > f.next then {f.next} else {},
                       LinesOf(turn.pendingLines) + LinesOf(turn.readyLines))
  {
    var (t, f) := (run.stage.session, run.stage.f);
    var key := SessionKeys(t).clientToServer;
    var station := run.client.hello.station;
    var r := ForwardTurn(f, turn, SessionKeys(t), station, run.client.server, run.config);
    var pings := if r.f.next > f.next then {f.next} else {};
    var lines := LinesOf(turn.pendingLines) + LinesOf(turn.readyLines);
    if d in Forwarded(key, station, turn.wall, turn.pendingLines) {
      ForwardedRequests(key, station, turn.wall, turn.pendingLines, pings, lines, d);
    } else if d in Forwarded(key, station, turn.wall, turn.readyLines) {
      ForwardedRequests(key, station, turn.wall, turn.readyLines, pings, lines, d);
    }
  }

  lemma TurnNumbers(run: Run, turn: Turn)
    requires run.stage.Sending?
    ensures var (t, f) := (run.stage.session, run.stage.f);
            var r := ForwardTurn(f, turn, SessionKeys(t), run.client.hello.station, run.client.server, run.config);
            && r.f.next in {f.next, f.next + 1}
            && r.f.expected == (if r.f.next > f.next then Some(f.next)
                                else if Accepted(run, turn).Some? then None else f.expected)
  {
  }

  lemma IncreasingAppend(s: seq<int>, x: int, below: int)
    requires Increasing(s, x) && x < below
    ensures Increasing(s + [x], below)
  {
  }

  lemma IncreasingWider(s: seq<int>, x: int, below: int)
    requires Increasing(s, x) && x <= below
    ensures Increasing(s, below)
  {
  }

  /** An accepted pong is the expected one, and the server has answered that ping in this session. */
  lemma AcceptedIsAnswered(w: World, h: Hello, turn: Turn, g: Setting)
    requires Safe(w, g) && Can(w, SendingTurn(h, turn)) && Accepted(w.runs[h], turn).Some?
    ensures var n := Accepted(w.runs[h], turn).value;
            w.runs[h].stage.f.expected == Some(n) && AcceptedSafe(w, w.runs[h], n)
  {
    assert RunSafe(w, h);
    var d := turn.packet.value.1;
    assert SentSafe(w, d);
    var key := SessionKeys(w.runs[h].stage.session).serverToClient;
    assert SealedUnder(d) == Some(key);
    var n := Accepted(w.runs[h], turn).value;
    assert (key, n) in w.answered;
    assert AnswerSafe(w, key, n);
  }

  lemma TurnRunSafe(w: World, h: Hello, turn: Turn, g: Setting)
    requires Safe(w, g) && Can(w, SendingTurn(h, turn))
    ensures var v := AfterTurn(w, h, turn); RunGrows(w.runs[h], v.runs[h]) && RunSafe(v, h)
  {
    hide ServerSafe, AnswerSafe, DeliverySafe, SentSafe, ForwardTurn, Accepted;
    assert RunSafe(w, h);
    var v := AfterTurn(w, h, turn);
    var (run, next) := (w.runs[h], v.runs[h]);
    var f := run.stage.f;
    TurnNumbers(run, turn);
    var accepted := Accepted(run, turn);
    if accepted.Some? {
      AcceptedIsAnswered(w, h, turn, g);
      IncreasingAppend(run.accepted, accepted.value, f.next);
    }
    if f.expected.Some? { IncreasingWider(run.accepted, f.expected.value, f.next); }
    forall i | 0 <= i < |next.accepted| ensures AcceptedSafe(v, next, next.accepted[i]) {
      if i < |run.accepted| { assert AcceptedSafe(w, run, run.accepted[i]); }
    }
  }

  lemma TurnKeepsSafe(w: World, h: Hello, turn: Turn, g: Setting)
    requires Safe(w, g) && Can(w, SendingTurn(h, turn))
    ensures Safe(Step(w, SendingTurn(h, turn), g), g)
  {
    hide ServerSafe, AnswerSafe, DeliverySafe;
    var v := Step(w, SendingTurn(h, turn), g);
    TurnRunSafe(w, h, turn, g);
    assert RunSafe(w, h);
    forall d | d in v.sent && d !in w.sent ensures SentSafe(v, d) {
      TurnRequests(w.runs[h], turn, d);
    }
    ServerStaysSafe(w, v, g);
    OnlyTheNew(w, v, g);
  }

  /** Identities of unchanged or grown issue and promotion records. */
  lemma ServerGrowsSafe(w: World, v: World, g: Setting)
    requires ServerSafe(w, g) && Grows(w, v) && Inv(v.server, g.config)
    requires Within(v.server.pending.table, Awaiting(v.issued, v.promoted))
    requires Within(v.server.active.table, Established(v.issued, v.promoted))
    requires v.promoted == w.promoted
    ensures ServerSafe(v, g)
  {
    forall i | 0 <= i < |v.promoted| ensures PromotedSafe(v, v.promoted[i]) {
      PromotedStaysSafe(w, v, v.promoted[i]);
    }
  }

  /** A turn that moves no identity. */
  lemma StaysKeepsSafe(w: World, a: Arrival, t: State, r: Reaction, g: Setting)
    requires Safe(w, g) && Can(w, ServerTurn(a))
    requires Inv(t, g.config) && Quiet(r)
    requires Lands(Stays, a, r, Established(w.issued, w.promoted), Awaiting(w.issued, w.promoted), t)
    ensures Safe(AfterReaction(w, a, t, r), g)
  {
    hide Inv, RunSafe, AnswerSafe, DeliverySafe;
    var v := AfterReaction(w, a, t, r);
    ServerGrowsSafe(w, v, g);
    OnlyTheNew(w, v, g);
  }

  lemma IssueGrows(issued: Issued, promoted: seq<Keys>, t: Transcript, addr: Address)
    requires t !in issued && SessionKeys(t) !in promoted
    ensures Established(issued, promoted) <= Established(issued[t := addr], promoted)
    ensures Awaiting(issued, promoted) + {Identity(addr, t.hello.station, SessionKeys(t))}
            <= Awaiting(issued[t := addr], promoted)
  {
  }

  /** A pending session is installed under a transcript that did not exist before. */
  lemma EntersKeepsSafe(w: World, a: Arrival, t: State, r: Reaction, g: Setting)
    requires Safe(w, g) && Can(w, ServerTurn(a))
    requires Inv(t, g.config) && Installs(a, r, g.stations)
    requires Lands(Enters, a, r, Established(w.issued, w.promoted), Awaiting(w.issued, w.promoted), t)
    ensures Safe(AfterReaction(w, a, t, r), g)
  {
    hide AnswerSafe, DeliverySafe, Inv, RunSafe;
    var v := AfterReaction(w, a, t, r);
    var transcript := Transcript(a.datagram.hello.value, ServerReply(a.datagram.hello.value, a.random, a.ephemeral));
    assert transcript !in w.issued;
    assert SessionKeys(transcript) !in w.promoted by {
      if SessionKeys(transcript) in w.promoted { IssuedOf(w, g, SessionKeys(transcript)); }
    }
    IssueGrows(w.issued, w.promoted, transcript, a.from);
    ServerGrowsSafe(w, v, g);
    OnlyTheNew(w, v, g);
  }

  /** No other pending session holds the promoted keys: they were issued to one address. */
  lemma PromotedLeavesAwaiting(w: World, t: Table, id: Identity)
    requires Within(t, Awaiting(w.issued, w.promoted)) && !Has(t, id.addr) && id in Awaiting(w.issued, w.promoted)
    ensures Within(t, Awaiting(w.issued, w.promoted + [id.keys]))
  {
    forall i | 0 <= i < |t| ensures Id(t[i]) in Awaiting(w.issued, w.promoted + [id.keys]) {
      var transcript :| transcript in w.issued && SessionKeys(transcript) !in w.promoted
        && Id(t[i]) == Identity(w.issued[transcript], transcript.hello.station, SessionKeys(transcript));
      assert t[i].addr != id.addr;
    }
  }

  lemma PromotionGrows(issued: Issued, promoted: seq<Keys>, id: Identity)
    requires id in Awaiting(issued, promoted)
    ensures Established(issued, promoted) + {id} <= Established(issued, promoted + [id.keys])
    ensures id.keys !in promoted
    ensures id.keys == SessionKeys(id.keys.clientToServer.transcript) && id.keys.clientToServer.transcript in issued
  {
  }

  lemma NoKeysTwiceAppend(promoted: seq<Keys>, keys: Keys)
    requires NoKeysTwice(promoted) && keys !in promoted
    ensures NoKeysTwice(promoted + [keys])
  {
    forall i, j | 0 <= i < j < |promoted + [keys]| ensures KeysDiffer(promoted + [keys], i, j) {
      if j < |promoted| { assert KeysDiffer(promoted, i, j); }
    }
  }

  /** The confirmation was sealed by the client run of the hello, if there is one. */
  lemma PromotedByItsClient(w: World, a: Arrival, r: Reaction, g: Setting, id: Identity)
    requires Safe(w, g) && a.datagram in w.sent
    requires id in Awaiting(w.issued, w.promoted) && Promotes(a, r, id)
    ensures PromotedSafe(w, id.keys)
  {
    PromotionGrows(w.issued, w.promoted, id);
    assert SentSafe(w, a.datagram);
  }

  lemma PromotedServerSafe(w: World, v: World, g: Setting, id: Identity)
    requires ServerSafe(w, g) && Grows(w, v) && Inv(v.server, g.config)
    requires id in Awaiting(w.issued, w.promoted) && PromotedSafe(w, id.keys)
    requires v.issued == w.issued && v.promoted == w.promoted + [id.keys]
    requires Within(v.server.active.table, Established(w.issued, w.promoted) + {id})
    requires Within(v.server.pending.table, Awaiting(w.issued, w.promoted)) && !Has(v.server.pending.table, id.addr)
    ensures ServerSafe(v, g)
  {
    PromotionGrows(w.issued, w.promoted, id);
    PromotedLeavesAwaiting(w, v.server.pending.table, id);
    NoKeysTwiceAppend(w.promoted, id.keys);
    forall i | 0 <= i < |v.promoted| ensures PromotedSafe(v, v.promoted[i]) {
      PromotedStaysSafe(w, v, v.promoted[i]);
    }
  }

  /** A pong sealed under promoted keys, recorded as an answer. */
  lemma SealedPongSafe(v: World, keys: Keys, nonce: Nonce, station: string, number: int, wall: int)
    requires PromotedSafe(v, keys) && keys in v.promoted && (keys.serverToClient, number) in v.answered
    ensures SentSafe(v, SealedReply(keys, nonce, Pong(station, number, wall)))
  {
  }

  /** What a reply with a pong adds to the world. */
  lemma PongNews(w: World, a: Arrival, t: State, r: Reaction, keys: Keys, station: string, number: int)
    requires r.reply == Some(SealedReply(keys, a.nonce, Pong(station, number, a.wall)))
    requires var v := AfterReaction(w, a, t, r);
             PromotedSafe(v, keys) && keys in v.promoted && AnswerSafe(v, keys.serverToClient, number)
    ensures var v := AfterReaction(w, a, t, r);
            && (forall d :: d in v.sent && d !in w.sent ==> SentSafe(v, d))
            && (forall x :: x in v.answered && x !in w.answered ==> AnswerSafe(v, x.0, x.1))
  {
    var v := AfterReaction(w, a, t, r);
    assert PongIn(r) == {(keys.serverToClient, number)};
    SealedPongSafe(v, keys, a.nonce, station, number, a.wall);
  }

  lemma PromotedKeepsSafe(w: World, a: Arrival, t: State, r: Reaction, g: Setting, id: Identity)
    requires Safe(w, g) && Can(w, ServerTurn(a))
    requires id in Awaiting(w.issued, w.promoted)
    requires Inv(t, g.config) && Promotes(a, r, id)
    requires Lands(Promoted(id), a, r, Established(w.issued, w.promoted), Awaiting(w.issued, w.promoted), t)
    ensures Safe(AfterReaction(w, a, t, r), g)
  {
    hide Inv, RunSafe, DeliverySafe;
    var v := AfterReaction(w, a, t, r);
    PromotedByItsClient(w, a, r, g, id);
    PromotionGrows(w.issued, w.promoted, id);
    PromotedServerSafe(w, v, g, id);
    PromotedStaysSafe(w, v, id.keys);
    PongNews(w, a, t, r, id.keys, id.station, CONFIRMATION_SEQUENCE);
    OnlyTheNew(w, v, g);
  }

  /** What is answered or delivered was sealed by the client run of the session, if there is one. */
  lemma ServedForItsClient(w: World, a: Arrival, r: Reaction, g: Setting, id: Identity)
    requires Safe(w, g) && a.datagram in w.sent
    requires id in Established(w.issued, w.promoted) && Serves(a, r, id)
    ensures PromotedSafe(w, id.keys) && id.keys in w.promoted
    ensures var message := Classify(a.datagram.content.value.1.plaintext.json, id.station).value;
            if message.NumberedPing? then AnswerSafe(w, id.keys.serverToClient, message.number)
            else r.delivered.Some? ==> DeliverySafe(w, SealedUnder(a.datagram).value, r.delivered.value.1)
  {
    assert SentSafe(w, a.datagram);
    IssuedOf(w, g, id.keys);
  }

  /** A turn that moves no identity and answers a ping of an established session. */
  lemma PongKeepsSafe(
    w: World, a: Arrival, t: State, r: Reaction, g: Setting, id: Identity, number: int)
    requires Safe(w, g) && Inv(t, g.config)
    requires r == SILENT.(reply := Some(SealedReply(id.keys, a.nonce, Pong(id.station, number, a.wall))))
    requires PromotedSafe(w, id.keys) && id.keys in w.promoted && AnswerSafe(w, id.keys.serverToClient, number)
    requires Lands(Served(id), a, r, Established(w.issued, w.promoted), Awaiting(w.issued, w.promoted), t)
    ensures Safe(AfterReaction(w, a, t, r), g)
  {
    hide Inv, RunSafe, DeliverySafe, AnswerSafe;
    var v := AfterReaction(w, a, t, r);
    ServerGrowsSafe(w, v, g);
    PromotedStaysSafe(w, v, id.keys);
    AnswerStaysSafe(w, v, g, id.keys.serverToClient, number);
    PongNews(w, a, t, r, id.keys, id.station, number);
    OnlyTheNew(w, v, g);
  }

  /** A turn that moves no identity and delivers at most one line of an established session. */
  lemma LineKeepsSafe(w: World, a: Arrival, t: State, r: Reaction, g: Setting, id: Identity)
    requires Safe(w, g) && Inv(t, g.config)
    requires r.reply.None? && r.installed.None? && r.promoted.None?
    requires r.delivered.Some? && SealedUnder(a.datagram).Some? ==>
               DeliverySafe(w, SealedUnder(a.datagram).value, r.delivered.value.1)
    requires Lands(Served(id), a, r, Established(w.issued, w.promoted), Awaiting(w.issued, w.promoted), t)
    ensures Safe(AfterReaction(w, a, t, r), g)
  {
    hide Inv, RunSafe, AnswerSafe, SentSafe, DeliverySafe;
    var v := AfterReaction(w, a, t, r);
    ServerGrowsSafe(w, v, g);
    if r.delivered.Some? && SealedUnder(a.datagram).Some? {
      DeliveryStaysSafe(w, v, g, SealedUnder(a.datagram).value, r.delivered.value.1);
    }
    OnlyTheNew(w, v, g);
  }

  lemma ServedKeepsSafe(w: World, a: Arrival, t: State, r: Reaction, g: Setting, id: Identity)
    requires Safe(w, g) && Can(w, ServerTurn(a))
    requires id in Established(w.issued, w.promoted)
    requires Inv(t, g.config) && Serves(a, r, id)
    requires Lands(Served(id), a, r, Established(w.issued, w.promoted), Awaiting(w.issued, w.promoted), t)
    ensures Safe(AfterReaction(w, a, t, r), g)
  {
    ServedForItsClient(w, a, r, g, id);
    match Classify(a.datagram.content.value.1.plaintext.json, id.station)
    case Some(NumberedPing(number)) =>
      PongKeepsSafe(w, a, t, r, g, id, number);
    case Some(Nmea(_)) =>
      LineKeepsSafe(w, a, t, r, g, id);
  }

  lemma ServerTurnKeepsSafe(w: World, a: Arrival, g: Setting)
    requires Safe(w, g) && Can(w, ServerTurn(a))
    ensures Safe(Step(w, ServerTurn(a), g), g)
  {
    ServerStepInv(w.server, a, g.stations, g.config);
    var m := ServerStepMoves(
      w.server, a, g.stations, g.config, Established(w.issued, w.promoted), Awaiting(w.issued, w.promoted));
    var (t, r) := ServerStep(w.server, a, g.stations, g.config);
    match m
    case Stays => StaysKeepsSafe(w, a, t, r, g);
    case Enters => EntersKeepsSafe(w, a, t, r, g);
    case Promoted(id) => PromotedKeepsSafe(w, a, t, r, g, id);
    case Served(id) => ServedKeepsSafe(w, a, t, r, g, id);
  }

  /** Every step keeps the world safe. */
  lemma StepKeepsSafe(w: World, e: Event, g: Setting)
    requires Safe(w, g) && Can(w, e)
    ensures Safe(Step(w, e, g), g)
  {
    match e
    case Begin(client, config, startedAt) => BeginKeepsSafe(w, client, config, startedAt, g);
    case HandshakePass(h, rx) => PassKeepsSafe(w, h, rx, g);
    case BeginSending(h, now) => BeginSendingKeepsSafe(w, h, now, g);
    case SendingTurn(h, turn) => TurnKeepsSafe(w, h, turn, g);
    case ServerTurn(a) => ServerTurnKeepsSafe(w, a, g);
    case NetworkAdds(d) => NetworkKeepsSafe(w, d, g);
  }

  // ----------------------------------------------------------------- every whole run

  predicate Feasible(w: World, events: seq<Event>, g: Setting)
    decreases |events|
  {
    events == [] || (Can(w, events[0]) && Feasible(Step(w, events[0], g), events[1..], g))
  }

  function After(w: World, events: seq<Event>, g: Setting): World
    requires Feasible(w, events, g)
    decreases |events|
  {
    if events == [] then w else After(Step(w, events[0], g), events[1..], g)
  }

  lemma {:induction false} EveryRunIsSafe(w: World, events: seq<Event>, g: Setting)
    requires Safe(w, g) && Feasible(w, events, g)
    ensures Safe(After(w, events, g), g)
    decreases |events|
  {
    if events != [] {
      StepKeepsSafe(w, events[0], g);
      EveryRunIsSafe(Step(w, events[0], g), events[1..], g);
    }
  }

  lemma ReachableIsSafe(clock: int, events: seq<Event>, g: Setting)
    requires ValidConfig(g.config) && Feasible(InitialWorld(clock), events, g)
    ensures Safe(After(InitialWorld(clock), events, g), g)
  {
    InitialInv(clock, g.config);
    EveryRunIsSafe(InitialWorld(clock), events, g);
  }

  /**
   Agreement.  When a handshake has returned keys, the server has promoted a
   pending session holding these very keys; no keys are promoted twice; and
   whatever the server promoted for the hello of a client run are the keys that
   run derived.
   */
  lemma HandshakeAgreement(clock: int, events: seq<Event>, g: Setting)
    requires ValidConfig(g.config) && Feasible(InitialWorld(clock), events, g)
    ensures var w := After(InitialWorld(clock), events, g);
            && (forall h :: h in w.runs && HasKeys(w.runs[h].stage) ==>
                  var t := SessionOf(w.runs[h].stage).value; t.hello == h && SessionKeys(t) in w.promoted)
            && (forall i, j :: 0 <= i < j < |w.promoted| ==> w.promoted[i] != w.promoted[j])
            && (forall i :: 0 <= i < |w.promoted| ==>
                  var t := w.promoted[i].clientToServer.transcript;
                  t.hello in w.runs ==> w.runs[t.hello].bound == Some(t))
  {
    ReachableIsSafe(clock, events, g);
    var w := After(InitialWorld(clock), events, g);
    forall h | h in w.runs && HasKeys(w.runs[h].stage)
      ensures var t := SessionOf(w.runs[h].stage).value; t.hello == h && SessionKeys(t) in w.promoted
    {
      assert RunSafe(w, h);
    }
    forall i, j | 0 <= i < j < |w.promoted| ensures w.promoted[i] != w.promoted[j] {
      assert KeysDiffer(w.promoted, i, j);
    }
    forall i | 0 <= i < |w.promoted|
      ensures var t := w.promoted[i].clientToServer.transcript;
              t.hello in w.runs ==> w.runs[t.hello].bound == Some(t)
    {
      assert PromotedSafe(w, w.promoted[i]);
    }
  }

  /**
   Every pong a client accepts answers a ping it sent in that same session: the
   server answered that ping under the keys the run derived.  No pong is
   accepted twice, and the accepted numbers increase, also in the turn that
   ends the session.
   */
  lemma PongsAnswerPings(clock: int, events: seq<Event>, g: Setting, h: Hello)
    requires ValidConfig(g.config) && Feasible(InitialWorld(clock), events, g)
    requires h in After(InitialWorld(clock), events, g).runs
    ensures var w := After(InitialWorld(clock), events, g);
            var run := w.runs[h];
            && (forall n :: n in run.accepted ==>
                  && run.bound.Some? && run.bound.value.hello == h
                  && n in run.pings && (SessionKeys(run.bound.value).serverToClient, n) in w.answered)
            && (forall i, j :: 0 <= i < j < |run.accepted| ==> run.accepted[i] < run.accepted[j])
  {
    ReachableIsSafe(clock, events, g);
    var w := After(InitialWorld(clock), events, g);
    var run := w.runs[h];
    assert RunSafe(w, h);
    assert Ascending(run.accepted);
    forall n | n in run.accepted
      ensures AcceptedSafe(w, run, n)
    {
      assert AcceptedSafe(w, run, run.accepted[IndexOf(run.accepted, n)]);
    }
  }

  /** What the server delivers, and the pings it answers, under the keys of a client run came from that run. */
  lemma ServerOnlyServesClients(clock: int, events: seq<Event>, g: Setting, h: Hello)
    requires ValidConfig(g.config) && Feasible(InitialWorld(clock), events, g)
    requires h in After(InitialWorld(clock), events, g).runs
    ensures var w := After(InitialWorld(clock), events, g);
            && (forall x :: x in w.delivered && x.0.transcript.hello == h ==> x.1 in w.runs[h].lines)
            && (forall x :: x in w.answered && x.0.transcript.hello == h ==>
                  x.1 == CONFIRMATION_SEQUENCE || x.1 in w.runs[h].pings)
  {
    ReachableIsSafe(clock, events, g);
    var w := After(InitialWorld(clock), events, g);
    forall x | x in w.delivered && x.0.transcript.hello == h ensures x.1 in w.runs[h].lines {
      assert DeliverySafe(w, x.0, x.1);
    }
    forall x | x in w.answered && x.0.transcript.hello == h
      ensures x.1 == CONFIRMATION_SEQUENCE || x.1 in w.runs[h].pings
    {
      assert AnswerSafe(w, x.0, x.1);
    }
  }
}
