# AISMixer: a verified model

AISMixer receives AIS sentences, reassembles multipart messages, removes
duplicates, routes them and forwards them; UDPSEC is its authenticated UDP
transport. This project models the state machines that do this and proves what
they promise over whole runs.

`dafny verify dfyconfig.toml` checks everything.

## How it is built

- Parts of the program that change objects in place are classes and methods
  (`SecureState`, `ExpiringSet`, `Dedup`, `Assembler`, `Processor`, `Zones`,
  `ProcessingQueue`, `SerialFramer`, and the loops of `SecureServer`,
  `ClientModel`, `ControlFraming`, `Routing`, `NmeaScanner`). Each method's
  contract ties the new state to a function on values (`SecureModel`,
  `ServerModel`, `AssemblyModel`, `ProcessorModel`, `AcceptanceLog`, ...), and
  what the program promises is proved about these functions.
- What the steps do is said a second time, without these functions: on rows and
  keys (`ServerMeaning`), on what a turn reads (`ClientMeaning`), on stored
  fragments and the clock (`AssemblyMeaning`), on arrivals and the filter's log
  (`ProcessorMeaning`), on zones and routes (`PipelineRouting`), as bytes
  (`WireForms`). `LinesArrive` carries a line from a client's turn to delivery.
- Concurrency is interleaving. `Protocol` runs one server, any number of client
  runs and a network that drops, duplicates, reorders, redirects and invents
  datagrams. `Pipeline` interleaves readers, routing replacements, processor and
  egress; a step is what runs between two suspensions.
- Cryptography is symbolic (`Wire`): a ciphertext opens only under its key and
  nonce, a signature verifies only for its signer and digest, and random values
  of hellos and ephemeral keys are new.
- Clock readings, random values, datagrams and failures of sockets are
  parameters; the only assumption about clocks is that they never go back.
  Lifetimes are positive. Time is `int`; text is ASCII; a byte string is a string
  of characters below 256.

## Findings

- A target can be given the same message twice within the time-to-live when the
  routing moves between no table (global deduplication) and a table (per-target
  deduplication): the two kinds of record never meet. `Repetition` gives the run
  and proves that a change of mode is the exact condition.
- Section 12 of `BEHAVIORAL_CONTRACT.md` describes the routing snapshot as taken by the
  processor stage; the code binds it at ingress admission (aismixer.py:440-475,
  aismixer.py:498-513). The model follows the code.
- A completed multipart message whose smallest `c` is zero keeps it (the text
  "0"), while a single sentence with `c` zero gets the wall clock
  (`ProcessorLaws.CompletedTime`, `ProcessorLaws.SingleTime`).

## Model

| member | source | states |
|---|---|---|
| `Protocol.HandshakeAgreement` | nmea_sproxy/nmea_sproxy.py:512-697 | over every run of server, clients and hostile network: when a handshake has returned keys, the server has promoted a pending session holding exactly these keys; no keys are promoted twice; keys promoted for the hello of a client run are the keys that run derived |
| `Protocol.PongsAnswerPings` | nmea_sproxy/nmea_sproxy.py:768-818 | every pong a client accepts, also in the turn that ends the session, answers a ping it sent in that session and the server answered under the session's keys; accepted numbers strictly increase |
| `Protocol.ServerOnlyServesClients` | aismixer_secure.py:941-1083 | every line delivered and every ping answered under the keys of a client run was sent by that run |
| `Protocol.EveryRunIsSafe` | aismixer_secure.py:860-1083 | the joint invariant of server, clients and network survives every feasible sequence of steps |
| `HandshakeCompletes.HandshakeFinishes` | nmea_sproxy/nmea_sproxy.py:512-697 | from every safe world, on an undisturbed network within the deadlines and the clock window, five steps lead to a client that returns keys and a server that has promoted them |
| `ServerHistory.NoncesAreSpacedInEveryRun` | aismixer_secure.py:597-703 | over every run and across promotion: two acceptances of one nonce under the keys of one handshake are `data_nonce_ttl` apart or have `data_nonce_max_per_session` other acceptances of that handshake between them |
| `ServerHistory.ServiceNeedsAcceptance` | aismixer_secure.py:941-1083 | no promotion, delivery or encrypted answer happens without accepting the nonce of exactly that datagram under exactly these keys |
| `ServerHistory.HelloReplaysAreRefused` | aismixer_secure.py:415-430 | over every run, one digest and signature is answered twice only a replay lifetime apart or with a full store of other hellos between |
| `ServerModel.ServerStepInv` | aismixer_secure.py:860-1083 | every turn of the loop keeps: tables sorted with one session per address, retained nonces equal to the sum over all sessions, every counter balanced, replay store exact |
| `ServerModel.PromotionKeepsTheLog` | aismixer_secure.py:597-632 | promotion hands the nonce set of the pending session over unchanged |
| `ServerModel.AcceptanceIsLogged` | aismixer_secure.py:658-703 | accepting a nonce adds it to its session's log exactly if the log does not refuse it |
| `ServerMoves.ServerStepMoves` | aismixer_secure.py:860-1083 | a turn makes one of four moves: nothing, one new pending session for an acceptable signed hello, one promotion for a confirmation sealed under that session's keys, one service sealed under an active session's keys |
| `SecureServer.Handle` | aismixer_secure.py:860-1083 | the loop body on the session objects does exactly what the turn on values does, state and reaction; what the turn does is said by `ServerMeaning` on rows, keys and messages alone |
| `ServerMeaning.LinesAreDelivered` | aismixer_secure.py:1018-1100 | an allowed `nmea` message with a text payload, this station's `source_id`, sealed under the client-to-server key of the live active session at its address, with a nonce that session's log does not refuse and opening no pending session, is delivered as exactly (station, text), and the session is renewed |
| `ServerMeaning.PingsAreAnswered` | aismixer_secure.py:1018-1077 | such a ping numbered n > 0 is answered by the pong n of that station sealed under the server-to-client key, and nothing is delivered |
| `ServerMeaning.OthersAreRefused` | aismixer_secure.py:1018-1061 | every other message on such a session, or one with another `source_id`, gets no reaction and neither renews the session nor uses up its nonce |
| `ServerMeaning.ConfirmationsPromote` | aismixer_secure.py:955-1021 | a confirmation ping sealed under the pending session's key makes that session the active one at its address, with its nonces and the new one, last seen now, and is answered by pong zero |
| `ServerMeaning.NoSessionMeans` | aismixer_secure.py:941-951 | the no-session hint goes out exactly for allowed data from an address whose sessions, active and pending, have all expired |
| `ServerMeaning.HellosAreAnswered` | aismixer_secure.py:874-935 | a hello is answered, by a reply signed over exactly its transcript, if and only if it is within thirty seconds, of a known station, with a valid share, signed by that station over its fields, and not refused by the replay log |
| `ServerMeaning.UseKeepsAlive` | aismixer_secure.py:591-595 | a session used less than a lifetime ago survives every cleanup, however long ago it was created |
| `ServerMeaning.LiveMeans` | aismixer_secure.py:467-475 | a row survives the cleanup exactly if it was seen less than a lifetime ago |
| `ServerMeaning.RoomMeans` | aismixer_secure.py:523-556 | a new session replaces the one at its address, or else, in a full table, the one seen longest ago; all others stay |
| `LinesArrive.SentLinesAreDelivered` | aismixer_secure.py:1018-1100 | over every run of the protocol: each line a client sends in a turn of its session, whose datagram reaches the server while the session is live there, its nonce unrefused and no pending session opened by it, is delivered under the client's station |
| `SecureModel.CurrentNoncesBounded` | aismixer_secure.py:634-703 | retained nonces are at most (max_sessions + max_pending_sessions) * data_nonce_max_per_session |
| `SecureModel.ExpiredPrefixIsCleanup` | aismixer_secure.py:467-475 | removing active sessions from the front up to the first unexpired one removes exactly the expired ones |
| `SecureModel.ExpiredPrefixIsPendingCleanup` | aismixer_secure.py:477-485 | the same for pending sessions |
| `SecureModel.PromoteInv` | aismixer_secure.py:597-632 | promotion keeps order, uniqueness of addresses, the sum of nonces and all counter balances |
| `SecureState.SecureState.CleanupExpiredSessions` | aismixer_secure.py:467-475 | the scan that stops at the first unexpired session leaves exactly the live ones, with all counters |
| `SecureState.SecureState.InstallPendingSession` | aismixer_secure.py:523-556 | new pending session last, the one at its address replaced or the oldest of a full table evicted, nonces of removed sessions discarded |
| `SecureState.SecureState.PromotePendingSession` | aismixer_secure.py:597-632 | only the retained, live handle is promoted; the new active session owns the same nonce set object |
| `SecureState.SecureState.AcceptDataNonce` | aismixer_secure.py:658-678 | accepts only on the retained live session and only a nonce its set does not refuse, with all counters |
| `SecureState.SecureState.AcceptHandshakeReplay` | aismixer_secure.py:415-430 | accepts a replay key exactly if the replay log does not refuse it |
| `ExpiringSet.BoundedExpiringSet.Accept` | aismixer_secure.py:234-246 | accepts exactly when the key does not occur, unexpired, among the last `max_entries` acceptances, and reports what expired and what was evicted |
| `ExpiringSet.BoundedExpiringSet.Contains` | aismixer_secure.py:230-232 | answers as the acceptance log does |
| `ExpiringSet.BoundedExpiringSet.DiscardAll` | aismixer_secure.py:248-252 | reports exactly the retained entries |
| `AcceptanceLog.EveryRunIsSpaced` | aismixer_secure.py:196-252 | whatever arrives, acceptances of one key in the log are a lifetime apart or a capacity of others apart |
| `AcceptanceLog.RefusedIfTooClose` | aismixer_secure.py:221-246 | nothing is refused without need: an arrival is refused exactly if accepting it would break that spacing |
| `AcceptanceLog.EveryRunRefinesLog` | aismixer_secure.py:206-246 | over every run the bounded, lazily cleaned store accepts exactly what the unbounded log accepts |
| `AcceptanceLog.CleanedIsExact` | aismixer_secure.py:206-219 | cleanup by prefix scan removes exactly the expired entries |
| `ClientModel.PerformHandshake` | nmea_sproxy/nmea_sproxy.py:512-697 | the nested receive loops do what the step function does on every script of receptions |
| `ClientModel.ForwardLoop` | nmea_sproxy/nmea_sproxy.py:700-818 | the loop's deadlines, sequence numbers, sends and end are those of the turn function on every script; what a turn must send is said by `ClientMeaning` |
| `ClientMeaning.TurnsSendEverything` | nmea_sproxy/nmea_sproxy.py:740-818 | a turn that does not end sends the pending lines and then the ready lines, each sealed under the client-to-server key with its own nonce, in order, and behind them one ping with the next number exactly if the keepalive interval has passed; peer time and expected number move exactly on an authenticated pong or that ping |
| `ClientMeaning.EndedTurnsSend` | nmea_sproxy/nmea_sproxy.py:740-818 | what a turn that ends the session has sent by then, for every reason |
| `ClientMeaning.TurnsEndForAReason` | nmea_sproxy/nmea_sproxy.py:414-426 | the reason a turn ends, in its order: peer timeout, refresh, failure, no-session hint |
| `ClientMeaning.PacketsAreJudged` | nmea_sproxy/nmea_sproxy.py:381-412 | a packet is authenticated exactly if it is the expected pong from the server's address, sealed under the server-to-client key; the no-session hint counts only from that address |
| `ClientMeaning.LoopTakesAllTurns` | nmea_sproxy/nmea_sproxy.py:700-818 | the loop is these turns, one after the other up to the first that ends, and sends what they send |
| `ClientMeaning.HelloPassMeans` | nmea_sproxy/nmea_sproxy.py:556-630 | waiting for the server hello: in time, a reply from the server's address signed over exactly this hello is confirmed by ping zero under the new key; a timeout fails; everything else is passed over |
| `ClientMeaning.ConfirmationPassMeans` | nmea_sproxy/nmea_sproxy.py:630-697 | waiting for the confirmation: in time, pong zero of this station under the session's key ends the handshake; a no-session hint or a timeout fails it; everything else is passed over |
| `ClientModel.PollEndsAtTheNextDeadline` | nmea_sproxy/nmea_sproxy.py:414-442 | the poll timeout expires exactly when a ping, the peer timeout or a refresh is due |
| `Dedup.Deduplicator.IsUnique` | dedup.py:41-75 | False exactly when the same scope and message occurs, less than `ttl` ago, among the last `max_entries` acceptances since the last reset; the cache and its index stay consistent; accepted = expired + evicted + reset + current |
| `Dedup.Deduplicator.Reset` | dedup.py:77-82 | forgets all acceptances and reports how many were retained |
| `Dedup.Deduplicator.EvictOldestLive` | dedup.py:95-104 | evicts the oldest live record; the inconsistent-index error is unreachable |
| `AssemblyModel.LazyRefinesEager` | assembler.py:156-255 | for every timed sequence of feeds, with or without a limit on groups, statuses and sentences are those of an assembler that drops all expired groups before each feed |
| `AssemblyModel.DiscardsAreExact` | assembler.py:156-255 | the discarded keys are exactly the groups that ended by expiry, eviction or conflict; every other group is unchanged |
| `AssemblyModel.FeedFits` | assembler.py:333-343 | the number of groups never exceeds its limit |
| `AssemblyModel.CountingIsEnough` | assembler.py:233-246 | as many distinct ordinals within 1..n as n are all of 1..n |
| `AssemblyOrder.AnyOrderAssembles` | assembler.py:184-246 | fragments in any order, with exact repeats and any other feeds between, each new one in time and without eviction: pending or duplicate until the last, which completes with the lines in ordinal order |
| `Assembler.AIVDMAssembler.Feed` | assembler.py:132-255 | status, key, sentences, discarded keys in key order and the new groups are those of the model, whose answers `AssemblyMeaning` gives on stored fragments and clock; started groups = ended by reason + alive |
| `AssemblyMeaning.StatusMeans` | assembler.py:206-246 | on stored fragments and clock alone: conflict, duplicate, complete and pending, each if and only if the live group holds the ordinal with another text, with the same text, lacks only this one by count, or lacks more |
| `AssemblyMeaning.OwnGroupMeans` | assembler.py:206-255 | a conflict discards the group and yields no sentence; a duplicate leaves the group as it is; a pending fragment is added at the present time; a completed group is gone |
| `AssemblyMeaning.CompleteMeans` | assembler.py:233-246 | a completed message is the stored texts and the new one in the order of their ordinals |
| `AssemblyMeaning.OtherGroupsMean` | assembler.py:156-204 | every other group stays as it is or left because of its age or by eviction |
| `AssemblyMeaning.EvictionMeans` | assembler.py:333-343 | a live group is evicted exactly for a new group that finds as many live groups as allowed; it is the one with the oldest progress, among those the smallest key |
| `AssemblyMeaning.SingleMeans` | assembler.py:165-169 | a message of one part is its own text and touches no group |
| `AssemblyMeaning.InvalidMeans` | assembler.py:132-139 | without a fragment, or with an ordinal outside one to total, nothing happens |
| `AssemblyMeaning.LimitExceededMeans` | assembler.py:171-175 | a declared total beyond the limit is refused and touches no group |
| `Assembler.AIVDMAssembler.CapacityVictim` | assembler.py:333-343 | the victim made progress least recently, ties by key order |
| `Assembler.AIVDMAssembler.Reset` | assembler.py:273-278 | all keys are reported in order and counted |
| `Processor.PythonDataPlaneProcessor.Process` | core/python_data_plane.py:158-369 | the loop with its three context dictionaries returns the outputs of the reference model, in which metadata is computed from the arrivals of the key's present generation; what each output carries is said by `ProcessorMeaning` |
| `ProcessorMeaning.CompletedMessage` | core/python_data_plane.py:241-359 | the outputs of a completed message: all its lines in order under the least valid `c` of its own generation (else the wall clock), the one group id the generation agrees on (else the new one), one source name, to the targets of `GoesTo` |
| `ProcessorMeaning.SingleMessage` | core/python_data_plane.py:183-188 | the same for a message of one part, with its own `c`, group id and `s` |
| `ProcessorMeaning.OthersSendNothing` | core/python_data_plane.py:211-217 | a sentence that neither completes a message nor is one sends nothing and leaves the filter |
| `ProcessorMeaning.EmissionMeans` | core/python_data_plane.py:289-359 | globally all targets or nobody, by the filter's log; per target exactly those not refused when it is their turn, in order, among them every target the log did not refuse to begin with |
| `ProcessorMeaning.SourceIsChosen` | core/s_policy.py:140-153 | the source is the station, else the alias or without one the message's `s`, unless that is ANONYMOUS, else the `s` in front of the frame, else the address, else ANONYMOUS |
| `ProcessorMeaning.SanitizeMeans` | core/s_policy.py:8-11 | a source name is the text without surrounding spaces, unsafe characters replaced, cut to fifteen |
| `ProcessorMeaning.FrameSendsAll` | core/python_data_plane.py:158-369 | a frame sends what its sentences send, one after the other |
| `Processor.PythonDataPlaneProcessor.Reset` | core/python_data_plane.py:391-418 | assembler, filter and contexts are emptied and counted |
| `ProcessorLaws.EndedGenerationsAreForgotten` | core/python_data_plane.py:190-248 | after a discard or completion nothing of the old generation is left; a new one starts with the present sentence; all others keep theirs |
| `ProcessorLaws.ContextsWithinGroups` | core/python_data_plane.py:190-239 | the keys of the s, c and gid contexts are keys of live groups |
| `ProcessorLaws.CompletedTime` | core/python_data_plane.py:252-262 | with preservation on, the time of a completed message is the smallest valid `c` of its own generation |
| `ProcessorLaws.CompletedTimeWithoutC` | core/python_data_plane.py:252-262 | without a valid `c` it is the wall clock |
| `ProcessorLaws.SingleTime` | core/python_data_plane.py:183-188 | the time of a single sentence |
| `ProcessorLaws.CompletedGroupId` | core/python_data_plane.py:264-280 | the group id is preserved exactly if the generation saw one distinct value |
| `ProcessorLaws.PartsStayTogether` | core/python_data_plane.py:322-359 | all lines of a message go out in order, each with its place, to one common tuple of targets |
| `ProcessorLaws.CompleteHasAllLines` | assembler.py:233-246 | a completed message has as many lines as declared |
| `ProcessorLaws.EveryRunIsRecorded` | core/python_data_plane.py:289-359 | over every run the filter's log is exactly what was sent, in order |
| `Repetition.NothingTwiceWithinLifetime` | core/python_data_plane.py:296-314 | no target is given one message twice within the time-to-live in any run with the given modes, if and only if the mode never changes |
| `Repetition.RepeatsAreApart` | core/python_data_plane.py:296-314 | in every run, two sendings of one message to one target under one mode are a time-to-live apart |
| `Repetition.SwitchingRepeats` | aismixer.py:453-470 | the run that sends a line to a target twice at once after a change of mode |
| `ProcessingQueue.PermitMeansRoom` | aismixer.py:340-363 | a free or handed-over permit means a free slot |
| `ProcessingQueue.BlocksBalance` | aismixer.py:340-371 | free permits, handed-over permits and queued items always add up to the capacity |
| `ProcessingQueue.BoundedProcessingQueue.BeginAdmit` | aismixer.py:340-363 | without suspension the item takes a free permit and is enqueued at once; otherwise the reader joins the line; counters stay balanced |
| `ProcessingQueue.BoundedProcessingQueue.ResumeAdmit` | aismixer.py:340-363 | binding and enqueueing follow the permit in one step, and the next waiter is woken if there are permits |
| `ProcessingQueue.BoundedProcessingQueue.Get` | aismixer.py:365-371 | the first item leaves and its permit goes to the first waiter |
| `ProcessingQueue.RoutingState.Replace` | core/routing_state.py:48-70 | generations go up by one; a stale expectation or a table without plan changes nothing |
| `Pipeline.PermitsMeanRoom` | aismixer.py:340-363 | in every interleaving, `put_nowait` after a permit never finds the queue full |
| `Pipeline.GenerationsNeverDecrease` | aismixer.py:440-513 | in every interleaving, admitted items carry non-decreasing generations and are bound to the snapshot of their generation; what that binding is, `PipelineRouting.AdmittedAreRouted` says |
| `PipelineRouting.AdmittedAreRouted` | aismixer.py:440-475 | in every interleaving: an item bound to a generation without table is global with the legacy targets; with a compiled table it is per target, to exactly the numbers of the targets named by routes whose zone holds the frame's source, each once, in the order in which they are first named |
| `PipelineRouting.AdmissionUsesPresentRouting` | aismixer.py:498-513 | an admission binds one frame to the routing in force at that step, and only an accepted replacement changes the routing |
| `Pipeline.InputsKeepTheirOrder` | aismixer.py:498-513 | in every interleaving, the frames of each input are admitted, held or waiting in their order, none lost or repeated |
| `Pipeline.DispatchFollowsAdmission` | aismixer.py:539-629 | in every interleaving, what was sent is a prefix of the outputs of the admitted items processed in order of admission, and all of them whenever the processor is ready for the next item |
| `Pipeline.EgressHasRoom` | aismixer.py:539-570 | the completion barrier keeps at most one batch under way; the egress queue is empty whenever a batch is put |
| `Pipeline.NeverStuck` | aismixer.py:340-629 | in every reachable state with capacities of at least one, all work is done or the pipeline can make a step: no wakeup is lost |
| `Pipeline.ComesToRest` | aismixer.py:340-629 | left alone the pipeline drains, and then every arrived frame was admitted and every output sent |
| `Zones.ZoneResolver.ResolveZones` | core/routing.py:255-298 | succeeds exactly when every zone has one expression, every reference is defined and the reference graph is acyclic; the result is the unique solution of the set equations; a reported cycle is a real cycle |
| `Zones.FullMemoSolves` | core/routing.py:255-298 | a full memo is the only solution |
| `Zones.ApplyMeans` | core/routing.py:387-401 | union, intersection and difference as folded by the code have their set meaning |
| `Routing.FreezeTargetIds` | core/target_identity.py:13-52 | accepts exactly mappings of non-empty names to distinct non-negative numbers, and returns that injective map |
| `Routing.MatchRoutes` | core/routing.py:301-331 | names of all matching routes, and their targets in first-occurrence order |
| `Routing.MatchingNamesMeans` | core/routing.py:301-331 | the matching names are those of the routes whose zone holds the source, in order |
| `Routing.CompileTargetIds` | core/routing.py:153-191 | the numeric plan is the routes mapped through the frozen ids; fails exactly on bad identities or unknown names |
| `PipelineRouting.CompilationCompiles` | core/routing.py:153-191 | such a plan gives every route the sources of its zone and the numbers of its targets, one by one |
| `Routing.MatchTargetIds` | core/routing.py:193-216 | first occurrences of the planned numbers |
| `PipelineRouting.MatchIsRoutedTo` | core/routing.py:193-216 | on a plan compiled from zones, routes and ids, the match is exactly the numbers of the named targets in order of first naming |
| `Routing.PlanRefinesNames` | core/routing.py:153-216 | for every source the numeric match is the name match mapped through the ids, same order, no repeats |
| `Routing.FirstOccurrencesMeans` | core/routing.py:301-331 | first occurrences: same elements, no repeats, in order of first appearance |
| `NmeaScanner.ScanFindsAll` | core/nmea_scanner.py:32-49 | the scan returns ordered, disjoint matches, and a match begins nowhere outside them |
| `NmeaScanner.MatchIsShortest` | core/nmea_scanner.py:6-12 | a match is the shortest sentence at its place |
| `NmeaScanner.ScanNmeaSentences` | core/nmea_scanner.py:32-60 | the loop collects these spans, each with its adjacent TAG block |
| `TagBlock.OutputIsReadBack` | meta_writer.py:12-46 | scanning a built output finds exactly the line, right behind its TAG block; the reader recovers c, s and g of a first or single part and only g of a later part |
| `TagBlock.PartsAreReadBack` | core/output_builder.py:10-29 | every part of a message the processor sends is read back: its line, place, group id, and with the first part source and time |
| `TagBlock.ParseTagMetadata` | core/parsed_sentence.py:146-187 | the loop over the pairs keeps the last value of each key |
| `NmeaScanner.ScannedLines` | core/nmea_scanner.py:32-49 | the text of every span found is one whole match by itself, wherever it was found |
| `TagBlock.NmeaChecksum` | meta_writer.py:5-9 | the loop computes the two hex digits of the exclusive or of all characters |
| `WireForms.ChecksumIsParity` | meta_writer.py:5-9 | each bit of the checksum tells whether an odd number of characters has it |
| `WireForms.TwoHexMeans` | meta_writer.py:5-9 | the two digits are upper-case hexadecimal, the high one first |
| `WireForms.OutputMeans` | meta_writer.py:12-46 | the exact bytes of every output: TAG block with its fields in order, checksum, line, CRLF; a line with fewer than four fields goes out bare |
| `TagBlock.ChecksumDetects` | meta_writer.py:5-9 | continuing the sum over content and checksum gives zero exactly for the written checksum |
| `HandshakeCodec.ClientHelloCodec` | core/udpsec_protocol.py:170-228 | a packet parses to a hello exactly if the hello is valid and the packet is the one built for it |
| `HandshakeCodec.ServerHelloCodec` | core/udpsec_protocol.py:231-265 | the same for ServerHello |
| `WireForms.HellosMean` | core/udpsec_protocol.py:170-265 | the exact text of both hello packets, fields in order |
| `Decimal.TimestampsAreExact` | core/udpsec_protocol.py:142-167 | accepted are exactly the canonical decimals of 0..2^64-1 |
| `Decimal.LexIsNumeric` | core/udpsec_protocol.py:152-160 | on equal-length digit strings text order is numeric order |
| `Base64.FieldsAreExact` | core/udpsec_protocol.py:124-139 | accepted are exactly the encodings, by section 4 of RFC 4648, of non-empty byte strings |
| `WireForms.EncodeMeans` | core/udpsec_protocol.py:124-139 | symbol j of an encoding is the alphabet's letter for bits 6j to 6j+5, or padding behind the last bit |
| `WireForms.OtherSymbols` | core/udpsec_protocol.py:124-139 | exactly the 64 letters of the alphabet have a value |
| `Framing.FramingIsInjective` | core/udpsec_crypto.py:448-459 | length-framed lists of fields, of any number and length, are uniquely decodable |
| `Framing.DigestFields` | core/udpsec_crypto.py:448-459 | the hash absorbs the framed domain, label and fields in order, or fails on a field that cannot be framed |
| `Framing.PreimagesAreUnique` | core/udpsec_crypto.py:462-563 | client-auth, server-auth, session-transcript, replay and key-schedule inputs never coincide, and equal inputs have equal fields |
| `WireForms.PreimagesMean` | core/udpsec_crypto.py:462-563 | the exact labels and fields of every hash and key derivation input, with the label of each direction |
| `WireForms.FramedMeans` | core/udpsec_crypto.py:448-453 | a framed field is its length in four bytes, highest first, and itself |
| `WireForms.EightBytesBigEndian` | core/udpsec_crypto.py:462-481 | the timestamp's eight bytes are those of its high half and then those of its low half |
| `ControlFraming.ServeConnection` | core/routing_control_unix.py:188-227 | however reads cut the stream, the handled frames are determined by its newline-separated pieces, and the buffer never exceeds the limit plus one |
| `ControlFraming.ServedPieces` | core/routing_control_unix.py:188-227 | these are all pieces, with a non-empty unterminated tail, up to the first that is too long or whose response fails |
| `SerialFramer.SerialLineFramer.Feed` | nmea_sproxy/input_adapters.py:227-250 | over any chunking, emitted lines are exactly the ended pieces within the limit, longer ones are counted once, and the buffer stays within the limit |
| `SerialFramer.PiecesAreTheStream` | nmea_sproxy/input_adapters.py:227-262 | the pieces with a CR, LF or CRLF behind each are the stream |
| `WireForms.LinesAreShortPieces` | nmea_sproxy/input_adapters.py:227-262 | the emitted lines are the pieces within the limit, each in its place, and all others are counted |

## Left out

- Sockets, the asyncio scheduler, task supervision, cancellation and shutdown: a suspension is a boundary between steps. A failing egress or a raising processor ends the pipeline and is not modelled.
- ECDSA, ECDH, HKDF, AES-GCM and SHA-256: uninterpreted; point decoding is the `Malformed` case of an ephemeral key.
- `install_session`: only the repository's tests call it.
- `feed` and `feed_outcome` of the assembler: their own line split; the program feeds parsed fragments. The peak of fragments in a group is not modelled.
- Reading local inputs: a turn of the client loop gets the lines that the scanner found in each payload.
- Station ids: held as UTF-8 bytes; decoding to text (RFC 3629) is a bijection on the accepted byte strings.
- Text beyond ASCII, surrogates and Unicode digits, and the text modes of an ingress frame.
- Order in which `resolve_zones` visits zones: any order is allowed, so which of several errors is reported first is not fixed. A reference chain deeper than the interpreter's recursion limit is not an error in the model.
- Wall clock of later parts: one reading serves all parts of a message, while the program reads the clock again for every part whose stamp is falsy.
- `source_state`, `s_cache` and `ttlmap`: side bookkeeping that affects no output. Metrics and runtime statistics: field copies.
- Command line tools, configuration loading, key files, network policies, forwarders and system integration.
