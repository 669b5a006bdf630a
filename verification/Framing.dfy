/**
 What is hashed and what keys are derived from (core/udpsec_crypto.py and the
 replay key of aismixer_secure.py): lists of fields, each framed by its length
 in four bytes.  The hash itself stays uninterpreted; here it is shown that
 different values never give it the same input.
 */
module Framing {
  import opened Common
  import opened Text

  const MAX_FRAMED_FIELD_LENGTH := 0xFFFF_FFFF
  const MAX_TIMESTAMP := 0xFFFF_FFFF_FFFF_FFFF
  const DOMAIN_CONTEXT := "AISMIXER-UDPSEC-ECDHE"
  const CLIENT_AUTH_LABEL := "CLIENT-AUTH"
  const SERVER_AUTH_LABEL := "SERVER-AUTH"
  const SESSION_TRANSCRIPT_LABEL := "SESSION-TRANSCRIPT"
  const HANDSHAKE_REPLAY_LABEL := "HANDSHAKE-REPLAY"
  const SESSION_KEY_SCHEDULE_LABEL := "SESSION-KEY-SCHEDULE"
  const CLIENT_TO_SERVER_LABEL := "CLIENT-TO-SERVER"
  const SERVER_TO_CLIENT_LABEL := "SERVER-TO-CLIENT"
  const AES_256_GCM_KEY_LABEL := "AES-256-GCM-KEY"

  // ------------------------------------------------------------------- framing

  /** `n.to_bytes(k, "big")`. */
  function BigEndian(n: nat, k: nat): (s: string)
    ensures |s| == k && IsBytes(s)
  {
    if k == 0 then "" else BigEndian(n / 256, k - 1) + [(n % 256) as char]
  }

  function Number(s: string): nat {
    if s == [] then 0 else Number(s[..|s| - 1]) * 256 + s[|s| - 1] as int
  }

  function Pow256(k: nat): (p: nat)
    ensures p >= 1
  {
    if k == 0 then 1 else 256 * Pow256(k - 1)
  }

  lemma {:induction false} NumberOfBigEndian(n: nat, k: nat)
    requires n < Pow256(k)
    ensures Number(BigEndian(n, k)) == n
  {
    if k > 0 {
      NumberOfBigEndian(n / 256, k - 1);
      var s := BigEndian(n, k);
      assert s[..k - 1] == BigEndian(n / 256, k - 1);
    }
  }

  predicate Framable(field: string) {
    |field| <= MAX_FRAMED_FIELD_LENGTH
  }

  predicate AllFramable(fields: seq<string>) {
    forall i :: 0 <= i < |fields| ==> Framable(fields[i])
  }

  /** One field behind its length. */
  function Framed(field: string): string {
    BigEndian(|field|, 4) + field
  }

  function FramedAll(fields: seq<string>): string {
    if fields == [] then "" else Framed(fields[0]) + FramedAll(fields[1..])
  }

  /** The fields of a framed list, if it is one. */
  function Unframed(s: string): Option<seq<string>>
    decreases |s|
  {
    if s == "" then Some([])
    else if |s| < 4 then None
    else
      var n := Number(s[..4]);
      if 4 + n > |s| then None
      else
        var rest := Unframed(s[4 + n..]);
        if rest.None? then None else Some([s[4..4 + n]] + rest.value)
  }

  lemma FourBytes(n: nat)
    requires n <= MAX_FRAMED_FIELD_LENGTH
    ensures Number(BigEndian(n, 4)) == n
  {
    assert Pow256(2) == 65536 && Pow256(4) == 65536 * 65536;
    NumberOfBigEndian(n, 4);
  }

  /** Framing can be undone, whatever the fields are and however many. */
  lemma {:induction false} UnframedOfFramed(fields: seq<string>)
    requires AllFramable(fields)
    ensures Unframed(FramedAll(fields)) == Some(fields)
  {
    hide BigEndian, Number;
    if fields != [] {
      var (f, s) := (fields[0], FramedAll(fields));
      assert Framable(f) && AllFramable(fields[1..]);
      FourBytes(|f|);
      UnframedOfFramed(fields[1..]);
      assert s[..4] == BigEndian(|f|, 4) && s[4..4 + |f|] == f && s[4 + |f|..] == FramedAll(fields[1..]);
      assert fields == [f] + fields[1..];
    }
  }

  /** Equal framed lists have equal fields. */
  lemma FramingIsInjective(a: seq<string>, b: seq<string>)
    requires AllFramable(a) && AllFramable(b) && FramedAll(a) == FramedAll(b)
    ensures a == b
  {
    hide FramedAll, Unframed;
    UnframedOfFramed(a);
    UnframedOfFramed(b);
  }

  // ------------------------------------------------------------------ the digest

  /** A running hash, by what it has absorbed. */
  class Hash {
    var absorbed: string

    constructor ()
      ensures absorbed == ""
    {
      absorbed := "";
    }

    method Update(s: string)
      modifies this
      ensures absorbed == old(absorbed) + s
    {
      absorbed := absorbed + s;
    }
  }

  /** `_update_framed`; false is the error for a field that is too long. */
  method UpdateFramed(digest: Hash, field: string) returns (ok: bool)
    modifies digest
    ensures ok == Framable(field)
    ensures digest.absorbed == if ok then old(digest.absorbed) + Framed(field) else old(digest.absorbed)
  {
    if |field| > MAX_FRAMED_FIELD_LENGTH {
      return false;
    }
    digest.Update(BigEndian(|field|, 4));
    digest.Update(field);
    assert old(digest.absorbed) + BigEndian(|field|, 4) + field == old(digest.absorbed) + Framed(field);
    ok := true;
  }

  lemma {:induction false} FramedAppend(fields: seq<string>, field: string)
    ensures FramedAll(fields + [field]) == FramedAll(fields) + Framed(field)
  {
    hide Framed;
    if fields == [] {
      assert FramedAll([]) == "" && [field][1..] == [];
    } else {
      assert (fields + [field])[1..] == fields[1..] + [field];
      FramedAppend(fields[1..], field);
    }
  }

  /** `_digest_fields`, up to the hash: the domain, the label and the fields, in this order. */
  method DigestFields(purpose: string, fields: seq<string>) returns (preimage: Option<string>)
    ensures preimage == if AllFramable([DOMAIN_CONTEXT, purpose] + fields)
                        then Some(FramedAll([DOMAIN_CONTEXT, purpose] + fields)) else None
  {
    hide Framed, FramedAll, BigEndian;
    var digest := new Hash();
    var all := [DOMAIN_CONTEXT, purpose] + fields;
    NothingFramed();
    for i := 0 to |all|
      invariant AllFramable(all[..i]) && digest.absorbed == FramedAll(all[..i])
    {
      assert all[..i + 1] == all[..i] + [all[i]];
      FramedAppend(all[..i], all[i]);
      var ok := UpdateFramed(digest, all[i]);
      if !ok {
        return None;
      }
    }
    assert all[..|all|] == all;
    preimage := Some(digest.absorbed);
  }

  lemma NothingFramed()
    ensures forall s: seq<string> :: FramedAll(s[..0]) == ""
  {
  }

  // ------------------------------------------------------ what is authenticated

  datatype Hello = Hello(station: string, timestamp: nat, random: string, ephemeral: string)

  datatype Reply = Reply(random: string, ephemeral: string)

  /** Everything that is hashed or used as key derivation context. */
  datatype Subject =
    | ClientAuth(hello: Hello)
    | ServerAuth(hello: Hello, clientSignature: string, reply: Reply)
    | SessionTranscript(hello: Hello, clientSignature: string, reply: Reply, serverSignature: string)
    | HandshakeReplay(clientAuthDigest: string, clientSignature: string)
    | SessionKey(toServer: bool)

  function HelloFields(h: Hello): seq<string> {
    [h.station, BigEndian(h.timestamp, 8), h.random, h.ephemeral]
  }

  function Label(s: Subject): string {
    match s
    case ClientAuth(_) => CLIENT_AUTH_LABEL
    case ServerAuth(_, _, _) => SERVER_AUTH_LABEL
    case SessionTranscript(_, _, _, _) => SESSION_TRANSCRIPT_LABEL
    case HandshakeReplay(_, _) => HANDSHAKE_REPLAY_LABEL
    case SessionKey(_) => SESSION_KEY_SCHEDULE_LABEL
  }

  function Fields(s: Subject): seq<string> {
    match s
    case ClientAuth(h) => HelloFields(h)
    case ServerAuth(h, c, r) => HelloFields(h) + [c, r.random, r.ephemeral]
    case SessionTranscript(h, c, r, v) => HelloFields(h) + [c, r.random, r.ephemeral, v]
    case HandshakeReplay(d, c) => [d, c]
    case SessionKey(toServer) =>
      [if toServer then CLIENT_TO_SERVER_LABEL else SERVER_TO_CLIENT_LABEL, AES_256_GCM_KEY_LABEL]
  }

  function Preimage(s: Subject): string {
    FramedAll([DOMAIN_CONTEXT, Label(s)] + Fields(s))
  }

  /** Every field can be framed, and the timestamp fits its eight bytes. */
  predicate Encodable(s: Subject) {
    && AllFramable(Fields(s))
    && (s.ClientAuth? || s.ServerAuth? || s.SessionTranscript? ==> s.hello.timestamp <= MAX_TIMESTAMP)
  }

  lemma EightBytes(n: nat)
    requires n <= MAX_TIMESTAMP
    ensures Number(BigEndian(n, 8)) == n
  {
    assert Pow256(2) == 65536 && Pow256(4) == 65536 * 65536;
    assert Pow256(6) == 65536 * 65536 * 65536 && Pow256(8) == 65536 * 65536 * 65536 * 65536;
    NumberOfBigEndian(n, 8);
  }

  lemma SameHello(g: Hello, h: Hello)
    requires g.timestamp <= MAX_TIMESTAMP && h.timestamp <= MAX_TIMESTAMP && HelloFields(g) == HelloFields(h)
    ensures g == h
  {
    hide BigEndian, Number;
    EightBytes(g.timestamp);
    EightBytes(h.timestamp);
    var (x, y) := (HelloFields(g), HelloFields(h));
    assert x[0] == y[0] && x[1] == y[1] && x[2] == y[2] && x[3] == y[3];
  }

  lemma LabelsDiffer(s: Subject, t: Subject)
    ensures Label(s) == Label(t) <==>
              || (s.ClientAuth? && t.ClientAuth?) || (s.ServerAuth? && t.ServerAuth?)
              || (s.SessionTranscript? && t.SessionTranscript?) || (s.HandshakeReplay? && t.HandshakeReplay?)
              || (s.SessionKey? && t.SessionKey?)
  {
    assert CLIENT_AUTH_LABEL[0] != SERVER_AUTH_LABEL[0];
    assert SERVER_AUTH_LABEL[0] == SESSION_TRANSCRIPT_LABEL[0] == SESSION_KEY_SCHEDULE_LABEL[0];
    assert |SERVER_AUTH_LABEL| == 11 && |SESSION_TRANSCRIPT_LABEL| == 18 && |SESSION_KEY_SCHEDULE_LABEL| == 20;
    assert HANDSHAKE_REPLAY_LABEL[0] == 'H';
  }

  lemma SameFields(s: Subject, t: Subject)
    requires Encodable(s) && Encodable(t) && Label(s) == Label(t) && Fields(s) == Fields(t)
    ensures s == t
  {
    hide BigEndian;
    LabelsDiffer(s, t);
    var (x, y) := (Fields(s), Fields(t));
    if s.SessionKey? {
      assert x[0] == y[0] && CLIENT_TO_SERVER_LABEL[0] != SERVER_TO_CLIENT_LABEL[0];
    } else if s.HandshakeReplay? {
      assert x[0] == y[0] && x[1] == y[1];
    } else {
      assert x[..4] == HelloFields(s.hello) && y[..4] == HelloFields(t.hello);
      SameHello(s.hello, t.hello);
      if !s.ClientAuth? {
        assert x[4] == y[4] && x[5] == y[5] && x[6] == y[6];
        if s.SessionTranscript? { assert x[7] == y[7]; }
      }
    }
  }

  lemma LabelsAreFramable(s: Subject)
    requires Encodable(s)
    ensures AllFramable([DOMAIN_CONTEXT, Label(s)] + Fields(s))
  {
    var all := [DOMAIN_CONTEXT, Label(s)] + Fields(s);
    forall i | 0 <= i < |all| ensures Framable(all[i]) {
      if i >= 2 { assert all[i] == Fields(s)[i - 2] && Framable(Fields(s)[i - 2]); }
    }
  }

  /**
   Equal inputs of the hash come from equal values: client-auth, server-auth,
   session-transcript, replay and key-schedule inputs never coincide, and within
   each kind every field is determined.
   */
  lemma PreimagesAreUnique(s: Subject, t: Subject)
    requires Encodable(s) && Encodable(t)
    ensures Preimage(s) == Preimage(t) <==> s == t
  {
    hide FramedAll, Fields, Label, Encodable;
    if Preimage(s) == Preimage(t) {
      LabelsAreFramable(s);
      LabelsAreFramable(t);
      var (x, y) := ([DOMAIN_CONTEXT, Label(s)] + Fields(s), [DOMAIN_CONTEXT, Label(t)] + Fields(t));
      FramingIsInjective(x, y);
      assert x[1] == y[1] && x[2..] == Fields(s) && y[2..] == Fields(t);
      SameFields(s, t);
    }
  }
}
