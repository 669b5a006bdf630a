/**
 UDPSEC values as the session layer sees them: symbolic keys, signatures and
 ciphertexts.  Cryptography is ideal: a key is known exactly to whoever took
 part in the handshake transcript it is derived from, a ciphertext opens only
 under its own key and nonce, a signature verifies only for its signer and
 digest.
 */
module Wire {
  import opened Common

  datatype Address = Address(host: string, port: nat)

  type Nonce = nat

  datatype Party = Station(name: string) | Server

  datatype Digest =
    | ClientAuth(station: string, timestamp: int, random: nat, ephemeral: Ephemeral)
    | ServerAuth(hello: Hello, serverRandom: nat, serverEphemeral: Ephemeral)

  datatype Signature = Signature(signer: Party, digest: Digest) | Invalid(bytes: nat)

  /** An ephemeral public key, or bytes that decode to no point of the curve. */
  datatype Ephemeral = Share(id: nat) | Malformed(bytes: nat)

  datatype Hello = Hello(station: string, timestamp: int, random: nat, ephemeral: Ephemeral, signature: Signature)

  datatype Reply = Reply(random: nat, ephemeral: Ephemeral, signature: Signature)

  /** Everything both directional keys are derived from. */
  datatype Transcript = Transcript(hello: Hello, reply: Reply)

  datatype Direction = ClientToServer | ServerToClient

  datatype Key = Key(transcript: Transcript, direction: Direction)

  datatype Json =
    | Null
    | Boolean(flag: bool)
    | Integer(number: int)
    | Fraction(digits: string)
    | Text(text: string)
    | Array
    | Object(fields: map<string, Json>)
  {
    /** `dict.get`: a missing field reads as null. */
    function Get(name: string): Json
      requires Object?
    {
      if name in fields then fields[name] else Null
    }
  }

  datatype Plaintext = Undecodable | Decoded(json: Json)

  datatype Ciphertext = Sealed(key: Key, nonce: Nonce, plaintext: Plaintext) | Noise(bytes: nat)

  /** AES-GCM decryption: `None` is the InvalidTag error. */
  function Open(key: Key, nonce: Nonce, ciphertext: Ciphertext): Option<Plaintext> {
    if ciphertext.Sealed? && ciphertext.key == key && ciphertext.nonce == nonce
    then Some(ciphertext.plaintext) else None
  }

  /** A datagram by its prefix; `None` content is a packet whose parser raises. */
  datatype Datagram =
    | ClientHello(hello: Option<Hello>)
    | ServerHello(reply: Option<Reply>)
    | Data(content: Option<(Nonce, Ciphertext)>)
    | NoSession
    | Unknown

  const CONFIRMATION_SEQUENCE := 0

  function Ping(station: string, sequence: int, timestamp: int): Json {
    Object(map["type" := Text("ping"), "seq" := Integer(sequence),
               "timestamp" := Integer(timestamp), "source_id" := Text(station)])
  }

  function Pong(station: string, sequence: int, timestamp: int): Json {
    Object(map["type" := Text("pong"), "seq" := Integer(sequence),
               "timestamp" := Integer(timestamp), "source_id" := Text(station)])
  }
}
