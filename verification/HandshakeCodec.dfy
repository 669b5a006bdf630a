/** The hello packets of UDPSEC (core/udpsec_protocol.py): pipe-separated text, one packet for each value. */
module HandshakeCodec {
  import opened Common
  import opened Text
  import Decimal
  import Base64

  const CLIENT_HELLO_PREFIX := "NMEA-H"
  const SERVER_HELLO_PREFIX := "OK"
  const RANDOM_LENGTH := 32
  const POINT_LENGTH := 33

  // ------------------------------------------------------- UTF-8, section 4 of RFC 3629

  predicate Tail(s: string, n: nat) {
    n < |s| && 0x80 <= s[n] as int <= 0xBF
  }

  predicate TailWithin(s: string, low: int, high: int) {
    1 < |s| && low <= s[1] as int <= high
  }

  /** The number of bytes of the first character, or zero if there is none. */
  function CharacterLength(s: string): (n: nat)
    ensures n <= |s|
  {
    if s == [] then 0 else
    var b := s[0] as int;
    if b <= 0x7F then 1
    else if 0xC2 <= b <= 0xDF then (if Tail(s, 1) then 2 else 0)
    else if 0xE0 <= b <= 0xEF then
      (if TailWithin(s, if b == 0xE0 then 0xA0 else 0x80, if b == 0xED then 0x9F else 0xBF) && Tail(s, 2) then 3 else 0)
    else if 0xF0 <= b <= 0xF4 then
      (if TailWithin(s, if b == 0xF0 then 0x90 else 0x80, if b == 0xF4 then 0x8F else 0xBF) && Tail(s, 2) && Tail(s, 3)
       then 4 else 0)
    else 0
  }

  /** Byte strings that are the UTF-8 form of some text. */
  predicate ValidUtf8(s: string) {
    s == [] || (CharacterLength(s) > 0 && ValidUtf8(s[CharacterLength(s)..]))
  }

  // ------------------------------------------------------------------------- values

  /** The station id is held as its UTF-8 bytes. */
  datatype ClientHello = ClientHello(
    station: string, timestamp: int, random: string, ephemeral: string, signature: string)

  datatype ServerHello = ServerHello(random: string, ephemeral: string, signature: string)

  predicate ValidRandom(b: string) {
    IsBytes(b) && |b| == RANDOM_LENGTH
  }

  /** A compressed point by its form. */
  predicate ValidPoint(b: string) {
    IsBytes(b) && |b| == POINT_LENGTH && b[0] as int in {2, 3}
  }

  predicate ValidSignature(b: string) {
    IsBytes(b) && b != ""
  }

  /** `ClientHello.__post_init__`. */
  predicate ValidClientHello(h: ClientHello) {
    && h.station != "" && Free(h.station, '|') && ValidUtf8(h.station)
    && 0 <= h.timestamp <= Decimal.MAX_TIMESTAMP
    && ValidRandom(h.random) && ValidPoint(h.ephemeral) && ValidSignature(h.signature)
  }

  predicate ValidServerHello(h: ServerHello) {
    ValidRandom(h.random) && ValidPoint(h.ephemeral) && ValidSignature(h.signature)
  }

  // -------------------------------------------------------------- building and parsing

  function ClientFields(h: ClientHello): seq<string>
    requires ValidClientHello(h)
  {
    [CLIENT_HELLO_PREFIX, h.station, Decimal.Digits(h.timestamp),
     Base64.Encode(h.random), Base64.Encode(h.ephemeral), Base64.Encode(h.signature)]
  }

  /** `build_client_hello_packet`. */
  function BuildClientHello(h: ClientHello): string
    requires ValidClientHello(h)
  {
    Join(ClientFields(h), '|')
  }

  function FromClientFields(f: seq<string>): Option<ClientHello> {
    if |f| != 6 || f[0] != CLIENT_HELLO_PREFIX || !ValidUtf8(f[1]) then None
    else
      var (t, r, e, s) := (
        Decimal.ParseTimestamp(f[2]), Base64.DecodeField(f[3]), Base64.DecodeField(f[4]), Base64.DecodeField(f[5]));
      if t.None? || r.None? || e.None? || s.None? then None
      else
        var h := ClientHello(f[1], t.value, r.value, e.value, s.value);
        if ValidClientHello(h) then Some(h) else None
  }

  /** `parse_client_hello_packet`; `None` is any of its errors. */
  function ParseClientHello(packet: string): Option<ClientHello> {
    FromClientFields(Split(packet, '|'))
  }

  function ServerFields(h: ServerHello): seq<string>
    requires ValidServerHello(h)
  {
    [SERVER_HELLO_PREFIX, Base64.Encode(h.random), Base64.Encode(h.ephemeral), Base64.Encode(h.signature)]
  }

  function BuildServerHello(h: ServerHello): string
    requires ValidServerHello(h)
  {
    Join(ServerFields(h), '|')
  }

  function FromServerFields(f: seq<string>): Option<ServerHello> {
    if |f| != 4 || f[0] != SERVER_HELLO_PREFIX then None
    else
      var (r, e, s) := (Base64.DecodeField(f[1]), Base64.DecodeField(f[2]), Base64.DecodeField(f[3]));
      if r.None? || e.None? || s.None? then None
      else
        var h := ServerHello(r.value, e.value, s.value);
        if ValidServerHello(h) then Some(h) else None
  }

  function ParseServerHello(packet: string): Option<ServerHello> {
    FromServerFields(Split(packet, '|'))
  }

  // ------------------------------------------------------------------- a bijection

  /** `fields` split from a packet or joined to one: the same thing, as no field has a separator. */
  lemma PacketIsFields(packet: string, fields: seq<string>)
    requires fields != [] && AllFree(fields, '|')
    ensures Split(packet, '|') == fields <==> packet == Join(fields, '|')
  {
    hide Split, Join;
    JoinOfSplit(packet, '|');
    SplitOfJoin(fields, '|');
  }

  lemma DigitsAreFree(n: nat)
    ensures Free(Decimal.Digits(n), '|')
  {
    Decimal.DigitsAreCanonical(n);
  }

  lemma FieldIsExact(e: string, b: string)
    requires ValidRandom(b) || ValidPoint(b) || ValidSignature(b)
    ensures Base64.DecodeField(e) == Some(b) <==> e == Base64.Encode(b)
    ensures Free(Base64.Encode(b), '|')
  {
    Base64.FieldsAreExact(e, b);
    Base64.NoSeparator(b);
  }

  lemma ClientFieldsAreExact(f: seq<string>, h: ClientHello)
    ensures FromClientFields(f) == Some(h) <==> ValidClientHello(h) && f == ClientFields(h)
  {
    hide Decimal.Digits, Decimal.ParseTimestamp, Base64.Encode, Base64.DecodeField, ValidUtf8;
    if |f| == 6 && ValidClientHello(h) {
      Decimal.TimestampsAreExact(f[2], h.timestamp);
      FieldIsExact(f[3], h.random);
      FieldIsExact(f[4], h.ephemeral);
      FieldIsExact(f[5], h.signature);
    }
  }

  /** A packet is accepted as `h` exactly if it is the one packet that is built for `h`. */
  lemma ClientHelloCodec(packet: string, h: ClientHello)
    ensures ParseClientHello(packet) == Some(h) <==> ValidClientHello(h) && packet == BuildClientHello(h)
  {
    hide Split, Join, Decimal.Digits, Base64.Encode, ValidUtf8, FromClientFields;
    ClientFieldsAreExact(Split(packet, '|'), h);
    if ValidClientHello(h) {
      DigitsAreFree(h.timestamp);
      FieldIsExact("", h.random);
      FieldIsExact("", h.ephemeral);
      FieldIsExact("", h.signature);
      PacketIsFields(packet, ClientFields(h));
    }
  }

  lemma ServerFieldsAreExact(f: seq<string>, h: ServerHello)
    ensures FromServerFields(f) == Some(h) <==> ValidServerHello(h) && f == ServerFields(h)
  {
    hide Base64.Encode, Base64.DecodeField;
    if |f| == 4 && ValidServerHello(h) {
      FieldIsExact(f[1], h.random);
      FieldIsExact(f[2], h.ephemeral);
      FieldIsExact(f[3], h.signature);
    }
  }

  lemma ServerHelloCodec(packet: string, h: ServerHello)
    ensures ParseServerHello(packet) == Some(h) <==> ValidServerHello(h) && packet == BuildServerHello(h)
  {
    hide Split, Join, Base64.Encode, FromServerFields;
    ServerFieldsAreExact(Split(packet, '|'), h);
    if ValidServerHello(h) {
      FieldIsExact("", h.random);
      FieldIsExact("", h.ephemeral);
      FieldIsExact("", h.signature);
      PacketIsFields(packet, ServerFields(h));
    }
  }
}
