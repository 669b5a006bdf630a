/**
 The byte forms that go over the wire or into a hash, spelled out: the Base64
 alphabet, byte order, the fields of every hash input, the hello packets, the
 TAG block and the lines of the serial input.
 */
module WireForms {
  import opened Common
  import opened Text
  import Decimal
  import Base64
  import Framing
  import HandshakeCodec
  import TagBlock
  import SerialFramer

  // ---------------------------------------------------------------------- Base64

  const UPPER := "ABCDEFGHIJKLMNOPQRSTUVWXYZ"
  const LOWER := "abcdefghijklmnopqrstuvwxyz"
  const NUMERALS := "0123456789"

  /** Table 1 of RFC 4648. */
  const ALPHABET := UPPER + LOWER + NUMERALS + "+/"

  lemma SymbolsAreTheAlphabet(v: nat)
    requires v < 64
    ensures |ALPHABET| == 64 && Base64.Symbol(v) == ALPHABET[v] && Base64.Sextet(ALPHABET[v]) == Some(v)
  {
    hide Base64.Sextet;
    Base64.SymbolsAreSextets(v);
    InFourParts(UPPER, LOWER, NUMERALS, "+/", v);
    PartLengths();
    hide ALPHABET, UPPER, LOWER, NUMERALS;
    if v < 26 {
      Upper(v);
    } else if v < 52 {
      Lower(v - 26);
    } else if v < 62 {
      Numeral(v - 52);
    }
  }

  lemma PartLengths()
    ensures |UPPER| == 26 && |LOWER| == 26 && |NUMERALS| == 10
    ensures ALPHABET == UPPER + LOWER + NUMERALS + "+/" && |ALPHABET| == 64
  {
  }

  lemma InFourParts(a: string, b: string, c: string, d: string, v: nat)
    requires v < |a| + |b| + |c| + |d|
    ensures (a + b + c + d)[v]
            == if v < |a| then a[v] else if v < |a| + |b| then b[v - |a|]
               else if v < |a| + |b| + |c| then c[v - |a| - |b|] else d[v - |a| - |b| - |c|]
  {
  }

  lemma Upper(v: nat)
    requires v < 26
    ensures UPPER[v] as int == 'A' as int + v
  {
  }

  lemma Lower(v: nat)
    requires v < 26
    ensures LOWER[v] as int == 'a' as int + v
  {
  }

  lemma Numeral(v: nat)
    requires v < 10
    ensures NUMERALS[v] as int == '0' as int + v
  {
  }

  /** Other characters stand for nothing. */
  lemma OtherSymbols(c: char)
    ensures Base64.Sextet(c).Some? <==> exists v :: 0 <= v < 64 && ALPHABET[v] == c
  {
    if Base64.Sextet(c).Some? {
      var v := Base64.Sextet(c).value;
      assert Base64.Symbol(v) == c;
      SymbolsAreTheAlphabet(v);
    }
    if v :| 0 <= v < 64 && ALPHABET[v] == c {
      SymbolsAreTheAlphabet(v);
    }
  }

  /** A byte, and zero behind the end. */
  function ByteAt(b: string, i: nat): nat {
    if i < |b| then b[i] as int else 0
  }

  /** Bits 6j to 6j + 5 of a byte string, the first bit being the highest of the first byte. */
  function SixBits(b: string, j: nat): nat {
    var i := j / 4 * 3;
    var group := ByteAt(b, i) * 65536 + ByteAt(b, i + 1) * 256 + ByteAt(b, i + 2);
    (if j % 4 == 0 then group / 262144 else if j % 4 == 1 then group / 4096 else if j % 4 == 2 then group / 64 else group)
    % 64
  }

  /** Symbol `j` stands for six bits, or is padding behind the last bit. */
  predicate EncodesBits(e: string, b: string, j: nat)
    requires j < |e|
  {
    e[j] == if 6 * j >= 8 * |b| then '=' else ALPHABET[SixBits(b, j)]
  }

  lemma GroupOfBits(a: nat, b: nat, c: nat)
    requires a < 256 && b < 256 && c < 256
    ensures var n := a * 65536 + b * 256 + c;
            && a / 4 == n / 262144 % 64 && a % 4 * 16 + b / 16 == n / 4096 % 64
            && b % 16 * 4 + c / 64 == n / 64 % 64 && c % 64 == n % 64
  {
    var n := a * 65536 + b * 256 + c;
    DivMod(n, 64, a * 1024 + b * 4 + c / 64, c % 64);
    DivMod(n, 4096, a * 16 + b / 16, b % 16 * 256 + c);
    DivMod(n, 262144, a / 4, a % 4 * 65536 + b * 256 + c);
    DivMod(a * 1024 + b * 4 + c / 64, 64, a * 16 + b / 16, b % 16 * 4 + c / 64);
    DivMod(a * 16 + b / 16, 64, a / 4, a % 4 * 16 + b / 16);
  }

  lemma Ascends(x: nat, y: nat, d: nat)
    requires x < y
    ensures x * d + d <= y * d
  {
    assert (y - x - 1) * d >= 0;
  }

  lemma DivMod(n: nat, d: nat, q: nat, r: nat)
    requires n == q * d + r && r < d
    ensures n / d == q && n % d == r
  {
    var (x, y) := (n / d, n % d);
    assert n == x * d + y;
    if x < q { Ascends(x, q, d); }
    if q < x { Ascends(q, x, d); }
  }

  lemma FirstBits(b: string)
    requires IsBytes(b)
    ensures var (x, y, z) := (ByteAt(b, 0), ByteAt(b, 1), ByteAt(b, 2));
            && x < 256 && y < 256 && z < 256
            && SixBits(b, 0) == x / 4 && SixBits(b, 1) == x % 4 * 16 + y / 16
            && SixBits(b, 2) == y % 16 * 4 + z / 64 && SixBits(b, 3) == z % 64
  {
    GroupOfBits(ByteAt(b, 0), ByteAt(b, 1), ByteAt(b, 2));
  }

  lemma FirstGroup(b: string, j: nat)
    requires IsBytes(b) && b != "" && j < 4
    ensures |Base64.Encode(b)| >= 4 && EncodesBits(Base64.Encode(b), b, j)
  {
    hide Base64.Symbol, SixBits, ALPHABET;
    FirstBits(b);
    var (x, y, z) := (ByteAt(b, 0), ByteAt(b, 1), ByteAt(b, 2));
    SymbolsAreTheAlphabet(x / 4);
    SymbolsAreTheAlphabet(x % 4 * 16 + y / 16);
    SymbolsAreTheAlphabet(y % 16 * 4 + z / 64);
    SymbolsAreTheAlphabet(z % 64);
    if |b| >= 3 {
      assert Base64.Encode(b)[..4] == Base64.Group(x, y, z);
    } else {
      assert Base64.Encode(b) == Base64.LastGroup(b);
    }
  }

  lemma LaterBits(b: string, j: nat)
    requires |b| >= 3 && j >= 4
    ensures SixBits(b, j) == SixBits(b[3..], j - 4)
  {
    var i := j / 4 * 3;
    assert (j - 4) / 4 * 3 == i - 3;
  }

  /** The encoding is four symbols for every three bytes begun, each for its six bits. */
  lemma {:induction false} EncodeMeans(b: string)
    requires IsBytes(b)
    ensures |Base64.Encode(b)| == (|b| + 2) / 3 * 4
    ensures forall j: nat :: j < |Base64.Encode(b)| ==> EncodesBits(Base64.Encode(b), b, j)
    decreases |b|
  {
    hide Base64.Group, Base64.LastGroup, SixBits;
    var e := Base64.Encode(b);
    if |b| >= 3 {
      EncodeMeans(b[3..]);
      Base64.GroupLength(b[0] as int, b[1] as int, b[2] as int);
    } else if |b| > 0 {
      Base64.LastGroupLength(b);
    }
    forall j: nat | j < |e| ensures EncodesBits(e, b, j) {
      if j < 4 {
        FirstGroup(b, j);
      } else {
        LaterBits(b, j);
        assert EncodesBits(Base64.Encode(b[3..]), b[3..], j - 4);
      }
    }
  }

  // ----------------------------------------------------------------- hash inputs

  /** Four bytes, the highest first. */
  lemma FourBytesBigEndian(n: nat)
    ensures Framing.BigEndian(n, 4)
            == [(n / 16777216 % 256) as char, (n / 65536 % 256) as char, (n / 256 % 256) as char, (n % 256) as char]
  {
    assert n / 256 / 256 == n / 65536 && n / 65536 / 256 == n / 16777216;
    assert Framing.BigEndian(n / 16777216, 1) == [(n / 16777216 % 256) as char] by {
      assert Framing.BigEndian(n / 16777216 / 256, 0) == "";
    }
    assert Framing.BigEndian(n / 65536, 2) == [(n / 16777216 % 256) as char, (n / 65536 % 256) as char];
    assert Framing.BigEndian(n / 256, 3)
           == [(n / 16777216 % 256) as char, (n / 65536 % 256) as char, (n / 256 % 256) as char];
  }

  /** Eight bytes are four for the high half and four for the low half. */
  lemma EightBytesBigEndian(n: nat)
    ensures Framing.BigEndian(n, 8) == Framing.BigEndian(n / 0x1_0000_0000, 4) + Framing.BigEndian(n, 4)
  {
    FourBytesBigEndian(n);
    var high := Framing.BigEndian(n / 0x1_0000_0000, 4);
    assert n / 256 / 256 == n / 65536 && n / 65536 / 256 == n / 16777216 && n / 16777216 / 256 == n / 0x1_0000_0000;
    assert Framing.BigEndian(n / 16777216, 5) == high + [(n / 16777216 % 256) as char];
    assert Framing.BigEndian(n / 65536, 6) == Framing.BigEndian(n / 16777216, 5) + [(n / 65536 % 256) as char];
    assert Framing.BigEndian(n / 256, 7) == Framing.BigEndian(n / 65536, 6) + [(n / 256 % 256) as char];
  }

  /** A field is its length in four bytes and itself. */
  lemma FramedMeans(field: string)
    requires |field| <= 0xFFFF_FFFF
    ensures var f := Framing.Framed(field);
            && |f| == 4 + |field| && f[4..] == field
            && f[0] as int * 16777216 + f[1] as int * 65536 + f[2] as int * 256 + f[3] as int == |field|
  {
    hide Framing.BigEndian;
    FourBytesBigEndian(|field|);
    FourDigits(|field|);
    assert Framing.Framed(field)[..4] == Framing.BigEndian(|field|, 4);
  }

  lemma FourDigits(n: nat)
    requires n <= 0xFFFF_FFFF
    ensures n / 16777216 % 256 * 16777216 + n / 65536 % 256 * 65536 + n / 256 % 256 * 256 + n % 256 == n
  {
    assert n / 16777216 < 256 && n / 256 / 256 == n / 65536 && n / 65536 / 256 == n / 16777216;
  }

  /** Every hash input, field by field. */
  lemma PreimagesMean(h: Framing.Hello, c: string, r: Framing.Reply, v: string, digest: string)
    ensures var time := Framing.BigEndian(h.timestamp, 8);
            && Framing.Preimage(Framing.ClientAuth(h)) == Framing.FramedAll(
                 ["AISMIXER-UDPSEC-ECDHE", "CLIENT-AUTH", h.station, time, h.random, h.ephemeral])
            && Framing.Preimage(Framing.ServerAuth(h, c, r)) == Framing.FramedAll(
                 ["AISMIXER-UDPSEC-ECDHE", "SERVER-AUTH", h.station, time, h.random, h.ephemeral, c, r.random, r.ephemeral])
            && Framing.Preimage(Framing.SessionTranscript(h, c, r, v)) == Framing.FramedAll(
                 ["AISMIXER-UDPSEC-ECDHE", "SESSION-TRANSCRIPT", h.station, time, h.random, h.ephemeral,
                  c, r.random, r.ephemeral, v])
    ensures Framing.Preimage(Framing.HandshakeReplay(digest, c)) == Framing.FramedAll(
              ["AISMIXER-UDPSEC-ECDHE", "HANDSHAKE-REPLAY", digest, c])
    ensures Framing.Preimage(Framing.SessionKey(true)) == Framing.FramedAll(
              ["AISMIXER-UDPSEC-ECDHE", "SESSION-KEY-SCHEDULE", "CLIENT-TO-SERVER", "AES-256-GCM-KEY"])
    ensures Framing.Preimage(Framing.SessionKey(false)) == Framing.FramedAll(
              ["AISMIXER-UDPSEC-ECDHE", "SESSION-KEY-SCHEDULE", "SERVER-TO-CLIENT", "AES-256-GCM-KEY"])
  {
    hide Framing.FramedAll, Framing.BigEndian;
    var hello := Framing.HelloFields(h);
    var d := "AISMIXER-UDPSEC-ECDHE";
    assert [d, "CLIENT-AUTH"] + hello
           == [d, "CLIENT-AUTH", h.station, Framing.BigEndian(h.timestamp, 8), h.random, h.ephemeral];
    assert [d, "SERVER-AUTH"] + Framing.Fields(Framing.ServerAuth(h, c, r))
           == [d, "SERVER-AUTH", h.station, Framing.BigEndian(h.timestamp, 8), h.random, h.ephemeral,
               c, r.random, r.ephemeral];
    assert [d, "SESSION-TRANSCRIPT"] + Framing.Fields(Framing.SessionTranscript(h, c, r, v))
           == [d, "SESSION-TRANSCRIPT", h.station, Framing.BigEndian(h.timestamp, 8), h.random, h.ephemeral,
               c, r.random, r.ephemeral, v];
    assert [d, "HANDSHAKE-REPLAY"] + [digest, c] == [d, "HANDSHAKE-REPLAY", digest, c];
    forall out ensures [d, "SESSION-KEY-SCHEDULE"] + Framing.Fields(Framing.SessionKey(out))
              == [d, "SESSION-KEY-SCHEDULE", if out then "CLIENT-TO-SERVER" else "SERVER-TO-CLIENT", "AES-256-GCM-KEY"] {
    }
  }

  // --------------------------------------------------------------- hello packets

  /** The packets of both sides, with their fields in order. */
  lemma HellosMean(h: HandshakeCodec.ClientHello, r: HandshakeCodec.ServerHello)
    ensures HandshakeCodec.ValidClientHello(h) ==>
              HandshakeCodec.BuildClientHello(h)
              == "NMEA-H|" + h.station + "|" + Decimal.Digits(h.timestamp) + "|" + Base64.Encode(h.random)
                 + "|" + Base64.Encode(h.ephemeral) + "|" + Base64.Encode(h.signature)
    ensures HandshakeCodec.ValidServerHello(r) ==>
              HandshakeCodec.BuildServerHello(r)
              == "OK|" + Base64.Encode(r.random) + "|" + Base64.Encode(r.ephemeral) + "|" + Base64.Encode(r.signature)
  {
    hide Decimal.Digits, Base64.Encode, HandshakeCodec.ValidUtf8, Join;
    if HandshakeCodec.ValidClientHello(h) {
      var (t, x, y, z) := (
        Decimal.Digits(h.timestamp), Base64.Encode(h.random), Base64.Encode(h.ephemeral), Base64.Encode(h.signature));
      JoinFour(t, x, y, z);
      JoinTwo("NMEA-H", h.station, [t, x, y, z]);
      assert HandshakeCodec.ClientFields(h) == ["NMEA-H", h.station] + [t, x, y, z];
      assert "NMEA-H" + "|" == "NMEA-H|";
    }
    if HandshakeCodec.ValidServerHello(r) {
      JoinFour("OK", Base64.Encode(r.random), Base64.Encode(r.ephemeral), Base64.Encode(r.signature));
      assert "OK" + "|" == "OK|";
    }
  }

  lemma JoinTwo(a: string, b: string, rest: seq<string>)
    requires rest != []
    ensures Join([a, b] + rest, '|') == a + "|" + b + "|" + Join(rest, '|')
  {
    assert ([a, b] + rest)[1..] == [b] + rest && ([b] + rest)[1..] == rest;
  }

  lemma JoinFour(a: string, b: string, c: string, d: string)
    ensures Join([a, b, c, d], '|') == a + "|" + b + "|" + c + "|" + d
  {
    JoinThree(b, c, d, '|');
    assert [a, b, c, d][1..] == [b, c, d];
  }

  lemma JoinThree(a: string, b: string, c: string, sep: char)
    ensures Join([b, c], sep) == b + [sep] + c && Join([a, b, c], sep) == a + [sep] + b + [sep] + c
  {
    assert [a, b, c][1..] == [b, c] && [b, c][1..] == [c];
    assert Join([c], sep) == c;
  }

  // ---------------------------------------------------------------------- output

  /** Two upper-case hexadecimal digits. */
  lemma TwoHexMeans(n: nat)
    requires n < 256
    ensures TagBlock.TwoHex(n) == ["0123456789ABCDEF"[n / 16], "0123456789ABCDEF"[n % 16]]
  {
    HexDigits(n / 16);
    HexDigits(n % 16);
  }

  lemma HexDigits(n: nat)
    requires n < 16
    ensures TagBlock.HexDigit(n) == "0123456789ABCDEF"[n]
  {
  }

  /** Bit `k` of a number. */
  function Bit(n: nat, k: nat): nat {
    if k == 0 then n % 2 else Bit(n / 2, k - 1)
  }

  /** How many characters have bit `k`. */
  function WithBit(data: string, k: nat): nat {
    if data == [] then 0 else WithBit(data[..|data| - 1], k) + Bit(data[|data| - 1] as int, k)
  }

  lemma {:induction false} XorBits(a: nat, b: nat, k: nat)
    ensures Bit(TagBlock.Xor(a, b), k) == (Bit(a, k) + Bit(b, k)) % 2
    decreases k
  {
    TagBlock.XorParts(a, b);
    if k > 0 { XorBits(a / 2, b / 2, k - 1); }
  }

  lemma {:induction false} BitOfZero(k: nat)
    ensures Bit(0, k) == 0
  {
    if k > 0 { BitOfZero(k - 1); }
  }

  lemma SameParity(a: nat, b: nat)
    ensures (a % 2 + b) % 2 == (a + b) % 2
  {
  }

  /** Each bit of the checksum tells whether an odd number of characters has it. */
  lemma {:induction false} ChecksumIsParity(data: string, k: nat)
    ensures Bit(TagBlock.XorAll(data), k) == WithBit(data, k) % 2
  {
    if data == [] {
      BitOfZero(k);
    } else {
      hide TagBlock.Xor, Bit;
      ChecksumIsParity(data[..|data| - 1], k);
      XorBits(TagBlock.XorAll(data[..|data| - 1]), data[|data| - 1] as int, k);
      SameParity(WithBit(data[..|data| - 1], k), Bit(data[|data| - 1] as int, k));
    }
  }

  /** The fields of a header as text. */
  function HeaderContent(s: string, time: nat, first: bool, g: Option<TagBlock.Triplet>): string {
    var source := "c:" + Decimal.Digits(time) + ",s:" + s;
    if g.None? then source
    else
      var place := "g:" + Decimal.Digits(g.value.part) + "-" + Decimal.Digits(g.value.total) + "-" + g.value.gid;
      if first then source + "," + place else place
  }

  lemma HeaderContentIsJoined(s: string, time: nat, first: bool, g: Option<TagBlock.Triplet>)
    ensures Join(TagBlock.HeaderFields(s, time, first, g), ',') == HeaderContent(s, time, first, g)
  {
    hide Decimal.Digits, Join;
    var (c, d) := (TagBlock.CField(time), TagBlock.SField(s));
    JoinThree("", c, d, ',');
    SourceField(c, s);
    if g.Some? {
      var (x, y, z) := (Decimal.Digits(g.value.part), Decimal.Digits(g.value.total), g.value.gid);
      JoinThree(x, y, z, '-');
      PlaceField(x, y, z);
      var e := TagBlock.GField(g.value);
      JoinThree(c, d, e, ',');
      JoinOne(e);
    }
  }

  lemma SourceField(c: string, s: string)
    ensures c + [','] + ("s:" + s) == c + ",s:" + s
  {
  }

  lemma PlaceField(x: string, y: string, z: string)
    ensures "g:" + (x + ['-'] + y + ['-'] + z) == "g:" + x + "-" + y + "-" + z
  {
  }

  lemma JoinOne(e: string)
    ensures Join([e], ',') == e
  {
  }

  /** The bytes of an output: a line with fewer than four fields as it is, every other one behind its TAG block. */
  lemma OutputMeans(line: string, s: string, time: nat, first: bool, g: Option<TagBlock.Triplet>)
    ensures var content := HeaderContent(s, time, first, g);
            TagBlock.BuildOutput(line, s, time, first, g)
            == if |Split(line, ',')| < 4 then line + "\r\n"
               else "\\" + content + "*" + TagBlock.TwoHex(TagBlock.XorAll(content)) + "\\" + line + "\r\n"
  {
    hide TagBlock.XorAll, TagBlock.TwoHex, TagBlock.HeaderFields, HeaderContent, Split, Join;
    HeaderContentIsJoined(s, time, first, g);
  }

  // ----------------------------------------------------------------- serial lines

  /** What is picked are the pieces at these places, which are the places of the pieces within the limit. */
  predicate PickedAt(pieces: seq<string>, max: nat, picked: seq<string>, places: seq<nat>) {
    && |places| == |picked|
    && (forall k :: 0 <= k < |places| ==> places[k] < |pieces| && picked[k] == pieces[places[k]])
    && (forall k, j :: 0 <= k < j < |places| ==> places[k] < places[j])
    && (forall i :: 0 <= i < |pieces| ==> (i in places <==> |pieces[i]| <= max))
  }

  lemma PickedNext(pieces: seq<string>, piece: string, max: nat, picked: seq<string>, places: seq<nat>)
    requires PickedAt(pieces, max, picked, places)
    ensures |piece| <= max ==> PickedAt(pieces + [piece], max, picked + [piece], places + [|pieces|])
    ensures |piece| > max ==> PickedAt(pieces + [piece], max, picked, places)
  {
    var more := pieces + [piece];
    assert |pieces| !in places;
    forall i | 0 <= i < |pieces| ensures i in places <==> |more[i]| <= max {
      assert more[i] == pieces[i];
    }
  }

  /** The lines are the pieces within the limit, in order; all others are counted. */
  lemma {:induction false} LinesAreShortPieces(pieces: seq<string>, max: nat) returns (places: seq<nat>)
    ensures PickedAt(pieces, max, SerialFramer.Short(pieces, max), places)
    ensures |SerialFramer.Short(pieces, max)| + SerialFramer.CountLong(pieces, max) == |pieces|
  {
    places := [];
    if pieces != [] {
      hide PickedAt;
      var n := |pieces| - 1;
      places := LinesAreShortPieces(pieces[..n], max);
      PickedNext(pieces[..n], pieces[n], max, SerialFramer.Short(pieces[..n], max), places);
      assert pieces[..n] + [pieces[n]] == pieces;
      assert SerialFramer.Short(pieces[..n], max) + [] == SerialFramer.Short(pieces[..n], max);
      if |pieces[n]| <= max {
        places := places + [n];
      }
    }
  }
}
