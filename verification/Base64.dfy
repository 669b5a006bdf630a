/** Base64 of section 4 of RFC 4648, with padding. */
module Base64 {
  import opened Common
  import opened Text

  /** The alphabet of table 1. */
  function Symbol(v: nat): (c: char)
    requires v < 64
    ensures c != '|' && c != '='
  {
    if v < 26 then ('A' as int + v) as char
    else if v < 52 then ('a' as int + v - 26) as char
    else if v < 62 then ('0' as int + v - 52) as char
    else if v == 62 then '+' else '/'
  }

  function Sextet(c: char): (v: Option<nat>)
    ensures v.Some? ==> v.value < 64
  {
    if 'A' <= c <= 'Z' then Some(c as int - 'A' as int)
    else if 'a' <= c <= 'z' then Some(c as int - 'a' as int + 26)
    else if '0' <= c <= '9' then Some(c as int - '0' as int + 52)
    else if c == '+' then Some(62) else if c == '/' then Some(63) else None
  }

  /** One group: three bytes as four symbols, a shorter last group padded. */
  function Group(a: nat, b: nat, c: nat): string
    requires a < 256 && b < 256 && c < 256
  {
    [Symbol(a / 4), Symbol(a % 4 * 16 + b / 16), Symbol(b % 16 * 4 + c / 64), Symbol(c % 64)]
  }

  function LastGroup(b: string): string
    requires IsBytes(b) && 1 <= |b| <= 2
  {
    if |b| == 1 then [Symbol(b[0] as int / 4), Symbol(b[0] as int % 4 * 16), '=', '=']
    else [Symbol(b[0] as int / 4), Symbol(b[0] as int % 4 * 16 + b[1] as int / 16), Symbol(b[1] as int % 16 * 4), '=']
  }

  /** `b64encode`. */
  function Encode(b: string): string
    requires IsBytes(b)
  {
    if b == [] then ""
    else if |b| < 3 then LastGroup(b)
    else Group(b[0] as int, b[1] as int, b[2] as int) + Encode(b[3..])
  }

  /** The bytes of one group of four; only the last may be padded.  Bits beyond the last byte are ignored. */
  function GroupBytes(e: string, last: bool): (b: Option<string>)
    requires |e| == 4
    ensures b.Some? ==> IsBytes(b.value)
  {
    var (p, q, r, s) := (Sextet(e[0]), Sextet(e[1]), Sextet(e[2]), Sextet(e[3]));
    if p.None? || q.None? then None
    else
      var first := (p.value * 4 + q.value / 16) as char;
      if last && e[2] == '=' && e[3] == '=' then Some([first])
      else if r.None? then None
      else
        var second := (q.value % 16 * 16 + r.value / 4) as char;
        if last && e[3] == '=' then Some([first, second])
        else if s.None? then None
        else Some([first, second, (r.value % 4 * 64 + s.value) as char])
  }

  /** `b64decode(encoded, validate=True)`. */
  function Decode(e: string): (b: Option<string>)
    ensures b.Some? ==> IsBytes(b.value)
  {
    if e == [] then Some("")
    else if |e| < 4 then None
    else
      var group := GroupBytes(e[..4], |e| == 4);
      var rest := Decode(e[4..]);
      if group.None? || rest.None? then None else Some(group.value + rest.value)
  }

  lemma SymbolsAreSextets(v: nat)
    requires v < 64
    ensures Sextet(Symbol(v)) == Some(v)
  {
  }

  lemma BitsComeBack(a: nat, b: nat, c: nat)
    requires a < 256 && b < 256 && c < 256
    ensures a / 4 < 64 && a % 4 * 16 + b / 16 < 64 && b % 16 * 4 + c / 64 < 64 && c % 64 < 64
    ensures a / 4 * 4 + (a % 4 * 16 + b / 16) / 16 == a
    ensures (a % 4 * 16 + b / 16) % 16 * 16 + (b % 16 * 4 + c / 64) / 4 == b
    ensures (b % 16 * 4 + c / 64) % 4 * 64 + c % 64 == c
  {
  }

  lemma GroupIsExact(a: nat, b: nat, c: nat, last: bool)
    requires a < 256 && b < 256 && c < 256
    ensures GroupBytes(Group(a, b, c), last) == Some([a as char, b as char, c as char])
  {
    hide Symbol, Sextet;
    BitsComeBack(a, b, c);
    SymbolsAreSextets(a / 4);
    SymbolsAreSextets(a % 4 * 16 + b / 16);
    SymbolsAreSextets(b % 16 * 4 + c / 64);
    SymbolsAreSextets(c % 64);
  }

  lemma LastGroupIsExact(b: string)
    requires IsBytes(b) && 1 <= |b| <= 2
    ensures GroupBytes(LastGroup(b), true) == Some(b)
  {
    hide Symbol, Sextet;
    var x := b[0] as int;
    var y := if |b| == 2 then b[1] as int else 0;
    BitsComeBack(x, y, 0);
    SymbolsAreSextets(x / 4);
    SymbolsAreSextets(x % 4 * 16 + y / 16);
    SymbolsAreSextets(y % 16 * 4 + 0 / 64);
    assert b == if |b| == 2 then [x as char, y as char] else [x as char];
  }

  /** Decoding undoes encoding. */
  lemma {:induction false} DecodeOfEncode(b: string)
    requires IsBytes(b)
    ensures Decode(Encode(b)) == Some(b)
  {
    hide GroupBytes, Group, LastGroup;
    if b == [] {
    } else if |b| < 3 {
      var group := LastGroup(b);
      LastGroupIsExact(b);
      LastGroupLength(b);
      assert group[..4] == group && group[4..] == "";
      assert Decode("") == Some("") && b + "" == b;
    } else {
      var group := Group(b[0] as int, b[1] as int, b[2] as int);
      assert |group| == 4 by { GroupLength(b[0] as int, b[1] as int, b[2] as int); }
      GroupIsExact(b[0] as int, b[1] as int, b[2] as int, |b| == 3);
      DecodeOfEncode(b[3..]);
      assert Encode(b)[..4] == group && Encode(b)[4..] == Encode(b[3..]);
      assert |b| == 3 <==> Encode(b[3..]) == "" by { NonEmpty(b[3..]); }
      assert b == [b[0], b[1], b[2]] + b[3..];
    }
  }

  lemma GroupLength(a: nat, b: nat, c: nat)
    requires a < 256 && b < 256 && c < 256
    ensures |Group(a, b, c)| == 4 && Free(Group(a, b, c), '|')
  {
  }

  lemma LastGroupLength(b: string)
    requires IsBytes(b) && 1 <= |b| <= 2
    ensures |LastGroup(b)| == 4 && Free(LastGroup(b), '|')
  {
  }

  lemma NonEmpty(b: string)
    requires IsBytes(b)
    ensures Encode(b) == "" <==> b == ""
  {
    hide Group, LastGroup;
    if 1 <= |b| <= 2 { LastGroupLength(b); }
    if |b| >= 3 { GroupLength(b[0] as int, b[1] as int, b[2] as int); }
  }

  /** No symbol is the separator of hello packets. */
  lemma {:induction false} NoSeparator(b: string)
    requires IsBytes(b)
    ensures Free(Encode(b), '|')
  {
    hide Group, LastGroup;
    if 1 <= |b| <= 2 { LastGroupLength(b); }
    if |b| >= 3 {
      GroupLength(b[0] as int, b[1] as int, b[2] as int);
      NoSeparator(b[3..]);
    }
  }

  /** `_decode_base64`: non-empty, and equal to the encoding of what it decodes to. */
  function DecodeField(e: string): (b: Option<string>)
    ensures b.Some? ==> IsBytes(b.value)
  {
    if e == "" || Decode(e).None? || Encode(Decode(e).value) != e then None else Decode(e)
  }

  /** Accepted are exactly the encodings of non-empty byte strings, each as its own bytes. */
  lemma FieldsAreExact(e: string, b: string)
    requires IsBytes(b)
    ensures DecodeField(e) == Some(b) <==> b != "" && e == Encode(b)
  {
    hide Encode, Decode;
    DecodeOfEncode(b);
    NonEmpty(b);
    NonEmpty("");
  }
}
