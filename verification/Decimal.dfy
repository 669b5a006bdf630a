/** Decimal numbers as text, and the unsigned 64-bit timestamp of UDPSEC hellos (core/udpsec_protocol.py). */
module Decimal {
  import opened Common

  function DigitChar(d: nat): char
    requires d < 10
  {
    ('0' as int + d) as char
  }

  predicate IsDigit(c: char) {
    '0' <= c <= '9'
  }

  function DigitValue(c: char): (d: nat)
    requires IsDigit(c)
    ensures d < 10
  {
    c as int - '0' as int
  }

  predicate AllDigits(s: string) {
    forall i :: 0 <= i < |s| ==> IsDigit(s[i])
  }

  /** `str(n)`. */
  function Digits(n: nat): (s: string)
    ensures |s| >= 1
  {
    if n < 10 then [DigitChar(n)] else Digits(n / 10) + [DigitChar(n % 10)]
  }

  /** `int(s)` of plain digits. */
  function Value(s: string): nat
    requires AllDigits(s)
  {
    if s == [] then 0 else Value(s[..|s| - 1]) * 10 + DigitValue(s[|s| - 1])
  }

  /** No leading zero, except for zero itself. */
  predicate Canonical(s: string) {
    s != [] && AllDigits(s) && (s[0] == '0' ==> |s| == 1)
  }

  lemma {:induction false} DigitsAreCanonical(n: nat)
    ensures Canonical(Digits(n)) && Value(Digits(n)) == n && (Digits(n)[0] == '0' <==> n == 0)
  {
    if n >= 10 {
      DigitsAreCanonical(n / 10);
      var s := Digits(n);
      assert s[..|s| - 1] == Digits(n / 10);
    } else {
      assert Digits(n)[..0] == [];
    }
  }

  lemma {:induction false} CanonicalIsDigits(s: string)
    requires Canonical(s)
    ensures Digits(Value(s)) == s && (s[0] != '0' ==> Value(s) > 0)
  {
    var (init, last) := (s[..|s| - 1], s[|s| - 1]);
    assert s == init + [last];
    if |s| == 1 {
      assert init == [];
      assert Value(s) == DigitValue(last);
    } else {
      CanonicalIsDigits(init);
      assert Value(s) / 10 == Value(init) && Value(s) % 10 == DigitValue(last);
    }
  }

  // ------------------------------------------- text order and numeric order

  /** Lexicographic order of byte strings. */
  predicate LexLess(a: string, b: string) {
    b != [] && (a == [] || a[0] < b[0] || (a[0] == b[0] && LexLess(a[1..], b[1..])))
  }

  function Pow10(k: nat): (p: nat)
    ensures p >= 1
  {
    if k == 0 then 1 else 10 * Pow10(k - 1)
  }

  lemma {:induction false} ValueFromFront(s: string)
    requires s != [] && AllDigits(s)
    ensures Value(s) == DigitValue(s[0]) * Pow10(|s| - 1) + Value(s[1..])
    ensures Value(s[1..]) < Pow10(|s| - 1)
  {
    var n := |s| - 1;
    if n == 0 {
      assert s[..0] == [] && s[1..] == [];
    } else {
      ValueFromFront(s[..n]);
      assert s[..n][1..] == s[1..][..n - 1];
      assert s[1..][n - 1] == s[n];
      TenTimes(DigitValue(s[0]), Pow10(n - 1));
    }
  }

  lemma TenTimes(d: nat, p: nat)
    ensures d * (10 * p) == 10 * (d * p)
  {
  }

  lemma LeadingDigit(x: nat, y: nat, p: nat, u: nat, v: nat)
    requires u < p && v < p
    ensures x < y ==> x * p + u < y * p + v
    ensures x == y ==> (x * p + u < y * p + v <==> u < v)
  {
    if x < y { assert (x + 1) * p <= y * p; }
  }

  /** On digit strings of one length, the order of the texts is the order of the numbers. */
  lemma {:induction false} LexIsNumeric(a: string, b: string)
    requires |a| == |b| && AllDigits(a) && AllDigits(b)
    ensures LexLess(a, b) <==> Value(a) < Value(b)
  {
    hide Value, Pow10;
    if a == [] {
    } else {
      ValueFromFront(a);
      ValueFromFront(b);
      LexIsNumeric(a[1..], b[1..]);
      LeadingDigit(DigitValue(a[0]), DigitValue(b[0]), Pow10(|a| - 1), Value(a[1..]), Value(b[1..]));
      LeadingDigit(DigitValue(b[0]), DigitValue(a[0]), Pow10(|a| - 1), Value(b[1..]), Value(a[1..]));
    }
  }

  lemma {:induction false} PowGrows(j: nat, k: nat)
    requires j <= k
    ensures Pow10(j) <= Pow10(k)
  {
    if j < k { PowGrows(j, k - 1); }
  }

  /** A canonical positive number has as many digits as its size says. */
  lemma LengthIsSize(s: string)
    requires Canonical(s)
    ensures Value(s) < Pow10(|s|)
    ensures s[0] != '0' ==> Pow10(|s| - 1) <= Value(s)
  {
    hide Value;
    ValueFromFront(s);
    Multiples(DigitValue(s[0]), Pow10(|s| - 1));
  }

  lemma Multiples(d: nat, p: nat)
    requires d < 10
    ensures d * p <= 9 * p && (d > 0 ==> p <= d * p)
  {
  }

  // -------------------------------------------------------------- the timestamp

  const MAX_TIMESTAMP := 0xFFFF_FFFF_FFFF_FFFF

  const MAX_TIMESTAMP_ASCII := "18446744073709551615"

  lemma OneMoreDigit(n: nat, s: string, d: nat)
    requires n > 0 && d < 10 && Digits(n) == s
    ensures Digits(10 * n + d) == s + [DigitChar(d)]
  {
  }

  lemma SevenDigits()
    ensures Digits(1844674) == "1844674"
  {
    assert Digits(1) == "1";
    hide Digits;
    OneMoreDigit(1, "1", 8);
    OneMoreDigit(18, "18", 4);
    OneMoreDigit(184, "184", 4);
    OneMoreDigit(1844, "1844", 6);
    OneMoreDigit(18446, "18446", 7);
    OneMoreDigit(184467, "184467", 4);
  }

  lemma FourteenDigits()
    ensures Digits(18446744073709) == "18446744073709"
  {
    SevenDigits();
    hide Digits;
    OneMoreDigit(1844674, "1844674", 4);
    OneMoreDigit(18446744, "18446744", 0);
    OneMoreDigit(184467440, "184467440", 7);
    OneMoreDigit(1844674407, "1844674407", 3);
    OneMoreDigit(18446744073, "18446744073", 7);
    OneMoreDigit(184467440737, "184467440737", 0);
    OneMoreDigit(1844674407370, "1844674407370", 9);
  }

  lemma MaxTimestamp()
    ensures Digits(MAX_TIMESTAMP) == MAX_TIMESTAMP_ASCII
  {
    FourteenDigits();
    hide Digits;
    OneMoreDigit(18446744073709, "18446744073709", 5);
    OneMoreDigit(184467440737095, "184467440737095", 5);
    OneMoreDigit(1844674407370955, "1844674407370955", 1);
    OneMoreDigit(18446744073709551, "18446744073709551", 6);
    OneMoreDigit(184467440737095516, "184467440737095516", 1);
    OneMoreDigit(1844674407370955161, "1844674407370955161", 5);
  }

  /** `_parse_timestamp`. */
  function ParseTimestamp(encoded: string): Option<nat> {
    if encoded == "0" then Some(0)
    else if encoded == [] || !('1' <= encoded[0] <= '9') || !AllDigits(encoded[1..]) then None
    else if |encoded| > |MAX_TIMESTAMP_ASCII|
            || (|encoded| == |MAX_TIMESTAMP_ASCII| && LexLess(MAX_TIMESTAMP_ASCII, encoded)) then None
    else
      assert AllDigits(encoded) by {
        assert forall i :: 0 < i < |encoded| ==> encoded[i] == encoded[1..][i - 1];
      }
      if Digits(Value(encoded)) != encoded then None else Some(Value(encoded))
  }

  /** Accepted are exactly the canonical decimals of the unsigned 64-bit numbers. */
  lemma TimestampsAreExact(encoded: string, n: nat)
    ensures ParseTimestamp(encoded) == Some(n) <==> n <= MAX_TIMESTAMP && encoded == Digits(n)
  {
    hide Digits, Value, LexLess, Pow10;
    MaxTimestamp();
    DigitsAreCanonical(n);
    DigitsAreCanonical(MAX_TIMESTAMP);
    assert encoded != [] ==> encoded == [encoded[0]] + encoded[1..];
    if Canonical(encoded) {
      CanonicalIsDigits(encoded);
      WithinMaximum(encoded);
    }
  }

  /** Length first, then text order: that is the comparison of the numbers. */
  lemma WithinMaximum(encoded: string)
    requires Canonical(encoded) && Canonical(MAX_TIMESTAMP_ASCII) && Value(MAX_TIMESTAMP_ASCII) == MAX_TIMESTAMP
    ensures |encoded| > |MAX_TIMESTAMP_ASCII|
            || (|encoded| == |MAX_TIMESTAMP_ASCII| && LexLess(MAX_TIMESTAMP_ASCII, encoded))
            <==> Value(encoded) > MAX_TIMESTAMP
  {
    hide Value, LexLess, Pow10;
    LengthIsSize(encoded);
    LengthIsSize(MAX_TIMESTAMP_ASCII);
    if |encoded| == |MAX_TIMESTAMP_ASCII| {
      LexIsNumeric(MAX_TIMESTAMP_ASCII, encoded);
    } else if |encoded| > |MAX_TIMESTAMP_ASCII| {
      PowGrows(|MAX_TIMESTAMP_ASCII|, |encoded| - 1);
    } else {
      PowGrows(|encoded|, |MAX_TIMESTAMP_ASCII| - 1);
    }
  }
}
