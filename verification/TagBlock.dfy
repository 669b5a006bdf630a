/**
 The TAG block: written by meta_writer.py and core/output_builder.py, read by
 core/parsed_sentence.py.  Text is ASCII.
 */
module TagBlock {
  import opened Common
  import opened Text
  import opened Decimal
  import opened NmeaScanner
  import ProcessorModel

  // ---------------------------------------------------------------------- writing

  /** Exclusive or, bit by bit. */
  function Xor(a: nat, b: nat): nat {
    if a == 0 && b == 0 then 0
    else 2 * Xor(a / 2, b / 2) + if a % 2 == b % 2 then 0 else 1
  }

  function XorAll(data: string): nat {
    if data == [] then 0 else Xor(XorAll(data[..|data| - 1]), data[|data| - 1] as int)
  }

  function HexDigit(n: nat): (c: char)
    requires n < 16
    ensures Hex(c)
  {
    if n < 10 then ('0' as int + n) as char else ('A' as int + n - 10) as char
  }

  /** `f"{n:02X}"` of a value below 256. */
  function TwoHex(n: nat): string {
    [HexDigit(n / 16 % 16), HexDigit(n % 16)]
  }

  /** `nmea_checksum`. */
  method NmeaChecksum(data: string) returns (text: string)
    ensures text == TwoHex(XorAll(data))
  {
    var checksum := 0;
    for i := 0 to |data|
      invariant checksum == XorAll(data[..i])
    {
      assert data[..i + 1][..i] == data[..i];
      checksum := Xor(checksum, data[i] as int);
    }
    assert data[..|data|] == data;
    text := TwoHex(checksum);
  }

  lemma {:induction false} XorWithZero(a: nat)
    ensures Xor(a, 0) == a && Xor(0, a) == a
  {
    if a > 0 { XorWithZero(a / 2); }
  }

  lemma {:induction false} XorTwice(a: nat)
    ensures Xor(a, a) == 0
  {
    if a > 0 { XorTwice(a / 2); }
  }

  lemma {:induction false} XorParts(a: nat, b: nat)
    ensures Xor(a, b) / 2 == Xor(a / 2, b / 2) && Xor(a, b) % 2 == if a % 2 == b % 2 then 0 else 1
  {
  }

  lemma {:induction false} XorAssociates(a: nat, b: nat, c: nat)
    ensures Xor(Xor(a, b), c) == Xor(a, Xor(b, c))
    decreases a + b + c
  {
    if a + b + c > 0 {
      XorParts(a, b);
      XorParts(b, c);
      XorParts(Xor(a, b), c);
      XorParts(a, Xor(b, c));
      XorAssociates(a / 2, b / 2, c / 2);
    }
  }

  /** A receiver that continues the sum over content and checksum gets zero exactly for the written one. */
  lemma ChecksumDetects(data: string, sum: nat)
    ensures Xor(XorAll(data), sum) == 0 <==> sum == XorAll(data)
  {
    XorTwice(XorAll(data));
    if Xor(XorAll(data), sum) == 0 {
      XorAssociates(XorAll(data), XorAll(data), sum);
      XorWithZero(XorAll(data));
      XorWithZero(sum);
    }
  }

  /** `format_header`. */
  function FormatHeader(content: string): string {
    "\\" + content + "*" + TwoHex(XorAll(content)) + "\\"
  }

  /** The group triplet `<part>-<total>-<gid>`. */
  datatype Triplet = Triplet(part: nat, total: nat, gid: string)

  function TripletText(g: Triplet): string {
    Join([Digits(g.part), Digits(g.total), g.gid], '-')
  }

  function CField(time: nat): string {
    "c:" + Digits(time)
  }

  function SField(s: string): string {
    "s:" + s
  }

  function GField(g: Triplet): string {
    "g:" + TripletText(g)
  }

  /** The fields of a header: `c` and `s` unless this is a later part, `g` if there is a triplet. */
  function HeaderFields(s: string, time: nat, first: bool, g: Option<Triplet>): seq<string> {
    if g.None? then [CField(time), SField(s)]
    else if first then [CField(time), SField(s), GField(g.value)]
    else [GField(g.value)]
  }

  /** `wrap_with_meta`, with the time already chosen. */
  function WrapWithMeta(line: string, s: string, time: nat, first: bool, g: Option<Triplet>): string {
    if |Split(line, ',')| < 4 then line
    else FormatHeader(Join(HeaderFields(s, time, first, g), ',')) + line
  }

  /** `build_output_bytes`. */
  function BuildOutput(line: string, s: string, time: nat, first: bool, g: Option<Triplet>): string {
    WrapWithMeta(line, s, time, first, g) + "\r\n"
  }

  // ---------------------------------------------------------------------- reading

  /** `int(text)` for ASCII text: spaces around, a sign, digits with single underscores between them. */
  function IntText(text: string): Option<int> {
    var s := ProcessorModel.Strip(text);
    if s != "" && (s[0] == '+' || s[0] == '-') then
      var n := Unsigned(s[1..]);
      if n.None? then None
      else
        var v: int := n.value;
        Some(if s[0] == '-' then -v else v)
    else
      var n := Unsigned(s);
      if n.None? then None else Some(n.value)
  }

  function Unsigned(s: string): Option<nat> {
    if s == "" || !IsDigit(s[|s| - 1]) then None
    else if |s| == 1 then Some(DigitValue(s[0]))
    else
      var init := s[..|s| - 1];
      var before := if init[|init| - 1] == '_' then Unsigned(init[..|init| - 1]) else Unsigned(init);
      if before.None? then None else Some(before.value * 10 + DigitValue(s[|s| - 1]))
  }

  datatype Fragment = Fragment(total: int, ordinal: int, sequentialId: string, channel: string)

  /** `_parse_fragment`. */
  function ParseFragment(text: string): Option<Fragment> {
    var fields := Split(text, ',');
    if |fields| < 7 then None
    else
      var (total, ordinal) := (IntText(fields[1]), IntText(fields[2]));
      if total.None? || ordinal.None? then None
      else if total.value < 1 || ordinal.value < 1 || ordinal.value > total.value then None
      else Some(Fragment(total.value, ordinal.value, fields[3], fields[4]))
  }

  /** Key and value of a pair, if it has a colon. */
  function KeyAndValue(pair: string): Option<(string, string)> {
    var key := Before(pair, ':');
    if |key| == |pair| then None else Some((key, pair[|key| + 1..]))
  }

  /** The value of the last pair with a key. */
  function LastValue(pairs: seq<string>, key: string): Option<string> {
    if pairs == [] then None
    else
      var kv := KeyAndValue(pairs[|pairs| - 1]);
      if kv.Some? && kv.value.0 == key then Some(kv.value.1) else LastValue(pairs[..|pairs| - 1], key)
  }

  datatype Group = Group(part: int, total: int, gid: string, preservable: Option<string>)

  datatype Metadata = Metadata(s: Option<string>, c: Option<nat>, g: Option<Group>)

  /** `_parse_c_value`. */
  function ParseC(value: Option<string>): Option<nat> {
    if value.None? || value.value == "" || !AllDigits(value.value) then None else Some(Value(value.value))
  }

  /** `_parse_g_value`: `split("-", 2)` and two integers. */
  function ParseG(value: Option<string>): Option<Group> {
    if value.None? then None else
    var text := value.value;
    var part := Before(text, '-');
    if |part| >= |text| then None else
    var rest := text[|part| + 1..];
    var total := Before(rest, '-');
    if |total| >= |rest| then None else
    var gid := rest[|total| + 1..];
    var (p, t) := (IntText(part), IntText(total));
    if p.None? || t.None? then None
    else Some(Group(p.value, t.value, gid, if gid != "" && AllDigits(gid) then Some(gid) else None))
  }

  /** The pairs of a TAG block, delimiters included. */
  function PairsOf(tag: string): seq<string>
    requires |tag| >= 2
  {
    Split(Before(tag[1..|tag| - 1], '*'), ',')
  }

  function MetadataOf(pairs: seq<string>): Metadata {
    Metadata(LastValue(pairs, "s"), ParseC(LastValue(pairs, "c")), ParseG(LastValue(pairs, "g")))
  }

  /** `_parse_tag_metadata`, from the text of the TAG block. */
  method ParseTagMetadata(tag: Option<string>) returns (m: Metadata)
    requires tag.Some? ==> |tag.value| >= 2
    ensures m == if tag.None? then Metadata(None, None, None) else MetadataOf(PairsOf(tag.value))
  {
    if tag.None? {
      return Metadata(None, None, None);
    }
    hide ParseC, ParseG, Split, Before;
    var pairs := PairsOf(tag.value);
    var s: Option<string>, c: Option<string>, g: Option<string> := None, None, None;
    for i := 0 to |pairs|
      invariant s == LastValue(pairs[..i], "s") && c == LastValue(pairs[..i], "c") && g == LastValue(pairs[..i], "g")
    {
      assert pairs[..i + 1][..i] == pairs[..i];
      var kv := KeyAndValue(pairs[i]);
      if kv.Some? {
        if kv.value.0 == "s" {
          s := Some(kv.value.1);
        } else if kv.value.0 == "c" {
          c := Some(kv.value.1);
        } else if kv.value.0 == "g" {
          g := Some(kv.value.1);
        }
      }
    }
    assert pairs[..|pairs|] == pairs;
    m := Metadata(s, ParseC(c), ParseG(g));
  }

  // ------------------------------------------------------------------ what is written

  /** Letters, digits, `_`, `:` and `-`: what the fields of a header consist of. */
  predicate FieldChar(c: char) {
    ProcessorModel.SafeChar(c) || c == ':' || c == '-'
  }

  predicate FieldText(s: string) {
    forall i :: 0 <= i < |s| ==> FieldChar(s[i])
  }

  predicate Name(s: string) {
    forall i :: 0 <= i < |s| ==> ProcessorModel.SafeChar(s[i])
  }

  predicate NumericId(gid: string) {
    gid != "" && AllDigits(gid)
  }

  lemma DigitsAreName(n: nat)
    ensures Name(Digits(n)) && Digits(n) != "" && AllDigits(Digits(n))
  {
    DigitsAreCanonical(n);
  }

  lemma NumberIsName(s: string)
    requires AllDigits(s)
    ensures Name(s)
  {
  }

  lemma TripletIsText(g: Triplet)
    requires NumericId(g.gid)
    ensures TripletText(g) == Digits(g.part) + ['-'] + (Digits(g.total) + ['-'] + g.gid)
    ensures FieldText(TripletText(g))
  {
    hide Digits;
    DigitsAreName(g.part);
    DigitsAreName(g.total);
    NumberIsName(g.gid);
    var parts := [Digits(g.part), Digits(g.total), g.gid];
    assert parts[1..] == [Digits(g.total), g.gid] && parts[1..][1..] == [g.gid];
    assert Join([g.gid], '-') == g.gid;
    assert Join(parts[1..], '-') == Digits(g.total) + ['-'] + g.gid;
  }

  lemma FieldsAreText(s: string, time: nat, first: bool, g: Option<Triplet>)
    requires Name(s) && (g.Some? ==> NumericId(g.value.gid))
    ensures forall i :: 0 <= i < |HeaderFields(s, time, first, g)| ==> FieldText(HeaderFields(s, time, first, g)[i])
  {
    hide Digits, TripletText;
    DigitsAreName(time);
    if g.Some? { TripletIsText(g.value); }
  }

  lemma TextIsFree(s: string, c: char)
    requires FieldText(s) && !FieldChar(c)
    ensures Free(s, c)
  {
  }

  lemma {:induction false} JoinedIsFree(fields: seq<string>, c: char)
    requires (forall i :: 0 <= i < |fields| ==> FieldText(fields[i])) && !FieldChar(c) && c != ','
    ensures Free(Join(fields, ','), c)
  {
    if fields != [] {
      TextIsFree(fields[0], c);
      if |fields| > 1 {
        assert forall i :: 0 <= i < |fields[1..]| ==> fields[1..][i] == fields[i + 1];
        JoinedIsFree(fields[1..], c);
      }
    }
  }

  /** Reading a header gives back its fields. */
  lemma HeaderPairs(fields: seq<string>)
    requires fields != [] && forall i :: 0 <= i < |fields| ==> FieldText(fields[i])
    ensures |FormatHeader(Join(fields, ','))| >= 2
    ensures PairsOf(FormatHeader(Join(fields, ','))) == fields
  {
    hide Join, Split, Before, XorAll;
    var content := Join(fields, ',');
    var tag := FormatHeader(content);
    var sum := TwoHex(XorAll(content));
    JoinedIsFree(fields, '*');
    assert tag[1..|tag| - 1] == content + ['*'] + sum;
    BeforeMark(content, '*', sum);
    forall i | 0 <= i < |fields| ensures Free(fields[i], ',') { TextIsFree(fields[i], ','); }
    SplitOfJoin(fields, ',');
  }

  lemma PairIs(key: string, value: string)
    requires Free(key, ':')
    ensures KeyAndValue(key + ":" + value) == Some((key, value))
  {
    var pair := key + ":" + value;
    assert pair == key + [':'] + value && pair[|key|] == ':';
    BeforeMark(key, ':', value);
    assert pair[|key| + 1..] == value;
  }

  lemma PairsAre(s: string, time: nat, g: Triplet)
    ensures KeyAndValue(CField(time)) == Some(("c", Digits(time)))
    ensures KeyAndValue(SField(s)) == Some(("s", s))
    ensures KeyAndValue(GField(g)) == Some(("g", TripletText(g)))
  {
    hide KeyAndValue, Digits, TripletText;
    PairIs("c", Digits(time));
    PairIs("s", s);
    PairIs("g", TripletText(g));
    assert "c" + ":" == "c:" && "s" + ":" == "s:" && "g" + ":" == "g:";
  }

  lemma LastValueStep(pairs: seq<string>, pair: string, key: string)
    ensures LastValue(pairs + [pair], key)
            == if KeyAndValue(pair).Some? && KeyAndValue(pair).value.0 == key then Some(KeyAndValue(pair).value.1)
               else LastValue(pairs, key)
  {
    assert (pairs + [pair])[..|pairs|] == pairs;
  }

  /** The values under a key of the written fields. */
  lemma WrittenValues(s: string, time: nat, first: bool, g: Option<Triplet>)
    ensures var pairs := HeaderFields(s, time, first, g);
            && LastValue(pairs, "s") == (if first || g.None? then Some(s) else None)
            && LastValue(pairs, "c") == (if first || g.None? then Some(Digits(time)) else None)
            && LastValue(pairs, "g") == (if g.None? then None else Some(TripletText(g.value)))
  {
    var triplet := if g.Some? then g.value else Triplet(0, 0, "");
    PairsAre(s, time, triplet);
    hide LastValue, KeyAndValue, Digits, TripletText, CField, SField, GField;
    NoValue("s");
    NoValue("c");
    NoValue("g");
    forall key | key in {"s", "c", "g"}
      ensures LastValue([CField(time)], key) == if key == "c" then Some(Digits(time)) else None
      ensures LastValue([CField(time), SField(s)], key)
              == if key == "c" then Some(Digits(time)) else if key == "s" then Some(s) else None
      ensures LastValue([CField(time), SField(s), GField(triplet)], key)
              == if key == "c" then Some(Digits(time)) else if key == "s" then Some(s) else Some(TripletText(triplet))
      ensures LastValue([GField(triplet)], key) == if key == "g" then Some(TripletText(triplet)) else None
    {
      LastValueStep([], CField(time), key);
      LastValueStep([CField(time)], SField(s), key);
      LastValueStep([CField(time), SField(s)], GField(triplet), key);
      LastValueStep([], GField(triplet), key);
      assert [] + [CField(time)] == [CField(time)] && [] + [GField(triplet)] == [GField(triplet)];
      assert [CField(time)] + [SField(s)] == [CField(time), SField(s)];
      assert [CField(time), SField(s)] + [GField(triplet)] == [CField(time), SField(s), GField(triplet)];
    }
  }

  lemma NoValue(key: string)
    ensures LastValue([], key) == None
  {
  }

  lemma StripOfDigits(s: string)
    requires AllDigits(s)
    ensures ProcessorModel.Strip(s) == s
  {
  }

  lemma {:induction false} UnsignedOfDigits(s: string)
    requires s != "" && AllDigits(s)
    ensures Unsigned(s) == Some(Value(s))
  {
    if |s| == 1 {
      assert s[..0] == "";
    } else {
      UnsignedOfDigits(s[..|s| - 1]);
    }
  }

  lemma IntOfDigits(n: nat)
    ensures IntText(Digits(n)) == Some(n)
  {
    DigitsAreCanonical(n);
    hide Digits, Unsigned, Value, ProcessorModel.Strip;
    StripOfDigits(Digits(n));
    UnsignedOfDigits(Digits(n));
  }

  lemma ReadTriplet(g: Triplet)
    requires NumericId(g.gid)
    ensures ParseG(Some(TripletText(g))) == Some(Group(g.part, g.total, g.gid, Some(g.gid)))
  {
    hide Digits, IntText, Before, TripletText;
    TripletIsText(g);
    DigitsAreName(g.part);
    DigitsAreName(g.total);
    IntOfDigits(g.part);
    IntOfDigits(g.total);
    var text := TripletText(g);
    var rest := Digits(g.total) + ['-'] + g.gid;
    BeforeMark(Digits(g.part), '-', rest);
    BeforeMark(Digits(g.total), '-', g.gid);
    assert text[|Digits(g.part)| + 1..] == rest && rest[|Digits(g.total)| + 1..] == g.gid;
  }

  function Read(g: Triplet): Group {
    Group(g.part, g.total, g.gid, Some(g.gid))
  }

  /** What a reader finds in a written header. */
  lemma HeaderMeans(s: string, time: nat, first: bool, g: Option<Triplet>)
    requires Name(s) && (g.Some? ==> NumericId(g.value.gid))
    ensures |FormatHeader(Join(HeaderFields(s, time, first, g), ','))| >= 2
    ensures MetadataOf(PairsOf(FormatHeader(Join(HeaderFields(s, time, first, g), ','))))
            == Metadata(if first || g.None? then Some(s) else None, if first || g.None? then Some(time) else None,
                        if g.None? then None else Some(Read(g.value)))
  {
    hide Digits, LastValue, HeaderFields, TripletText, ParseG, FormatHeader, PairsOf, Join, Value;
    FieldsAreText(s, time, first, g);
    SomeFields(s, time, first, g);
    HeaderPairs(HeaderFields(s, time, first, g));
    WrittenValues(s, time, first, g);
    DigitsAreCanonical(time);
    NoGroup();
    if g.Some? { ReadTriplet(g.value); }
  }

  lemma SomeFields(s: string, time: nat, first: bool, g: Option<Triplet>)
    ensures HeaderFields(s, time, first, g) != []
  {
  }

  lemma NoGroup()
    ensures ParseG(None) == None
  {
  }

  lemma HeaderIsQuiet(content: string)
    requires Free(content, '!') && Free(content, '\\')
    ensures Free(FormatHeader(content), '!') && |FormatHeader(content)| == |content| + 5
    ensures var tag := FormatHeader(content);
            tag[0] == '\\' && tag[|tag| - 1] == '\\' && forall i :: 0 < i < |tag| - 1 ==> tag[i] != '\\'
  {
    hide XorAll;
    var tag := FormatHeader(content);
    var sum := TwoHex(XorAll(content));
    assert Hex(sum[0]) && Hex(sum[1]);
    assert tag == ['\\'] + content + ['*', sum[0], sum[1], '\\'];
  }

  /** The backslash right before the sentence closes the header, and only the first one opens it. */
  lemma TagIsFound(tag: string, rest: string)
    requires |tag| >= 2 && tag[0] == '\\' && tag[|tag| - 1] == '\\' && forall i :: 0 < i < |tag| - 1 ==> tag[i] != '\\'
    ensures FindAdjacentTag(tag + rest, |tag|) == Some(Span(0, |tag|))
  {
    var p := tag + rest;
    assert forall i :: 0 <= i < |tag| ==> p[i] == tag[i];
    var k := LastBefore(p, '\\', |tag| - 1);
    assert p[0] == '\\';
  }

  lemma EnoughFields(line: string)
    requires ParseFragment(line).Some?
    ensures |Split(line, ',')| >= 7
  {
    hide Split, IntText;
  }

  /**
   Writer and reader undo each other.  For a line the scanner itself returned, with
   a valid fragment, the built output holds exactly one sentence, which is the
   line, right behind its TAG block; and from that block the reader recovers `c`,
   `s` and `g` of a first or single part, and only `g` of a later part.
   */
  lemma OutputIsReadBack(
    line: string, s: string, time: nat, first: bool, g: Option<Triplet>, includeVdo: bool)
    requires WholeMatch(line, includeVdo) && ParseFragment(line).Some?
    requires Name(s) && (g.Some? ==> NumericId(g.value.gid))
    ensures var out := BuildOutput(line, s, time, first, g);
            var h := |out| - 2 - |line|;
            && 2 <= h && Spans(out, 0, includeVdo) == [Span(h, h + |line|)] && out[h..h + |line|] == line
            && FindAdjacentTag(out, h) == Some(Span(0, h))
            && MetadataOf(PairsOf(out[0..h]))
               == Metadata(if first || g.None? then Some(s) else None, if first || g.None? then Some(time) else None,
                           if g.None? then None else Some(Read(g.value)))
  {
    hide Split, Join, HeaderFields, FormatHeader, WholeMatch, Spans, FindAdjacentTag, PairsOf, MetadataOf, ParseFragment;
    var fields := HeaderFields(s, time, first, g);
    var content := Join(fields, ',');
    var tag := FormatHeader(content);
    EnoughFields(line);
    FieldsAreText(s, time, first, g);
    JoinedIsFree(fields, '!');
    JoinedIsFree(fields, '\\');
    HeaderIsQuiet(content);
    HeaderMeans(s, time, first, g);
    var out := BuildOutput(line, s, time, first, g);
    assert out == tag + line + "\r\n" && out == tag + (line + "\r\n");
    OneLineIsFound(tag, line, "\r\n", includeVdo);
    TagIsFound(tag, line + "\r\n");
    assert out[|tag|..|tag| + |line|] == line && out[0..|tag|] == tag;
  }

  /** The bytes of a processor output. */
  function Rendered(o: ProcessorModel.Output): string
    requires o.time >= 0 && (o.g.Some? ==> o.g.value.0 >= 0 && o.g.value.1 >= 0)
  {
    BuildOutput(o.line, o.s, o.time, o.first,
                if o.g.None? then None else Some(Triplet(o.g.value.0, o.g.value.1, o.g.value.2)))
  }

  /** Whatever the processor chooses as source is a name. */
  lemma SourcesAreNames(station: Option<string>, name: Option<string>, incoming: Option<string>, ip: Option<string>)
    ensures Name(ProcessorModel.ChooseS(station, name, incoming, ip))
  {
    hide ProcessorModel.Sanitize;
  }

  /**
   Every part of a message the processor sends is read back: the part's own line
   and nothing else, its place in the message with the group id, and with the
   first part the source and the time.
   */
  lemma PartsAreReadBack(
    lines: seq<string>, stamp: ProcessorModel.Stamp, gid: string, targets: seq<nat>, wall: int, tagSingle: bool,
    station: Option<string>, name: Option<string>, incoming: Option<string>, ip: Option<string>,
    includeVdo: bool, i: nat)
    requires i < |lines| && WholeMatch(lines[i], includeVdo) && ParseFragment(lines[i]).Some?
    requires NumericId(gid) && ProcessorModel.HeaderTime(stamp, wall) >= 0
    ensures var s := ProcessorModel.ChooseS(station, name, incoming, ip);
            var time := ProcessorModel.HeaderTime(stamp, wall);
            var out := Rendered(ProcessorModel.MessageParts(lines, stamp, gid, s, targets, wall, tagSingle)[i]);
            var h := |out| - 2 - |lines[i]|;
            var grouped := |lines| > 1 || tagSingle;
            && 2 <= h && Spans(out, 0, includeVdo) == [Span(h, h + |lines[i]|)] && out[h..h + |lines[i]|] == lines[i]
            && FindAdjacentTag(out, h) == Some(Span(0, h))
            && MetadataOf(PairsOf(out[0..h]))
               == Metadata(if i == 0 || !grouped then Some(s) else None, if i == 0 || !grouped then Some(time) else None,
                           if grouped then Some(Group(i + 1, |lines|, gid, Some(gid))) else None)
  {
    hide ProcessorModel.ChooseS, WholeMatch, ParseFragment, Spans, FindAdjacentTag, PairsOf, MetadataOf, BuildOutput;
    SourcesAreNames(station, name, incoming, ip);
    OutputIsReadBack(
      lines[i], ProcessorModel.ChooseS(station, name, incoming, ip), ProcessorModel.HeaderTime(stamp, wall), i == 0,
      if |lines| > 1 || tagSingle then Some(Triplet(i + 1, |lines|, gid)) else None, includeVdo);
  }
}
