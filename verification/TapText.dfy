/**
 The texts of scripts/local-ai/compact_output.py letter by letter, and what its tests on texts mean:
 the round trips of the other modules would also hold of another format.
 */
module TapText {
  import opened Common
  import opened JsonText
  import opened TapRecord
  import opened TapScan
  import opened TapPacker
  import opened TapCompact
  import opened Utf8

  // ---------------------------------------------------------------- JSON

  /** The sixteen digits: 0 to 9 and a to f. */
  lemma HexDigits(n: nat)
    requires n < 16
    ensures HexDigit(n) as int == if n < 10 then 48 + n else 87 + n
  {}

  /** Upper-case digits are read as well, and nothing else. */
  lemma HexValues(c: char, v: nat)
    ensures HexValue(c) == Some(v) <==>
      || (48 <= c as int <= 57 && v == c as int - 48)
      || (97 <= c as int <= 102 && v == c as int - 87)
      || (65 <= c as int <= 70 && v == c as int - 55)
  {}

  /** What a character becomes inside a string: seven escapes, `\u00..` for other controls, else itself. */
  lemma EscapeText(c: char)
    ensures EscapeChar(c)
         == var n := c as int;
            if n == 34 then "\\\"" else if n == 92 then "\\\\"
            else if n == 8 then "\\b" else if n == 9 then "\\t" else if n == 10 then "\\n"
            else if n == 12 then "\\f" else if n == 13 then "\\r"
            else if n < 32 then "\\u00" + [if n < 16 then '0' else '1', HexDigit(n % 16)]
            else [c]
  {
    assert HexDigit(0) == '0' && HexDigit(1) == '1';
  }

  /** The escapes that are read, by the code of the character behind the backslash. */
  lemma EscapesRead(c: char, rest: string)
    ensures ReadEscape([c] + rest)
         == var n := c as int;
            if n in {34, 92, 47} then Read(c, rest)
            else if n == 98 then Read(8 as char, rest) else if n == 116 then Read(9 as char, rest)
            else if n == 110 then Read(10 as char, rest) else if n == 102 then Read(12 as char, rest)
            else if n == 114 then Read(13 as char, rest)
            else if n == 117 && |rest| >= 4 then ReadHex(rest[..4], rest[4..])
            else Invalid
  {
    assert ([c] + rest)[1..] == rest;
  }

  /** Four digits are a number in base 16; the halves of surrogate pairs are no characters. */
  lemma HexRead(digits: string, rest: string, a: nat, b: nat, c: nat, d: nat)
    requires |digits| == 4 && HexValue(digits[0]) == Some(a) && HexValue(digits[1]) == Some(b)
    requires HexValue(digits[2]) == Some(c) && HexValue(digits[3]) == Some(d)
    ensures a < 16 && b < 16 && c < 16 && d < 16
    ensures var n := ((a * 16 + b) * 16 + c) * 16 + d;
      ReadHex(digits, rest) == if 55296 <= n <= 57343 then Invalid else Read(n as char, rest)
  {}

  /** Raw control characters are rejected; every other character but a backslash stands for itself. */
  lemma RawRead(c: char, rest: string)
    requires c as int != 92
    ensures ReadChar([c] + rest) == if c as int < 32 then Invalid else Read(c, rest)
  {
    assert ([c] + rest)[1..] == rest;
  }

  /** A payload is a JSON array of three strings and the type, without spaces. */
  lemma PayloadText(r: Record)
    ensures Payload(r)
         == "[" + (("\"" + Escape(r.ordinal) + "\"") + ("," + (("\"" + Escape(r.name) + "\"")
            + ("," + (("\"" + Escape(r.duration) + "\"") + ("," + (if r.typed then "\"test\"" else "null"))))))
            + "]")
  {
    var last := if r.typed then Text("test") else Null;
    ItemsText(Text(r.ordinal), Text(r.name), Text(r.duration), last);
    TypeText();
  }

  lemma ItemsText(a: Item, b: Item, c: Item, d: Item)
    ensures WriteItems([a, b, c, d])
         == WriteItem(a) + ("," + (WriteItem(b) + ("," + (WriteItem(c) + ("," + WriteItem(d))))))
  {
    assert [a, b, c, d][1..] == [b, c, d] && [b, c, d][1..] == [c, d] && [c, d][1..] == [d];
    assert WriteItems([c, d]) == WriteItem(c) + ("," + WriteItem(d));
  }

  lemma TypeText()
    ensures Quote("test") == "\"test\""
  {
    var s := "test";
    assert s[1..] == "est" && s[1..][1..] == "st" && s[1..][1..][1..] == "t" && s[1..][1..][1..][1..] == "";
    assert Escape(s) == "test";
  }

  /** Numbers are decimal without leading zeros. */
  lemma {:induction false} NatText(n: nat)
    ensures var w := WriteNat(n);
      && w != [] && (forall i :: 0 <= i < |w| ==> 48 <= w[i] as int <= 57)
      && (w[0] as int == 48 ==> n == 0) && (n > 0 ==> w[0] as int != 48)
      && w[|w| - 1] as int == 48 + n % 10 && (n >= 10 ==> w[..|w| - 1] == WriteNat(n / 10)) && (n < 10 ==> |w| == 1)
  {
    if n >= 10 {
      NatText(n / 10);
      Drop(WriteNat(n / 10), [(n % 10 + '0' as int) as char]);
    }
  }

  // ---------------------------------------------------------------- records

  /** A record's lines, indented by its own spaces, its YAML block by two more. */
  lemma RecordLines(r: Record, rest: string)
    ensures var own, yaml := Spaces(r.indent), Spaces(r.indent + 2);
      RecordThen(r, rest)
        == (own + ("# Subtest: " + r.name)) + ("\n"
         + ((own + ("ok " + (r.ordinal + (" - " + r.name)))) + ("\n"
         + ((yaml + "---") + ("\n"
         + ((yaml + ("duration_ms: " + r.duration)) + ("\n"
         + (if r.typed
            then (yaml + "type: 'test'") + ("\n" + ((yaml + "...") + ("\n" + rest)))
            else (yaml + "...") + ("\n" + rest)))))))))
  {}

  /** `[^\r\n]+` */
  lemma NameText(s: string)
    ensures IsName(s) <==> |s| > 0 && forall i :: 0 <= i < |s| ==> s[i] as int != 13 && s[i] as int != 10
  {}

  /** `[0-9]+(\.[0-9]+)?` */
  ghost predicate Digits(s: string) { |s| > 0 && forall i :: 0 <= i < |s| ==> 48 <= s[i] as int <= 57 }

  lemma DurationText(s: string)
    ensures IsDuration(s) <==> Digits(s) || exists k :: Fraction(s, k)
  {
    var k := Span(IsAsciiDigit, s);
    SpanSplits(IsAsciiDigit, s);
    if IsDuration(s) && k < |s| {
      SpanSplits(IsAsciiDigit, s[k + 1..]);
      assert Fraction(s, k);
    }
    if Digits(s) {
      EmptyConcat(s);
      SpanExact(IsAsciiDigit, s, []);
    }
    if j :| Fraction(s, j) {
      FractionRead(s, j);
    }
  }

  ghost predicate Fraction(s: string, k: int) {
    0 <= k < |s| && Digits(s[..k]) && s[k] as int == 46 && Digits(s[k + 1..])
  }

  lemma FractionRead(s: string, k: int)
    requires Fraction(s, k)
    ensures IsDuration(s)
  {
    assert s == s[..k] + s[k..];
    SpanExact(IsAsciiDigit, s[..k], s[k..]);
    EmptyConcat(s[k + 1..]);
    SpanExact(IsAsciiDigit, s[k + 1..], []);
  }

  /** `\d` on ASCII is 0 to 9. */
  lemma DecimalText(c: char)
    requires c as int < 1632
    ensures IsDecimal(c) <==> 48 <= c as int <= 57
  {
    FirstZeros();
    LaterZeros();
    assert DECIMAL_ZEROS[0] == ZEROS_TO_1BFF[0];
  }

  lemma FirstZeros()
    ensures ZEROS_TO_1BFF[0] == 48 && forall i :: 1 <= i < |ZEROS_TO_1BFF| ==> ZEROS_TO_1BFF[i] >= 1632
  {}

  lemma LaterZeros()
    ensures forall i :: 0 <= i < |ZEROS_TO_10FFF| ==> ZEROS_TO_10FFF[i] >= 1632
    ensures forall i :: 0 <= i < |ZEROS_ABOVE| ==> ZEROS_ABOVE[i] >= 1632
  {}

  /** Only spaces, the mark and at least one more character make a packed line. */
  lemma PackedLines(n: nat, payload: string, line: string)
    ensures ExpandLine(Spaces(n) + ("@pass " + payload)) == if payload == "" then Kept else DecodePayload(n, payload)
    ensures !Collides(line) ==> ExpandLine(line) == Kept
  {
    assert ("@pass " + payload)[0] == '@';
    IndentExact(n, "@pass " + payload);
    StripConcat("@pass ", payload);
  }

  /** A packed record: its indent, the mark and its payload. */
  lemma PackedText(r: Record)
    ensures PackedLine(r) == Spaces(r.indent) + ("@pass " + Payload(r))
  {}

  // ---------------------------------------------------------------- blocks, collisions and the envelope

  ghost predicate LineEnd(s: string) { forall i :: 0 <= i < |s| ==> s[i] as int in {10, 13} }

  /** `rstrip("\r\n")` takes all line-end characters and no other. */
  lemma {:induction false} PlainStripsEnds(text: string, end: string)
    requires LineEnd(end) && (text == "" || text[|text| - 1] as int !in {10, 13})
    ensures Plain(text + end) == text
  {
    if end == "" {
      EmptyConcat(text);
    } else {
      var front, c := end[..|end| - 1], end[|end| - 1];
      PlainStripsEnds(text, front);
      FrontLast(end);
      Assoc(text, front, [c]);
      PlainStrips(text + front, c);
    }
  }

  /** A line opens a block exactly if it is spaces and three dashes, and the block has that many spaces. */
  lemma BlockOpens(line: string, n: nat)
    ensures NextYaml(None, line) == Some(n) <==> Plain(line) == Spaces(n) + "---"
  {
    var plain := Plain(line);
    IndentSplits(plain);
    if plain == Spaces(n) + "---" { IndentExact(n, "---"); }
  }

  /** It closes its block exactly if it is those spaces and three dots; other lines leave it open. */
  lemma BlockCloses(line: string, n: nat)
    ensures NextYaml(Some(n), line) == if Plain(line) == Spaces(n) + "..." then None else Some(n)
  {}

  /** `part in text` */
  lemma {:induction false} ContainsText(text: string, part: string)
    ensures Contains(text, part) <==> exists k :: 0 <= k <= |text| && part <= text[k..]
  {
    assert text[0..] == text;
    if text != "" {
      ContainsText(text[1..], part);
      assert forall k :: 1 <= k <= |text| ==> text[k..] == text[1..][k - 1..];
      if k :| 0 <= k <= |text[1..]| && part <= text[1..][k..] {
        assert part <= text[k + 1..];
      }
    }
  }

  /** `^ *@pass ` at the start of a text. */
  lemma CollidesText(text: string)
    ensures Collides(text) <==> exists n: nat :: Spaces(n) + "@pass " <= text
  {
    if Collides(text) {
      IndentSplits(text);
      var n := Indent(text);
      assert text == Spaces(n) + ("@pass " + Strip(text[n..], "@pass ").value);
      assert Spaces(n) + "@pass " <= text;
    }
    if n: nat :| Spaces(n) + "@pass " <= text {
      var rest := text[n + 6..];
      assert text == Spaces(n) + ("@pass " + rest);
      assert ("@pass " + rest)[0] == '@';
      IndentExact(n, "@pass " + rest);
      StripConcat("@pass ", rest);
    }
  }

  /** A source is clear if no line starts with spaces and the mark. */
  lemma ClearText(s: string)
    ensures Clear(s) <==>
      forall k :: 0 <= k < |s| && (k == 0 || s[k - 1] as int == 10) ==> !Collides(s[k..])
  {
    assert forall k: nat :: LineStart(s, k) <==> k < |s| && (k == 0 || s[k - 1] as int == 10);
  }

  /** The metadata line: the marker and a JSON object, without spaces. */
  lemma HeaderText(h: Header, body: string)
    ensures MARKER == "# LOCAL_CONTEXT_TAP_V1 "
    ensures COLUMNS == "{\"columns\":[\"id\"," + ("\"name\",\"duration_ms\"," + "\"type\"],\"pass_records\":")
    ensures Envelope(h, body)
         == ("# LOCAL_CONTEXT_TAP_V1 " + (COLUMNS + (WriteNat(h.records) + (",\"source_bytes\":"
            + (WriteNat(h.bytes) + (",\"source_sha256\":\"" + (Escape(h.digest) + "\"}")))))))
            + ("\n" + body)
  {}

  /** An envelope gives up a text only if count, length and digest are those of the metadata. */
  lemma EnvelopeIntegrity(h: Header, body: string, text: string, digest: Digest)
    ensures ExpandTap(Envelope(h, body), digest) == Original(text) <==>
      && ExpandBody(body) == Expansion.Expanded(text, h.records)
      && h.bytes == |Encode(text)| && h.digest == digest(Encode(text))
  {
    EnvelopeOpens(h, body, digest);
  }

  /** Text without the marker expands to itself; the marker alone is rejected. */
  lemma UnmarkedExpands(text: string, digest: Digest)
    ensures !(MARKER <= text) ==> ExpandTap(text, digest) == Original(text)
    ensures MARKER <= text && '\n' !in text ==> ExpandTap(text, digest) == Rejected
  {
    TakeLineSplits(text);
    if TakeLine(text).Split? { assert text[|TakeLine(text).line|] == '\n'; }
  }

  /** Under a digest without collisions an envelope gives up no text but the one whose digest it holds. */
  lemma ChangedBodyRejected(h: Header, source: string, body: string, text: string, digest: Digest)
    requires forall a, b :: digest(a) == digest(b) ==> a == b
    requires h.digest == digest(Encode(source)) && ExpandTap(Envelope(h, body), digest) == Original(text)
    ensures text == source
  {
    EnvelopeIntegrity(h, body, text, digest);
    DecodeEncode(text);
    DecodeEncode(source);
  }

  // ---------------------------------------------------------------- outcomes

  /** The limits of the program: 4800 bytes to 8 MiB, and 15 percent. */
  lemma DefaultLimits()
    ensures LIMIT == 8_388_608 && DEFAULTS == Limits(4800, 8_388_608, 0.15)
  {}

  /** The record of an outcome is consistent. */
  ghost predicate Reported(o: Outcome, raw: Bytes, count: nat) {
    && o.Outcome? && o.sourceBytes == |raw| && o.outputBytes == |o.output|
    && (o.packed <==> o.reason == LosslessTap) && o.reason != RoundtripFailed
    && o.records == (if o.packed then count else 0)
  }

  lemma SizedReasons(raw: Bytes, source: string, text: string, records: nat, limits: Limits, digest: Digest)
    requires Encode(source) == raw && ExpandTap(text, digest) == Original(source)
    ensures var o := Sized(raw, text, records, limits, digest);
      Reported(o, raw, records) && o.reason in {InsufficientReduction, LosslessTap}
  {
    CheckPasses(raw, source, text, records, digest);
  }

  lemma PiecesReasons(raw: Bytes, pieces: seq<Piece>, source: string, limits: Limits, digest: Digest)
    requires Encode(source) == raw && ExpandsTo(pieces, source)
    ensures var o := CompactPieces(raw, pieces, source, limits, digest);
      && Reported(o, raw, PackedCount(pieces))
      && (o.reason == NoSupportedRecords <==> PackedCount(pieces) == 0)
      && o.reason in {NoSupportedRecords, InsufficientReduction, LosslessTap}
  {
    WrapExpands(pieces, source, digest);
    SizedReasons(raw, source, Wrap(pieces, source, digest), PackedCount(pieces), limits, digest);
  }

  /** Which branch a text takes. */
  lemma TextReasons(raw: Bytes, source: string, limits: Limits, digest: Digest)
    requires Decode(raw) == Some(source)
    ensures var o, n := CompactText(raw, source, limits, digest), PackedCount(Scan(source, None));
      && Reported(o, raw, n)
      && (o.reason == MarkerCollision <==> Contains(source, MARKER) || !Clear(source))
      && (o.reason == NoSupportedRecords <==> !Contains(source, MARKER) && Clear(source) && n == 0)
      && o.reason in {MarkerCollision, NoSupportedRecords, InsufficientReduction, LosslessTap}
  {
    EncodeDecode(raw);
    if Clear(source) {
      ExpandUndoesScan(source, None);
      PiecesReasons(raw, Scan(source, None), source, limits, digest);
    }
  }

  /** Which branch an input takes. */
  lemma CompactReasons(raw: Bytes, limits: Limits, digest: Digest)
    ensures var o := Compact(raw, limits, digest);
      && o.Outcome? && o.sourceBytes == |raw| && o.outputBytes == |o.output|
      && (o.reason == SmallOutput <==> |raw| < limits.minBytes)
      && (o.reason == SizeLimit <==> limits.minBytes <= |raw| && limits.maxBytes < |raw|)
      && (o.reason == NonUtf8 <==> limits.minBytes <= |raw| <= limits.maxBytes && Decode(raw) == None)
  {
    var source := Decode(raw);
    if source.Some? {
      TextReasons(raw, source.value, limits, digest);
      CompactReadsText(raw, source.value, limits, digest);
      RoutedReasons(raw, limits, CompactText(raw, source.value, limits, digest), PackedCount(Scan(source.value, None)));
    }
  }

  lemma RoutedReasons(raw: Bytes, limits: Limits, text: Outcome, count: nat)
    requires Reported(text, raw, count) && text.reason !in {SmallOutput, SizeLimit, NonUtf8}
    ensures var o := if |raw| < limits.minBytes then Fallback(raw, SmallOutput)
                     else if |raw| > limits.maxBytes then Fallback(raw, SizeLimit) else text;
      && Reported(o, raw, count) && o.reason != NonUtf8
      && (o.reason == SmallOutput <==> |raw| < limits.minBytes)
      && (o.reason == SizeLimit <==> limits.minBytes <= |raw| && limits.maxBytes < |raw|)
  {}

  /** What the runner prints: the raw bytes beyond 8 MiB, else what the packer gives with its defaults. */
  lemma PrintedText(raw: Bytes, digest: Digest)
    ensures var o := Compact(raw, Limits(4800, 8_388_608, 0.15), digest);
      o.Outcome? && Printed(raw, digest) == if |raw| > 8_388_608 then raw else o.output
  {
    PackingIsLossless(raw, DEFAULTS, digest);
    DefaultLimits();
  }

  /** The decimal blocks by the number of their zero, as in version 14 of the Unicode character database. */
  lemma DecimalBlocks()
    ensures ZEROS_TO_1BFF == [
      48, 1632, 1776, 1984, 2406, 2534, 2662, 2790, 2918, 3046, 3174, 3302, 3430, 3558, 3664, 3792, 3872,
      4160, 4240, 6112, 6160, 6470, 6608, 6784, 6800, 6992, 7088]
    ensures ZEROS_TO_10FFF == [
      7232, 7248, 42528, 43216, 43264, 43472, 43504, 43600, 44016, 65296, 66720, 68912]
    ensures ZEROS_ABOVE == [
      69734, 69872, 69942, 70096, 70384, 70736, 70864, 71248, 71360, 71472, 71904, 72016, 72784, 73040, 73120,
      92768, 92864, 93008, 120782, 120792, 120802, 120812, 120822, 123200, 123632, 125264, 130032]
  {}
}
