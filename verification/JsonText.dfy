/**
 The JSON texts that scripts/local-ai/compact_output.py writes and reads back:
 strings as in section 7 of RFC 8259, arrays of strings and nulls, and naturals.
 A reader takes a text and gives the value and what follows it.
 */
module JsonText {
  import opened Common

  datatype Reading<+T> = Invalid | Read(value: T, rest: string)

  /** What follows a literal, if the text starts with it. */
  function Strip(text: string, literal: string): (r: Option<string>)
    ensures r.Some? ==> text == literal + r.value
    ensures r.None? ==> !(literal <= text)
  {
    if literal <= text then Some(text[|literal|..]) else None
  }

  lemma StripConcat(literal: string, rest: string)
    ensures Strip(literal + rest, literal) == Some(rest)
  {}

  /** Length of the longest prefix whose characters satisfy `p`. */
  function Span(p: char -> bool, text: string): (n: nat)
    ensures n <= |text|
  {
    if text == [] || !p(text[0]) then 0 else Span(p, text[1..]) + 1
  }

  lemma {:induction false} SpanSplits(p: char -> bool, text: string)
    ensures forall i :: 0 <= i < Span(p, text) ==> p(text[i])
    ensures Span(p, text) < |text| ==> !p(text[Span(p, text)])
  {
    if text != [] && p(text[0]) {
      SpanSplits(p, text[1..]);
      assert forall i :: 0 < i < Span(p, text) ==> text[i] == text[1..][i - 1];
    }
  }

  lemma {:induction false} SpanExact(p: char -> bool, a: string, b: string)
    requires forall i :: 0 <= i < |a| ==> p(a[i])
    requires b == [] || !p(b[0])
    ensures Span(p, a + b) == |a|
  {
    if a == [] {
      EmptyConcat(b);
    } else {
      SpanExact(p, a[1..], b);
      assert (a + b)[1..] == a[1..] + b;
    }
  }

  // ---------------------------------------------------------------- strings

  function HexDigit(n: nat): char
    requires n < 16
  {
    "0123456789abcdef"[n]
  }

  function HexValue(c: char): Option<nat> {
    if '0' <= c <= '9' then Some(c as int - '0' as int)
    else if 'a' <= c <= 'f' then Some(c as int - 'a' as int + 10)
    else if 'A' <= c <= 'F' then Some(c as int - 'A' as int + 10)
    else None
  }

  lemma HexRoundTrip(n: nat)
    requires n < 16
    ensures HexValue(HexDigit(n)) == Some(n)
  {}

  /** One character as `json.dumps(..., ensure_ascii=False)` writes it inside a string. */
  function EscapeChar(c: char): string {
    var n := c as int;
    if c == '"' then ['\\', '"']
    else if c == '\\' then ['\\', '\\']
    else if n == 8 then ['\\', 'b']
    else if n == 9 then ['\\', 't']
    else if n == 10 then ['\\', 'n']
    else if n == 12 then ['\\', 'f']
    else if n == 13 then ['\\', 'r']
    else if n < 0x20 then ['\\', 'u', '0', '0', HexDigit(n / 16), HexDigit(n % 16)]
    else [c]
  }

  function Escape(s: string): string {
    if s == [] then [] else EscapeChar(s[0]) + Escape(s[1..])
  }

  function Quote(s: string): string { "\"" + Escape(s) + "\"" }

  /** A backslash escape, without its backslash.  Surrogate escapes are not modelled. */
  function ReadEscape(text: string): Reading<char> {
    if text == [] then Invalid
    else
      var rest := text[1..];
      match text[0]
      case '"' => Read('"', rest)
      case '\\' => Read('\\', rest)
      case '/' => Read('/', rest)
      case 'b' => Read(8 as char, rest)
      case 't' => Read(9 as char, rest)
      case 'n' => Read(10 as char, rest)
      case 'f' => Read(12 as char, rest)
      case 'r' => Read(13 as char, rest)
      case 'u' => if |rest| < 4 then Invalid else ReadHex(rest[..4], rest[4..])
      case _ => Invalid
  }

  function ReadHex(digits: string, rest: string): Reading<char>
    requires |digits| == 4
  {
    match (HexValue(digits[0]), HexValue(digits[1]), HexValue(digits[2]), HexValue(digits[3]))
    case (Some(a), Some(b), Some(c), Some(d)) =>
      var n := a * 0x1000 + b * 0x100 + c * 0x10 + d;
      if n < 0xD800 || 0xE000 <= n < 0x1_0000 then Read(n as char, rest) else Invalid
    case _ => Invalid
  }

  /** One character of a string body; raw control characters are rejected. */
  function ReadChar(text: string): (r: Reading<char>)
    requires text != []
  {
    if text[0] == '\\' then ReadEscape(text[1..])
    else if (text[0] as int) < 0x20 then Invalid
    else Read(text[0], text[1..])
  }

  /** A string body up to its closing quote. */
  function ReadBody(text: string): Reading<string>
    decreases |text|
  {
    if text == [] then Invalid
    else if text[0] == '"' then Read([], text[1..])
    else
      match ReadChar(text)
      case Invalid => Invalid
      case Read(c, rest) =>
        if |rest| >= |text| then Invalid
        else
          match ReadBody(rest)
          case Invalid => Invalid
          case Read(s, after) => Read([c] + s, after)
  }

  lemma ControlEscape(n: nat, rest: string)
    requires n < 0x20
    ensures ReadEscape(['u', '0', '0', HexDigit(n / 16), HexDigit(n % 16)] + rest) == Read(n as char, rest)
  {
    var digits := ['0', '0', HexDigit(n / 16), HexDigit(n % 16)];
    var text := ['u'] + digits + rest;
    assert ['u', '0', '0', HexDigit(n / 16), HexDigit(n % 16)] + rest == text;
    assert text[1..] == digits + rest;
    assert text[1..][..4] == digits && text[1..][4..] == rest;
    HexRoundTrip(n / 16);
    HexRoundTrip(n % 16);
  }

  lemma CharRoundTrip(c: char, rest: string)
    ensures EscapeChar(c) != [] && EscapeChar(c)[0] != '"'
    ensures ReadChar(EscapeChar(c) + rest) == Read(c, rest)
  {
    var text := EscapeChar(c) + rest;
    var n := c as int;
    if EscapeChar(c)[0] == '\\' {
      assert text[1..] == EscapeChar(c)[1..] + rest;
      if |EscapeChar(c)| == 6 {
        ControlEscape(n, rest);
        assert EscapeChar(c)[1..] == ['u', '0', '0', HexDigit(n / 16), HexDigit(n % 16)];
      } else {
        assert text[1..][1..] == rest;
      }
    } else {
      assert text[1..] == rest;
    }
  }

  lemma BodyStep(c: char, text: string, s: string, after: string)
    requires ReadBody(text) == Read(s, after)
    ensures ReadBody(EscapeChar(c) + text) == Read([c] + s, after)
  {
    CharRoundTrip(c, text);
    assert (EscapeChar(c) + text)[0] == EscapeChar(c)[0];
  }

  lemma {:induction false} BodyRoundTrip(s: string, rest: string)
    ensures ReadBody(Escape(s) + ("\"" + rest)) == Read(s, rest)
  {
    var tail := "\"" + rest;
    if s == [] {
      assert Escape(s) + tail == tail;
      assert tail[1..] == rest;
    } else {
      BodyRoundTrip(s[1..], rest);
      BodyStep(s[0], Escape(s[1..]) + tail, s[1..], rest);
      Assoc(EscapeChar(s[0]), Escape(s[1..]), tail);
      HeadTail(s);
    }
  }

  lemma EscapeCharOneLine(c: char)
    ensures '\n' !in EscapeChar(c)
  {}

  /** Escaped text never contains a raw line break. */
  lemma {:induction false} EscapeOneLine(s: string)
    ensures '\n' !in Escape(s)
  {
    if s != [] {
      EscapeOneLine(s[1..]);
      EscapeCharOneLine(s[0]);
    }
  }

  // ---------------------------------------------------------------- arrays of strings and nulls

  datatype Item = Null | Text(s: string)

  function WriteItem(item: Item): string {
    match item
    case Null => "null"
    case Text(s) => Quote(s)
  }

  function ReadItem(text: string): Reading<Item> {
    match Strip(text, "null")
    case Some(rest) => Read(Null, rest)
    case None =>
      match Strip(text, "\"")
      case None => Invalid
      case Some(body) =>
        match ReadBody(body)
        case Invalid => Invalid
        case Read(s, rest) => Read(Text(s), rest)
  }

  lemma ItemRoundTrip(item: Item, rest: string)
    ensures ReadItem(WriteItem(item) + rest) == Read(item, rest)
  {
    match item
    case Null => StripConcat("null", rest);
    case Text(s) =>
      var body := Escape(s) + ("\"" + rest);
      assert WriteItem(item) + rest == "\"" + body;
      assert (WriteItem(item) + rest)[0] == '"' != "null"[0];
      StripConcat("\"", body);
      BodyRoundTrip(s, rest);
  }

  function WriteItems(items: seq<Item>): string
    requires items != []
  {
    if |items| == 1 then WriteItem(items[0]) else WriteItem(items[0]) + ("," + WriteItems(items[1..]))
  }

  function WriteArray(items: seq<Item>): string
    requires items != []
  {
    "[" + (WriteItems(items) + "]")
  }

  /** Items separated by commas, up to the closing bracket. */
  function ReadItems(text: string): Reading<seq<Item>>
    decreases |text|
  {
    match ReadItem(text)
    case Invalid => Invalid
    case Read(item, rest) =>
      if |rest| >= |text| then Invalid
      else
        match Strip(rest, "]")
        case Some(after) => Read([item], after)
        case None =>
          match Strip(rest, ",")
          case None => Invalid
          case Some(more) =>
            match ReadItems(more)
            case Invalid => Invalid
            case Read(items, after) => Read([item] + items, after)
  }

  /** A whole text that is one array. */
  function ParseArray(text: string): Option<seq<Item>> {
    match Strip(text, "[")
    case None => None
    case Some(body) =>
      match ReadItems(body)
      case Invalid => None
      case Read(items, rest) => if rest == [] then Some(items) else None
  }

  lemma LastItem(item: Item, rest: string)
    ensures ReadItems(WriteItem(item) + ("]" + rest)) == Read([item], rest)
  {
    ItemRoundTrip(item, "]" + rest);
    StripConcat("]", rest);
  }

  lemma ItemStep(item: Item, more: string, items: seq<Item>, rest: string)
    requires ReadItems(more) == Read(items, rest)
    ensures ReadItems(WriteItem(item) + ("," + more)) == Read([item] + items, rest)
  {
    ItemRoundTrip(item, "," + more);
    assert ("," + more)[0] == ',';
    StripConcat(",", more);
  }

  lemma {:induction false} ItemsRoundTrip(items: seq<Item>, rest: string)
    requires items != []
    ensures ReadItems(WriteItems(items) + ("]" + rest)) == Read(items, rest)
  {
    var first, close := WriteItem(items[0]), "]" + rest;
    if |items| == 1 {
      LastItem(items[0], rest);
      assert items == [items[0]];
    } else {
      var others := WriteItems(items[1..]);
      ItemsRoundTrip(items[1..], rest);
      ItemStep(items[0], others + close, items[1..], rest);
      Assoc(first, "," + others, close);
      Assoc(",", others, close);
      HeadTail(items);
    }
  }

  lemma ArrayRoundTrip(items: seq<Item>)
    requires items != []
    ensures ParseArray(WriteArray(items)) == Some(items)
  {
    StripConcat("[", WriteItems(items) + "]");
    ItemsRoundTrip(items, "");
    assert "]" + "" == "]";
  }

  lemma {:induction false} ItemsOneLine(items: seq<Item>)
    requires items != []
    ensures '\n' !in WriteItems(items)
  {
    if items[0].Text? { EscapeOneLine(items[0].s); }
    if |items| > 1 { ItemsOneLine(items[1..]); }
  }

  // ---------------------------------------------------------------- naturals

  predicate IsAsciiDigit(c: char) { '0' <= c <= '9' }

  function WriteNat(n: nat): string {
    if n < 10 then [(n + '0' as int) as char] else WriteNat(n / 10) + [(n % 10 + '0' as int) as char]
  }

  function DigitsValue(digits: string): nat
    requires forall i :: 0 <= i < |digits| ==> IsAsciiDigit(digits[i])
  {
    if digits == [] then 0
    else
      assert IsAsciiDigit(digits[|digits| - 1]);
      DigitsValue(digits[..|digits| - 1]) * 10 + (digits[|digits| - 1] as int - '0' as int)
  }

  function ReadNat(text: string): Reading<nat> {
    var n := Span(IsAsciiDigit, text);
    SpanSplits(IsAsciiDigit, text);
    if n == 0 then Invalid else Read(DigitsValue(text[..n]), text[n..])
  }

  lemma {:induction false} WrittenDigits(n: nat)
    ensures var w := WriteNat(n);
      w != [] && (forall i :: 0 <= i < |w| ==> IsAsciiDigit(w[i])) && DigitsValue(w) == n
  {
    if n >= 10 {
      WrittenDigits(n / 10);
      var w := WriteNat(n);
      assert w[..|w| - 1] == WriteNat(n / 10);
    } else {
      assert WriteNat(n)[..0] == [];
    }
  }

  lemma NatRoundTrip(n: nat, rest: string)
    requires rest == [] || !IsAsciiDigit(rest[0])
    ensures ReadNat(WriteNat(n) + rest) == Read(n, rest)
  {
    WrittenDigits(n);
    SpanExact(IsAsciiDigit, WriteNat(n), rest);
    assert (WriteNat(n) + rest)[..|WriteNat(n)|] == WriteNat(n);
  }

  lemma NatOneLine(n: nat)
    ensures '\n' !in WriteNat(n)
  {
    WrittenDigits(n);
  }
}
