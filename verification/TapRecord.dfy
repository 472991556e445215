/**
 The passing-test record that scripts/local-ai/compact_output.py packs, its
 recogniser, and the tracking of YAML blocks by lines.
 */
module TapRecord {
  import opened Common
  import opened JsonText

  // ---------------------------------------------------------------- lines

  predicate NotNewline(c: char) { c != '\n' }

  datatype Split = NoLine | Split(line: string, rest: string)

  /** The first newline-terminated line, without its newline, and what follows it. */
  function TakeLine(s: string): Split {
    var k := Span(NotNewline, s);
    if k == |s| then NoLine else Split(s[..k], s[k + 1..])
  }

  lemma TakeLineSplits(s: string)
    ensures match TakeLine(s)
      case Split(line, rest) => '\n' !in line && s == Line(line, rest)
      case NoLine => '\n' !in s
  {
    var k := Span(NotNewline, s);
    SpanSplits(NotNewline, s);
    if k < |s| {
      assert s[k] == '\n';
      assert s == s[..k] + ("\n" + s[k + 1..]);
    }
  }

  function Line(line: string, rest: string): string { line + ("\n" + rest) }

  lemma TakeLineExact(line: string, rest: string)
    requires '\n' !in line
    ensures TakeLine(Line(line, rest)) == Split(line, rest)
  {
    SpanExact(NotNewline, line, "\n" + rest);
    Drop(line, "\n" + rest);
    Drop(line + "\n", rest);
    Assoc(line, "\n", rest);
  }

  lemma LineConcat(line: string, a: string, b: string)
    ensures Line(line, a) + b == Line(line, a + b)
  {}

  function Spaces(n: nat): (r: string)
    ensures |r| == n && forall i :: 0 <= i < n ==> r[i] == ' '
  {
    if n == 0 then "" else " " + Spaces(n - 1)
  }

  predicate IsSpace(c: char) { c == ' ' }

  /** Number of leading spaces: the greedy `( *)` of the patterns. */
  function Indent(s: string): (n: nat)
    ensures n <= |s|
  {
    Span(IsSpace, s)
  }

  lemma IndentSplits(s: string)
    ensures s == Spaces(Indent(s)) + s[Indent(s)..]
  {
    var n := Indent(s);
    SpanSplits(IsSpace, s);
    assert s[..n] == Spaces(n);
    assert s == s[..n] + s[n..];
  }

  lemma IndentExact(n: nat, text: string)
    requires text != [] && text[0] != ' '
    ensures Indent(Spaces(n) + text) == n && (Spaces(n) + text)[n..] == text
  {
    SpanExact(IsSpace, Spaces(n), text);
    Drop(Spaces(n), text);
  }

  // ---------------------------------------------------------------- records

  /** Code points of the digit zero of every Unicode 14 decimal-digit block. */
  const DECIMAL_ZEROS: seq<int> := ZEROS_TO_1BFF + ZEROS_TO_10FFF + ZEROS_ABOVE

  const ZEROS_TO_1BFF: seq<int> := [
    0x30, 0x660, 0x6F0, 0x7C0, 0x966, 0x9E6, 0xA66, 0xAE6, 0xB66, 0xBE6, 0xC66, 0xCE6, 0xD66, 0xDE6, 0xE50,
    0xED0, 0xF20, 0x1040, 0x1090, 0x17E0, 0x1810, 0x1946, 0x19D0, 0x1A80, 0x1A90, 0x1B50, 0x1BB0]

  const ZEROS_TO_10FFF: seq<int> := [
    0x1C40, 0x1C50, 0xA620, 0xA8D0, 0xA900, 0xA9D0, 0xA9F0, 0xAA50, 0xABF0, 0xFF10, 0x104A0, 0x10D30]

  const ZEROS_ABOVE: seq<int> := [
    0x11066, 0x110F0, 0x11136, 0x111D0, 0x112F0, 0x11450, 0x114D0, 0x11650, 0x116C0, 0x11730, 0x118E0, 0x11950,
    0x11C50, 0x11D50, 0x11DA0, 0x16A60, 0x16AC0, 0x16B50, 0x1D7CE, 0x1D7D8, 0x1D7E2, 0x1D7EC, 0x1D7F6,
    0x1E140, 0x1E2F0, 0x1E950, 0x1FBF0]

  /** `\d` on text: any Unicode decimal digit. */
  predicate IsDecimal(c: char) {
    '0' <= c && exists i :: 0 <= i < |DECIMAL_ZEROS| && DECIMAL_ZEROS[i] <= c as int < DECIMAL_ZEROS[i] + 10
  }

  predicate IsOrdinal(s: string) { s != [] && forall i :: 0 <= i < |s| ==> IsDecimal(s[i]) }

  /** `[0-9]+(\.[0-9]+)?`, as a whole. */
  predicate IsDuration(s: string) {
    var k := Span(IsAsciiDigit, s);
    k > 0 && (k == |s| || (s[k] == '.' && k + 1 < |s| && Span(IsAsciiDigit, s[k + 1..]) == |s| - (k + 1)))
  }

  predicate IsName(s: string) { s != [] && '\r' !in s && '\n' !in s }

  datatype Record = Record(indent: nat, ordinal: string, name: string, duration: string, typed: bool) {
    predicate Valid() { IsOrdinal(ordinal) && IsName(name) && IsDuration(duration) }
  }

  function NameLine(n: nat, name: string): string { Spaces(n) + ("# Subtest: " + name) }

  function OrdinalLine(n: nat, ordinal: string, name: string): string {
    Spaces(n) + ("ok " + (ordinal + (" - " + name)))
  }

  function OpenLine(n: nat): string { Spaces(n) + "---" }

  function DurationLine(n: nat, duration: string): string { Spaces(n) + ("duration_ms: " + duration) }

  function TypeLine(n: nat): string { Spaces(n) + "type: 'test'" }

  function CloseLine(n: nat): string { Spaces(n) + "..." }

  /** The YAML part of a record, indented by two more spaces, followed by `rest`. */
  function EndThen(n: nat, typed: bool, rest: string): string {
    if typed then Line(TypeLine(n), Line(CloseLine(n), rest)) else Line(CloseLine(n), rest)
  }

  function YamlThen(n: nat, duration: string, typed: bool, rest: string): string {
    Line(OpenLine(n), Line(DurationLine(n, duration), EndThen(n, typed, rest)))
  }

  /** The text of a record followed by `rest`. */
  function RecordThen(r: Record, rest: string): string {
    Line(NameLine(r.indent, r.name),
      Line(OrdinalLine(r.indent, r.ordinal, r.name), YamlThen(r.indent + 2, r.duration, r.typed, rest)))
  }

  function RecordText(r: Record): string { RecordThen(r, "") }

  lemma RecordConcat(r: Record, rest: string)
    ensures RecordThen(r, rest) == RecordText(r) + rest
  {
    var n := r.indent + 2;
    EmptyConcat(rest);
    LineConcat(CloseLine(n), "", rest);
    LineConcat(TypeLine(n), Line(CloseLine(n), ""), rest);
    var end := EndThen(n, r.typed, "");
    LineConcat(DurationLine(n, r.duration), end, rest);
    LineConcat(OpenLine(n), Line(DurationLine(n, r.duration), end), rest);
    var yaml := YamlThen(n, r.duration, r.typed, "");
    LineConcat(OrdinalLine(r.indent, r.ordinal, r.name), yaml, rest);
    LineConcat(NameLine(r.indent, r.name), Line(OrdinalLine(r.indent, r.ordinal, r.name), yaml), rest);
  }

  datatype Match = NoMatch | Match(record: Record, rest: string)

  /** The recogniser of the record pattern at the start of a text, line by line. */
  function MatchRecord(s: string): Match {
    match TakeLine(s)
    case NoLine => NoMatch
    case Split(line, rest) =>
      var n := Indent(line);
      match Strip(line[n..], "# Subtest: ")
      case None => NoMatch
      case Some(name) => if IsName(name) then MatchOrdinal(n, name, rest) else NoMatch
  }

  function MatchOrdinal(n: nat, name: string, s: string): Match {
    match TakeLine(s)
    case NoLine => NoMatch
    case Split(line, rest) =>
      match Strip(line, Spaces(n) + "ok ")
      case None => NoMatch
      case Some(tail) =>
        var k := Span(IsDecimal, tail);
        if k > 0 && tail[k..] == " - " + name then MatchOpen(n, name, tail[..k], rest) else NoMatch
  }

  function MatchOpen(n: nat, name: string, ordinal: string, s: string): Match {
    match TakeLine(s)
    case NoLine => NoMatch
    case Split(line, rest) => if line == OpenLine(n + 2) then MatchDuration(n, name, ordinal, rest) else NoMatch
  }

  function MatchDuration(n: nat, name: string, ordinal: string, s: string): Match {
    match TakeLine(s)
    case NoLine => NoMatch
    case Split(line, rest) =>
      match Strip(line, Spaces(n + 2) + "duration_ms: ")
      case None => NoMatch
      case Some(duration) =>
        if IsDuration(duration) then MatchEnd(n, name, ordinal, duration, rest) else NoMatch
  }

  function MatchEnd(n: nat, name: string, ordinal: string, duration: string, s: string): Match {
    match TakeLine(s)
    case NoLine => NoMatch
    case Split(line, rest) =>
      if line == CloseLine(n + 2) then Match(Record(n, ordinal, name, duration, false), rest)
      else if line == TypeLine(n + 2) then
        (match TakeLine(rest)
         case NoLine => NoMatch
         case Split(last, after) =>
           if last == CloseLine(n + 2) then Match(Record(n, ordinal, name, duration, true), after) else NoMatch)
      else NoMatch
  }

  // ---------------------------------------------------------------- the recogniser is exact

  lemma EndSound(n: nat, name: string, ordinal: string, duration: string, s: string)
    ensures var m := MatchEnd(n, name, ordinal, duration, s);
      m.Match? ==>
        && s == EndThen(n + 2, m.record.typed, m.rest)
        && m.record == Record(n, ordinal, name, duration, m.record.typed)
  {
    TakeLineSplits(s);
    if TakeLine(s).Split? {
      TakeLineSplits(TakeLine(s).rest);
    }
  }

  lemma DurationSound(n: nat, name: string, ordinal: string, s: string)
    ensures var m := MatchDuration(n, name, ordinal, s);
      m.Match? ==>
        && s == Line(DurationLine(n + 2, m.record.duration), EndThen(n + 2, m.record.typed, m.rest))
        && m.record == Record(n, ordinal, name, m.record.duration, m.record.typed)
        && IsDuration(m.record.duration)
  {
    if MatchDuration(n, name, ordinal, s).Match? {
      TakeLineSplits(s);
      var Split(line, rest) := TakeLine(s);
      var duration := Strip(line, Spaces(n + 2) + "duration_ms: ").value;
      Assoc(Spaces(n + 2), "duration_ms: ", duration);
      EndSound(n, name, ordinal, duration, rest);
    }
  }

  lemma OpenSound(n: nat, name: string, ordinal: string, s: string)
    ensures var m := MatchOpen(n, name, ordinal, s);
      m.Match? ==>
        && s == YamlThen(n + 2, m.record.duration, m.record.typed, m.rest)
        && m.record == Record(n, ordinal, name, m.record.duration, m.record.typed)
        && IsDuration(m.record.duration)
  {
    if MatchOpen(n, name, ordinal, s).Match? {
      TakeLineSplits(s);
      DurationSound(n, name, ordinal, TakeLine(s).rest);
    }
  }

  lemma OrdinalLineSplit(n: nat, line: string, tail: string, k: nat, name: string)
    requires line == Spaces(n) + "ok " + tail
    requires k <= |tail| && tail[k..] == " - " + name
    ensures line == OrdinalLine(n, tail[..k], name)
  {}

  lemma OrdinalSound(n: nat, name: string, s: string)
    ensures var m := MatchOrdinal(n, name, s);
      m.Match? ==>
        && s == Line(OrdinalLine(n, m.record.ordinal, name),
                     YamlThen(n + 2, m.record.duration, m.record.typed, m.rest))
        && m.record == Record(n, m.record.ordinal, name, m.record.duration, m.record.typed)
        && IsDuration(m.record.duration) && IsOrdinal(m.record.ordinal)
  {
    if MatchOrdinal(n, name, s).Match? {
      TakeLineSplits(s);
      var Split(line, rest) := TakeLine(s);
      var tail := Strip(line, Spaces(n) + "ok ").value;
      var k := Span(IsDecimal, tail);
      SpanSplits(IsDecimal, tail);
      OrdinalLineSplit(n, line, tail, k, name);
      OpenSound(n, name, tail[..k], rest);
    }
  }

  /** Whatever the recogniser accepts is the text of a valid record. */
  lemma MatchSound(s: string)
    ensures var m := MatchRecord(s); m.Match? ==> m.record.Valid() && s == RecordThen(m.record, m.rest)
  {
    if MatchRecord(s).Match? {
      TakeLineSplits(s);
      var Split(line, rest) := TakeLine(s);
      var n := Indent(line);
      var name := Strip(line[n..], "# Subtest: ").value;
      IndentSplits(line);
      OrdinalSound(n, name, rest);
      RecordLines(s, line, rest, n, name, MatchRecord(s).record, MatchRecord(s).rest);
    }
  }

  lemma RecordLines(s: string, line: string, rest: string, n: nat, name: string, r: Record, after: string)
    requires s == Line(line, rest) && line == NameLine(n, name) && r.indent == n && r.name == name
    requires rest == Line(OrdinalLine(n, r.ordinal, name), YamlThen(n + 2, r.duration, r.typed, after))
    ensures s == RecordThen(r, after)
  {}

  lemma OneLine(r: Record)
    requires r.Valid()
    ensures '\n' !in NameLine(r.indent, r.name) && '\n' !in OrdinalLine(r.indent, r.ordinal, r.name)
    ensures '\n' !in OpenLine(r.indent + 2) && '\n' !in DurationLine(r.indent + 2, r.duration)
    ensures '\n' !in TypeLine(r.indent + 2) && '\n' !in CloseLine(r.indent + 2)
  {
    assert forall i :: 0 <= i < |r.ordinal| ==> r.ordinal[i] >= '0';
    DurationDigits(r.duration);
  }

  lemma DurationDigits(s: string)
    requires IsDuration(s)
    ensures forall i :: 0 <= i < |s| ==> IsAsciiDigit(s[i]) || s[i] == '.'
  {
    var k := Span(IsAsciiDigit, s);
    SpanSplits(IsAsciiDigit, s);
    if k < |s| {
      SpanSplits(IsAsciiDigit, s[k + 1..]);
      assert forall i :: k < i < |s| ==> s[i] == s[k + 1..][i - (k + 1)];
    }
  }

  lemma EndComplete(r: Record, rest: string)
    requires r.Valid()
    ensures MatchEnd(r.indent, r.name, r.ordinal, r.duration, EndThen(r.indent + 2, r.typed, rest)) == Match(r, rest)
  {
    var n := r.indent + 2;
    OneLine(r);
    TakeLineExact(CloseLine(n), rest);
    TakeLineExact(TypeLine(n), Line(CloseLine(n), rest));
    assert TypeLine(n)[n] == 't' && CloseLine(n)[n] == '.';
  }

  lemma DurationComplete(r: Record, rest: string)
    requires r.Valid()
    ensures MatchDuration(r.indent, r.name, r.ordinal,
              Line(DurationLine(r.indent + 2, r.duration), EndThen(r.indent + 2, r.typed, rest)))
         == Match(r, rest)
  {
    var n := r.indent + 2;
    OneLine(r);
    TakeLineExact(DurationLine(n, r.duration), EndThen(n, r.typed, rest));
    Assoc(Spaces(n), "duration_ms: ", r.duration);
    StripConcat(Spaces(n) + "duration_ms: ", r.duration);
    EndComplete(r, rest);
  }

  lemma YamlComplete(r: Record, rest: string)
    requires r.Valid()
    ensures MatchOpen(r.indent, r.name, r.ordinal, YamlThen(r.indent + 2, r.duration, r.typed, rest))
         == Match(r, rest)
  {
    var n := r.indent + 2;
    OneLine(r);
    TakeLineExact(OpenLine(n), Line(DurationLine(n, r.duration), EndThen(n, r.typed, rest)));
    DurationComplete(r, rest);
  }

  lemma OrdinalComplete(r: Record, rest: string)
    requires r.Valid()
    ensures MatchOrdinal(r.indent, r.name,
              Line(OrdinalLine(r.indent, r.ordinal, r.name), YamlThen(r.indent + 2, r.duration, r.typed, rest)))
         == Match(r, rest)
  {
    var tail := r.ordinal + (" - " + r.name);
    OneLine(r);
    TakeLineExact(OrdinalLine(r.indent, r.ordinal, r.name), YamlThen(r.indent + 2, r.duration, r.typed, rest));
    Assoc(Spaces(r.indent), "ok ", tail);
    StripConcat(Spaces(r.indent) + "ok ", tail);
    assert (" - " + r.name)[0] == ' ';
    SpanExact(IsDecimal, r.ordinal, " - " + r.name);
    Drop(r.ordinal, " - " + r.name);
    YamlComplete(r, rest);
  }

  lemma NameLineParsed(n: nat, name: string)
    ensures Indent(NameLine(n, name)) == n
    ensures Strip(NameLine(n, name)[n..], "# Subtest: ") == Some(name)
  {
    assert ("# Subtest: " + name)[0] == '#';
    IndentExact(n, "# Subtest: " + name);
    StripConcat("# Subtest: ", name);
  }

  lemma NameComplete(n: nat, name: string, after: string)
    requires IsName(name)
    ensures MatchRecord(Line(NameLine(n, name), after)) == MatchOrdinal(n, name, after)
  {
    TakeLineExact(NameLine(n, name), after);
    NameLineParsed(n, name);
  }

  /** Every valid record, followed by anything, is recognised as itself. */
  lemma MatchComplete(r: Record, rest: string)
    requires r.Valid()
    ensures MatchRecord(RecordThen(r, rest)) == Match(r, rest)
  {
    NameComplete(r.indent, r.name,
      Line(OrdinalLine(r.indent, r.ordinal, r.name), YamlThen(r.indent + 2, r.duration, r.typed, rest)));
    OrdinalComplete(r, rest);
  }

  /** The recogniser finds a record exactly where the text starts with one. */
  lemma MatchExact(s: string, r: Record)
    ensures r.Valid() && RecordText(r) <= s <==>
      MatchRecord(s).Match? && MatchRecord(s).record == r
  {
    if r.Valid() && RecordText(r) <= s {
      var rest := s[|RecordText(r)|..];
      assert s == RecordText(r) + rest;
      RecordConcat(r, rest);
      MatchComplete(r, rest);
    }
    if MatchRecord(s).Match? && MatchRecord(s).record == r {
      MatchSound(s);
      RecordConcat(r, MatchRecord(s).rest);
    }
  }
}
