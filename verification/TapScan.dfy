/**
 The scan of scripts/local-ai/compact_output.py over TAP output: where records
 are packed, and how that relates to the YAML blocks of the source.
 */
module TapScan {
  import opened Common
  import opened JsonText
  import opened TapRecord

  // ---------------------------------------------------------------- YAML blocks by lines

  /** The first line with its newline, or everything if there is none; and the rest. */
  function FirstLine(s: string): string {
    match TakeLine(s) case NoLine => s case Split(line, _) => line + "\n"
  }

  function AfterLine(s: string): string {
    match TakeLine(s) case NoLine => "" case Split(_, rest) => rest
  }

  lemma CutLine(s: string)
    ensures s == FirstLine(s) + AfterLine(s)
    ensures s != [] ==> |AfterLine(s)| < |s|
  {
    TakeLineSplits(s);
    match TakeLine(s)
    case NoLine => EmptyConcat(s);
    case Split(line, rest) => Assoc(line, "\n", rest);
  }

  lemma CutExact(line: string, rest: string)
    requires '\n' !in line
    ensures FirstLine(Line(line, rest)) == line + "\n" && AfterLine(Line(line, rest)) == rest
  {
    TakeLineExact(line, rest);
  }

  /** `rstrip("\r\n")`. */
  function Plain(line: string): string {
    if line != [] && (line[|line| - 1] == '\n' || line[|line| - 1] == '\r') then Plain(line[..|line| - 1]) else line
  }

  /** The indent of the open YAML block, if any, after one more line. */
  function NextYaml(yaml: Option<nat>, line: string): Option<nat> {
    var plain := Plain(line);
    match yaml
    case Some(n) => if plain == Spaces(n) + "..." then None else yaml
    case None => if plain[Indent(plain)..] == "---" then Some(Indent(plain)) else None
  }

  /** The YAML state after all lines of a text, packed or not. */
  function YamlAfter(yaml: Option<nat>, s: string): Option<nat>
    decreases |s|
  {
    CutLine(s);
    if s == [] then yaml else YamlAfter(NextYaml(yaml, FirstLine(s)), AfterLine(s))
  }

  lemma YamlLine(yaml: Option<nat>, line: string, rest: string)
    requires '\n' !in line
    ensures YamlAfter(yaml, Line(line, rest)) == YamlAfter(NextYaml(yaml, line + "\n"), rest)
  {
    CutExact(line, rest);
  }

  lemma PlainLine(line: string)
    requires line == [] || line[|line| - 1] != '\r'
    requires '\n' !in line
    ensures Plain(line + "\n") == line
  {
    PlainStrips(line, '\n');
    assert Plain(line) == line;
  }

  lemma PlainStrips(line: string, c: char)
    requires c == '\n' || c == '\r'
    ensures Plain(line + [c]) == Plain(line)
  {
    Drop(line, [c]);
  }

  /** Text that ends a line cleanly: nothing of it is stripped with the newline. */
  predicate PlainText(text: string) { text != [] && text[|text| - 1] != '\r' && '\n' !in text }

  /** Outside a YAML block, a line whose text starts with neither a space nor `---` changes nothing. */
  lemma OrdinaryOutside(n: nat, text: string)
    requires PlainText(text) && text[0] != ' ' && text[0] != '-'
    ensures NextYaml(None, Spaces(n) + text + "\n") == None
  {
    PlainLine(Spaces(n) + text);
    IndentExact(n, text);
  }

  /** Inside a block, a line that does not start with a dot after the indent keeps it open. */
  lemma OrdinaryInside(n: nat, text: string)
    requires PlainText(text) && text[0] != '.'
    ensures NextYaml(Some(n), Spaces(n) + text + "\n") == Some(n)
  {
    PlainLine(Spaces(n) + text);
    assert (Spaces(n) + text)[n] == text[0];
    assert (Spaces(n) + "...")[n] == '.';
  }

  lemma YamlOpens(n: nat)
    ensures NextYaml(None, OpenLine(n) + "\n") == Some(n)
  {
    assert "---"[0] == '-';
    PlainLine(OpenLine(n));
    IndentExact(n, "---");
  }

  lemma YamlCloses(n: nat)
    ensures NextYaml(Some(n), CloseLine(n) + "\n") == None
  {
    PlainLine(CloseLine(n));
  }

  lemma NameKeepsYaml(n: nat, name: string, rest: string)
    requires PlainText(name)
    ensures YamlAfter(None, Line(NameLine(n, name), rest)) == YamlAfter(None, rest)
  {
    var text := "# Subtest: " + name;
    YamlLine(None, NameLine(n, name), rest);
    assert text[0] == '#' && text[|text| - 1] == name[|name| - 1];
    OrdinaryOutside(n, text);
  }

  lemma OrdinalKeepsYaml(n: nat, ordinal: string, name: string, rest: string)
    requires PlainText(name) && '\n' !in ordinal
    ensures YamlAfter(None, Line(OrdinalLine(n, ordinal, name), rest)) == YamlAfter(None, rest)
  {
    var text := "ok " + (ordinal + (" - " + name));
    YamlLine(None, OrdinalLine(n, ordinal, name), rest);
    assert text[0] == 'o' && text[|text| - 1] == name[|name| - 1];
    OrdinaryOutside(n, text);
  }

  lemma InsideLine(n: nat, text: string, rest: string)
    requires PlainText(text) && text[0] != '.'
    ensures YamlAfter(Some(n), Line(Spaces(n) + text, rest)) == YamlAfter(Some(n), rest)
  {
    YamlLine(Some(n), Spaces(n) + text, rest);
    OrdinaryInside(n, text);
  }

  lemma CloseEnds(n: nat, rest: string)
    ensures YamlAfter(Some(n), Line(CloseLine(n), rest)) == YamlAfter(None, rest)
  {
    YamlLine(Some(n), CloseLine(n), rest);
    YamlCloses(n);
  }

  lemma EndCloses(n: nat, typed: bool, rest: string)
    ensures YamlAfter(Some(n), EndThen(n, typed, rest)) == YamlAfter(None, rest)
  {
    InsideLine(n, "type: 'test'", Line(CloseLine(n), rest));
    CloseEnds(n, rest);
  }

  lemma DurationInside(n: nat, duration: string, rest: string)
    requires PlainText(duration)
    ensures YamlAfter(Some(n), Line(DurationLine(n, duration), rest)) == YamlAfter(Some(n), rest)
  {
    var text := "duration_ms: " + duration;
    assert text[|text| - 1] == duration[|duration| - 1];
    InsideLine(n, text, rest);
  }

  lemma OpenStarts(n: nat, rest: string)
    ensures YamlAfter(None, Line(OpenLine(n), rest)) == YamlAfter(Some(n), rest)
  {
    YamlLine(None, OpenLine(n), rest);
    YamlOpens(n);
  }

  lemma YamlPartCloses(n: nat, duration: string, typed: bool, rest: string)
    requires PlainText(duration)
    ensures YamlAfter(None, YamlThen(n, duration, typed, rest)) == YamlAfter(None, rest)
  {
    OpenStarts(n, Line(DurationLine(n, duration), EndThen(n, typed, rest)));
    DurationInside(n, duration, EndThen(n, typed, rest));
    EndCloses(n, typed, rest);
  }

  lemma RecordFieldsPlain(r: Record)
    requires r.Valid()
    ensures PlainText(r.name) && PlainText(r.duration) && '\n' !in r.ordinal
  {
    DurationDigits(r.duration);
  }

  lemma HeadKeepsYaml(n: nat, name: string, ordinal: string, rest: string)
    requires PlainText(name) && '\n' !in ordinal
    ensures YamlAfter(None, Line(NameLine(n, name), Line(OrdinalLine(n, ordinal, name), rest)))
         == YamlAfter(None, rest)
  {
    NameKeepsYaml(n, name, Line(OrdinalLine(n, ordinal, name), rest));
    OrdinalKeepsYaml(n, ordinal, name, rest);
  }

  lemma FieldsKeepYaml(r: Record, rest: string)
    requires PlainText(r.name) && PlainText(r.duration) && '\n' !in r.ordinal
    ensures YamlAfter(None, RecordThen(r, rest)) == YamlAfter(None, rest)
  {
    HeadKeepsYaml(r.indent, r.name, r.ordinal, YamlThen(r.indent + 2, r.duration, r.typed, rest));
    YamlPartCloses(r.indent + 2, r.duration, r.typed, rest);
  }

  /** A record opens and closes its own block: packing it never hides a YAML line from the tracking. */
  lemma RecordKeepsYaml(r: Record, rest: string)
    requires r.Valid()
    ensures YamlAfter(None, RecordThen(r, rest)) == YamlAfter(None, rest)
  {
    RecordFieldsPlain(r);
    FieldsKeepYaml(r, rest);
  }

  // ---------------------------------------------------------------- the scan

  datatype Piece = Packed(record: Record) | Verbatim(line: string)

  lemma MatchShortens(s: string)
    requires MatchRecord(s).Match?
    ensures |MatchRecord(s).rest| < |s|
  {
    MatchSound(s);
    RecordConcat(MatchRecord(s).record, MatchRecord(s).rest);
  }

  /** The scan from a line start: a record outside a block is packed, any other line is copied. */
  function Scan(s: string, yaml: Option<nat>): seq<Piece>
    decreases |s|
  {
    if s == [] then []
    else if yaml.None? && MatchRecord(s).Match? then
      MatchShortens(s);
      [Packed(MatchRecord(s).record)] + Scan(MatchRecord(s).rest, None)
    else
      CutLine(s);
      [Verbatim(FirstLine(s))] + Scan(AfterLine(s), NextYaml(yaml, FirstLine(s)))
  }

  function Payload(r: Record): string {
    WriteArray([Text(r.ordinal), Text(r.name), Text(r.duration), if r.typed then Text("test") else Null])
  }

  function PackedLine(r: Record): string { Spaces(r.indent) + ("@pass " + Payload(r)) }

  function PieceSource(p: Piece): string {
    match p case Packed(r) => RecordText(r) case Verbatim(line) => line
  }

  function PieceBody(p: Piece): string {
    match p case Packed(r) => PackedLine(r) + "\n" case Verbatim(line) => line
  }

  function Source(pieces: seq<Piece>): string {
    if pieces == [] then "" else PieceSource(pieces[0]) + Source(pieces[1..])
  }

  function Body(pieces: seq<Piece>): string {
    if pieces == [] then "" else PieceBody(pieces[0]) + Body(pieces[1..])
  }

  function PackedCount(pieces: seq<Piece>): nat {
    if pieces == [] then 0 else (if pieces[0].Packed? then 1 else 0) + PackedCount(pieces[1..])
  }

  lemma ConsTail<T>(x: T, xs: seq<T>)
    ensures ([x] + xs)[0] == x && ([x] + xs)[1..] == xs
  {}

  predicate StepsTo(s: string, yaml: Option<nat>, p: Piece, rest: string, next: Option<nat>) {
    if yaml.None? && MatchRecord(s).Match?
    then p == Packed(MatchRecord(s).record) && rest == MatchRecord(s).rest && next == None
    else p == Verbatim(FirstLine(s)) && rest == AfterLine(s) && next == NextYaml(yaml, FirstLine(s))
  }

  /** The first step of a scan. */
  lemma ScanHead(s: string, yaml: Option<nat>) returns (p: Piece, rest: string, next: Option<nat>)
    requires s != []
    ensures Scan(s, yaml) == [p] + Scan(rest, next) && |rest| < |s|
    ensures s == PieceSource(p) + rest
    ensures StepsTo(s, yaml, p, rest, next)
  {
    if yaml.None? && MatchRecord(s).Match? {
      MatchSound(s);
      MatchShortens(s);
      p, rest, next := Packed(MatchRecord(s).record), MatchRecord(s).rest, None;
      RecordConcat(MatchRecord(s).record, rest);
    } else {
      CutLine(s);
      p, rest, next := Verbatim(FirstLine(s)), AfterLine(s), NextYaml(yaml, FirstLine(s));
    }
  }

  /** The scanner's own YAML state agrees with the tracking over lines. */
  lemma PieceYaml(s: string, yaml: Option<nat>, before: string)
    requires s != []
    requires AfterLine(s) == [] && !(yaml.None? && MatchRecord(s).Match?) ==> before == []
    ensures if yaml.None? && MatchRecord(s).Match?
            then YamlAfter(None, RecordText(MatchRecord(s).record) + before) == YamlAfter(None, before)
            else YamlAfter(yaml, FirstLine(s) + before) == YamlAfter(NextYaml(yaml, FirstLine(s)), before)
  {
    if yaml.None? && MatchRecord(s).Match? {
      MatchSound(s);
      var r := MatchRecord(s).record;
      RecordConcat(r, before);
      RecordKeepsYaml(r, before);
    } else {
      TakeLineSplits(s);
      match TakeLine(s)
      case NoLine =>
        EmptyConcat(s);
        assert YamlAfter(NextYaml(yaml, s), "") == NextYaml(yaml, s);
      case Split(line, rest) =>
        Assoc(line, "\n", before);
        YamlLine(yaml, line, before);
    }
  }

  lemma {:induction false} ScanIsSource(s: string, yaml: Option<nat>)
    ensures Source(Scan(s, yaml)) == s
    decreases |s|
  {
    if s != [] {
      var p, rest, next := ScanHead(s, yaml);
      ScanIsSource(rest, next);
      ConsTail(p, Scan(rest, next));
    }
  }

  lemma {:induction false} SourceConcat(a: seq<Piece>, b: seq<Piece>)
    ensures Source(a + b) == Source(a) + Source(b)
  {
    if a == [] {
      EmptyConcat(b);
      EmptyConcat(Source(b));
    } else {
      SourceConcat(a[1..], b);
      assert (a + b)[1..] == a[1..] + b;
      Assoc(PieceSource(a[0]), Source(a[1..]), Source(b));
    }
  }

  /** The source of a scan, cut between two pieces. */
  lemma SourceSplit(s: string, yaml: Option<nat>, a: seq<Piece>, b: seq<Piece>)
    requires Scan(s, yaml) == a + b
    ensures s == Source(a) + Source(b)
  {
    ScanIsSource(s, yaml);
    SourceConcat(a, b);
  }

  /** The tracking over lines, across the first of some pieces. */
  lemma YamlAcross(s: string, yaml: Option<nat>, p: Piece, rest: string, next: Option<nat>, before: string)
    requires s != [] && StepsTo(s, yaml, p, rest, next) && (rest == [] ==> before == [])
    ensures YamlAfter(yaml, PieceSource(p) + before) == YamlAfter(next, before)
  {
    PieceYaml(s, yaml, before);
  }

  lemma SourceCons(p: Piece, tail: seq<Piece>)
    ensures Source([p] + tail) == PieceSource(p) + Source(tail)
  {
    ConsTail(p, tail);
  }

  lemma Uncons<T>(x: T, xs: seq<T>, a: seq<T>, b: seq<T>) returns (tail: seq<T>)
    requires [x] + xs == a + b && a != []
    ensures a == [x] + tail && |tail| < |a| && xs == tail + b
  {
    tail := a[1..];
    assert a[0] == ([x] + xs)[0];
    assert xs == ([x] + xs)[1..] == tail + b;
  }

  /**
   The scan can be cut anywhere between its pieces: scanning the rest of the source, in the YAML
   state after all the lines before it, packed ones included, gives the rest of the pieces.
   */
  lemma {:induction false} ScanResumes(s: string, yaml: Option<nat>, a: seq<Piece>, b: seq<Piece>)
    requires Scan(s, yaml) == a + b
    ensures Scan(Source(b), YamlAfter(yaml, Source(a))) == b
    decreases |a|
  {
    if a == [] {
      ScanIsSource(s, yaml);
      EmptyConcat(b);
    } else {
      var p, rest, next := ScanHead(s, yaml);
      var tail := Uncons(p, Scan(rest, next), a, b);
      ScanResumes(rest, next, tail, b);
      SourceSplit(rest, next, tail, b);
      YamlAcross(s, yaml, p, rest, next, Source(tail));
      SourceCons(p, tail);
    }
  }

  /**
   What the scan does at its i-th piece: the pieces are the source in order, and a
   record is packed exactly where one starts outside every YAML block, where
   blocks are tracked over all lines of the source, packed ones included.
   */
  lemma PackedExactlyOutsideYaml(s: string, yaml: Option<nat>, i: nat)
    requires i < |Scan(s, yaml)|
    ensures var pieces := Scan(s, yaml);
      var before, after, piece := Source(pieces[..i]), Source(pieces[i..]), pieces[i];
      && s == before + after
      && (piece.Packed? <==> YamlAfter(yaml, before) == None && MatchRecord(after).Match?)
      && (piece.Packed? ==> piece.record == MatchRecord(after).record)
      && (piece.Verbatim? ==> piece.line == FirstLine(after))
  {
    var pieces := Scan(s, yaml);
    assert pieces == pieces[..i] + pieces[i..];
    ScanResumes(s, yaml, pieces[..i], pieces[i..]);
    SourceSplit(s, yaml, pieces[..i], pieces[i..]);
    var _, _, _ := ScanHead(Source(pieces[i..]), YamlAfter(yaml, Source(pieces[..i])));
  }
}
