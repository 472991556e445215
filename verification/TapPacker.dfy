/**
 Packing of repeated TAP successes and its inverse
 (scripts/local-ai/compact_output.py).  The packer re-expands its own output
 before it trusts it; the main theorem is that this check can never fail.
 */
module TapPacker {
  import opened Common
  import opened JsonText
  import opened TapRecord
  import opened TapScan

  // ---------------------------------------------------------------- expanding the body

  datatype LineExpansion = Kept | Malformed | Unpacked(record: Record)

  /** One packed payload: four items of the right shapes, or an error. */
  function DecodePayload(n: nat, payload: string): LineExpansion {
    match ParseArray(payload)
    case None => Malformed
    case Some(items) => RecordOf(n, items)
  }

  function RecordOf(n: nat, items: seq<Item>): LineExpansion {
    if |items| != 4 || items[0].Null? || items[1].Null? || items[2].Null? then Malformed
    else
      var ordinal, name, duration := items[0].s, items[1].s, items[2].s;
      if !IsOrdinal(ordinal) || '\r' in name || '\n' in name || !IsDuration(duration)
         || !(items[3] == Null || items[3] == Text("test"))
      then Malformed
      else Unpacked(Record(n, ordinal, name, duration, items[3].Text?))
  }

  /** A newline-terminated line: `^( *)@pass (.+)` is expanded, anything else is kept. */
  function ExpandLine(line: string): LineExpansion {
    var n := Indent(line);
    match Strip(line[n..], "@pass ")
    case None => Kept
    case Some(payload) => if payload == "" then Kept else DecodePayload(n, payload)
  }

  datatype Expansion = ExpandError | Expanded(text: string, count: nat)

  function ExpandBody(body: string): Expansion
    decreases |body|
  {
    CutLine(body);
    match TakeLine(body)
    case NoLine => Expanded(body, 0)
    case Split(line, rest) => Prepend(line, ExpandBody(rest))
  }

  function Prepend(line: string, after: Expansion): Expansion {
    match (ExpandLine(line), after)
    case (Malformed, _) => ExpandError
    case (_, ExpandError) => ExpandError
    case (Kept, Expanded(text, count)) => Expanded(line + "\n" + text, count)
    case (Unpacked(r), Expanded(text, count)) => Expanded(RecordText(r) + text, count + 1)
  }

  // ---------------------------------------------------------------- expanding undoes the scan

  lemma PayloadRoundTrip(r: Record)
    requires r.Valid()
    ensures DecodePayload(r.indent, Payload(r)) == Unpacked(r)
  {
    ArrayRoundTrip([Text(r.ordinal), Text(r.name), Text(r.duration), if r.typed then Text("test") else Null]);
  }

  lemma PackedLineExpands(r: Record)
    requires r.Valid()
    ensures ExpandLine(PackedLine(r)) == Unpacked(r)
  {
    var text := "@pass " + Payload(r);
    assert text[0] == '@';
    IndentExact(r.indent, text);
    StripConcat("@pass ", Payload(r));
    PayloadRoundTrip(r);
  }

  lemma PackedLineOneLine(r: Record)
    ensures '\n' !in PackedLine(r)
  {
    ItemsOneLine([Text(r.ordinal), Text(r.name), Text(r.duration), if r.typed then Text("test") else Null]);
    MarkedOneLine(r.indent, Payload(r));
  }

  lemma MarkedOneLine(n: nat, payload: string)
    requires '\n' !in payload
    ensures '\n' !in Spaces(n) + ("@pass " + payload)
  {}

  lemma ExpandOneLine(line: string, rest: string)
    requires '\n' !in line
    ensures ExpandBody(Line(line, rest)) == Prepend(line, ExpandBody(rest))
  {
    TakeLineExact(line, rest);
  }

  predicate LineStart(s: string, k: nat) { k < |s| && (k == 0 || s[k - 1] == '\n') }

  /** `^ *@pass ` at the start of a text. */
  predicate Collides(text: string) { Strip(text[Indent(text)..], "@pass ").Some? }

  /** The multi-line search for `^ *@pass ` finds nothing. */
  predicate Clear(s: string) { forall k :: 0 <= k < |s| && LineStart(s, k) ==> !Collides(s[k..]) }

  lemma ClearSuffix(a: string, rest: string)
    requires Clear(a + rest)
    requires a != [] && a[|a| - 1] == '\n'
    ensures Clear(rest)
  {
    var s := a + rest;
    forall k | 0 <= k < |rest| && LineStart(rest, k) ensures !Collides(rest[k..]) {
      assert k > 0 ==> s[|a| + k - 1] == rest[k - 1];
      assert LineStart(s, |a| + k);
      assert s[|a| + k..] == rest[k..];
    }
  }

  /** A line that would be expanded collides, whatever follows it. */
  lemma ExpandedLineCollides(line: string, rest: string)
    requires ExpandLine(line) != Kept
    ensures Collides(Line(line, rest))
  {
    IndentSplits(line);
    var n := Indent(line);
    var payload := Strip(line[n..], "@pass ").value;
    var tail := payload + ("\n" + rest);
    assert Line(line, rest) == Spaces(n) + ("@pass " + tail);
    assert ("@pass " + tail)[0] == '@';
    IndentExact(n, "@pass " + tail);
    StripConcat("@pass ", tail);
  }

  /** The first line, if it is complete, is not expanded. */
  predicate FirstLineKept(s: string) { TakeLine(s).Split? ==> ExpandLine(TakeLine(s).line) == Kept }

  lemma ClearKeepsFirstLine(s: string)
    requires s != [] && Clear(s)
    ensures FirstLineKept(s)
  {
    assert LineStart(s, 0) && s[0..] == s;
    TakeLineSplits(s);
    if TakeLine(s).Split? && ExpandLine(TakeLine(s).line) != Kept {
      ExpandedLineCollides(TakeLine(s).line, TakeLine(s).rest);
    }
  }

  lemma PackedExpands(r: Record, rest: string, after: string, count: nat)
    requires r.Valid()
    requires ExpandBody(after) == Expanded(rest, count)
    ensures ExpandBody(Line(PackedLine(r), after)) == Expanded(RecordText(r) + rest, count + 1)
  {
    PackedLineOneLine(r);
    PackedLineExpands(r);
    ExpandOneLine(PackedLine(r), after);
  }

  function Counted(p: Piece): nat { if p.Packed? then 1 else 0 }

  /** A first piece of `s` that leaves `rest`. */
  predicate Fits(s: string, p: Piece, rest: string) {
    && s == PieceSource(p) + rest
    && match p
       case Packed(r) => r.Valid()
       case Verbatim(line) => line == FirstLine(s) && rest == AfterLine(s)
  }

  lemma ScanFits(s: string, yaml: Option<nat>) returns (p: Piece, rest: string, next: Option<nat>)
    requires s != []
    ensures Scan(s, yaml) == [p] + Scan(rest, next) && |rest| < |s|
    ensures Fits(s, p, rest)
  {
    p, rest, next := ScanHead(s, yaml);
    MatchSound(s);
  }

  lemma PackedPieceExpands(r: Record, rest: string, after: string, count: nat)
    requires r.Valid()
    requires ExpandBody(after) == Expanded(rest, count)
    ensures ExpandBody(PieceBody(Packed(r)) + after) == Expanded(PieceSource(Packed(r)) + rest, 1 + count)
  {
    Assoc(PackedLine(r), "\n", after);
    PackedExpands(r, rest, after, count);
  }

  lemma VerbatimPieceExpands(s: string, after: string, count: nat)
    requires FirstLineKept(s)
    requires AfterLine(s) == "" ==> after == ""
    requires ExpandBody(after) == Expanded(AfterLine(s), count)
    ensures ExpandBody(PieceBody(Verbatim(FirstLine(s))) + after) == Expanded(s, count)
  {
    TakeLineSplits(s);
    match TakeLine(s)
    case NoLine => EmptyConcat(s);
    case Split(line, rest) =>
      Assoc(line, "\n", after);
      Assoc(line, "\n", rest);
      ExpandOneLine(line, after);
  }

  /** Expanding one piece of a clear source, in front of an expanded rest. */
  lemma PieceExpands(s: string, p: Piece, rest: string, after: string, count: nat)
    requires FirstLineKept(s) && Fits(s, p, rest)
    requires rest == "" ==> after == ""
    requires ExpandBody(after) == Expanded(rest, count)
    ensures ExpandBody(PieceBody(p) + after) == Expanded(s, Counted(p) + count)
  {
    if p.Packed? {
      PackedPieceExpands(p.record, rest, after, count);
    } else {
      VerbatimPieceExpands(s, after, count);
    }
  }

  lemma BodyCons(p: Piece, tail: seq<Piece>)
    ensures Body([p] + tail) == PieceBody(p) + Body(tail)
    ensures PackedCount([p] + tail) == Counted(p) + PackedCount(tail)
  {
    ConsTail(p, tail);
  }

  lemma RecordTextEnds(r: Record)
    ensures RecordText(r) != [] && RecordText(r)[|RecordText(r)| - 1] == '\n'
  {}

  lemma ClearAfterStep(s: string, p: Piece, rest: string)
    requires s != [] && Clear(s) && Fits(s, p, rest)
    ensures Clear(rest)
  {
    if rest != [] {
      if p.Packed? { RecordTextEnds(p.record); }
      ClearSuffix(PieceSource(p), rest);
    }
  }

  ghost predicate ExpandsTo(pieces: seq<Piece>, s: string) {
    ExpandBody(Body(pieces)) == Expanded(s, PackedCount(pieces))
  }

  lemma ExpandStep(p: Piece, tail: seq<Piece>, body: string, count: nat, s: string)
    requires body == Body(tail) && count == PackedCount(tail)
    requires ExpandBody(PieceBody(p) + body) == Expanded(s, Counted(p) + count)
    ensures ExpandsTo([p] + tail, s)
  {
    BodyCons(p, tail);
  }

  lemma ExpandNext(s: string, p: Piece, tail: seq<Piece>, rest: string)
    requires FirstLineKept(s) && Fits(s, p, rest)
    requires rest == "" ==> tail == []
    requires ExpandsTo(tail, rest)
    ensures ExpandsTo([p] + tail, s)
  {
    var body, count := Body(tail), PackedCount(tail);
    PieceExpands(s, p, rest, body, count);
    ExpandStep(p, tail, body, count, s);
  }

  /** On every source without a colliding line, expanding the scanned body gives back the source. */
  lemma {:induction false} ExpandUndoesScan(s: string, yaml: Option<nat>)
    requires Clear(s)
    ensures ExpandsTo(Scan(s, yaml), s)
    decreases |s|
  {
    if s != [] {
      var p, rest, next := ScanFits(s, yaml);
      ClearKeepsFirstLine(s);
      ClearAfterStep(s, p, rest);
      ExpandUndoesScan(rest, next);
      ExpandNext(s, p, Scan(rest, next), rest);
    }
  }
}
