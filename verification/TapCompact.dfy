/**
 The envelope around a packed body, the packer with its own round-trip check, and
 the runner that buffers a command's output (scripts/local-ai/compact_output.py,
 scripts/local-ai/run.py).
 */
module TapCompact {
  import opened Common
  import opened JsonText
  import opened TapRecord
  import opened TapScan
  import opened TapPacker
  import opened Utf8

  const MARKER: string := "# LOCAL_CONTEXT_TAP_V1 "
  const LIMIT: nat := 8 * 1024 * 1024

  /** SHA-256 in hexadecimal is an opaque function of the bytes. */
  type Digest = Bytes -> string

  // ---------------------------------------------------------------- header

  datatype Header = Header(records: nat, bytes: nat, digest: string)

  const IDS: string := "{\"columns\":[\"id\","
  const NAMES: string := "\"name\",\"duration_ms\","
  const TYPES: string := "\"type\"],\"pass_records\":"
  const COLUMNS: string := IDS + (NAMES + TYPES)
  const BYTES: string := ",\"source_bytes\":"
  const DIGEST: string := ",\"source_sha256\":\""

  function WriteHeader(h: Header): string {
    COLUMNS + (WriteNat(h.records) + (BYTES + (WriteNat(h.bytes) + (DIGEST + (Escape(h.digest) + "\"}")))))
  }

  function ReadHeader(text: string): Option<Header> {
    match Strip(text, COLUMNS)
    case None => None
    case Some(t) =>
      match ReadNat(t)
      case Invalid => None
      case Read(records, t) => ReadBytes(records, t)
  }

  function ReadBytes(records: nat, text: string): Option<Header> {
    match Strip(text, BYTES)
    case None => None
    case Some(t) =>
      match ReadNat(t)
      case Invalid => None
      case Read(bytes, t) => ReadDigest(records, bytes, t)
  }

  function ReadDigest(records: nat, bytes: nat, text: string): Option<Header> {
    match Strip(text, DIGEST)
    case None => None
    case Some(t) =>
      match ReadBody(t)
      case Invalid => None
      case Read(digest, t) => if t == "}" then Some(Header(records, bytes, digest)) else None
  }

  lemma DigestRoundTrip(h: Header)
    ensures ReadDigest(h.records, h.bytes, DIGEST + (Escape(h.digest) + "\"}")) == Some(h)
  {
    StripConcat(DIGEST, Escape(h.digest) + "\"}");
    assert "\"" + "}" == "\"}";
    BodyRoundTrip(h.digest, "}");
  }

  lemma BytesRoundTrip(h: Header)
    ensures ReadBytes(h.records, BYTES + (WriteNat(h.bytes) + (DIGEST + (Escape(h.digest) + "\"}")))) == Some(h)
  {
    var tail := DIGEST + (Escape(h.digest) + "\"}");
    StripConcat(BYTES, WriteNat(h.bytes) + tail);
    assert tail[0] == ',';
    NatRoundTrip(h.bytes, tail);
    DigestRoundTrip(h);
  }

  lemma HeaderRoundTrip(h: Header)
    ensures ReadHeader(WriteHeader(h)) == Some(h)
  {
    var tail := BYTES + (WriteNat(h.bytes) + (DIGEST + (Escape(h.digest) + "\"}")));
    StripConcat(COLUMNS, WriteNat(h.records) + tail);
    assert tail[0] == ',';
    NatRoundTrip(h.records, tail);
    BytesRoundTrip(h);
  }

  lemma ConcatOneLine(a: string, b: string)
    requires '\n' !in a && '\n' !in b
    ensures '\n' !in a + b
  {}

  lemma MarkerOneLine()
    ensures '\n' !in MARKER
  {}

  lemma ColumnsOneLine()
    ensures '\n' !in COLUMNS
  {}

  lemma PartsOneLine(records: string, bytes: string, digest: string)
    requires '\n' !in records && '\n' !in bytes && '\n' !in digest
    ensures '\n' !in records + (BYTES + (bytes + (DIGEST + (digest + "\"}"))))
  {}

  lemma HeaderOneLine(h: Header)
    ensures '\n' !in WriteHeader(h)
  {
    NatOneLine(h.records);
    NatOneLine(h.bytes);
    EscapeOneLine(h.digest);
    PartsOneLine(WriteNat(h.records), WriteNat(h.bytes), Escape(h.digest));
    ColumnsOneLine();
    ConcatOneLine(COLUMNS, WriteNat(h.records) + (BYTES + (WriteNat(h.bytes) + (DIGEST + (Escape(h.digest) + "\"}")))));
  }

  // ---------------------------------------------------------------- expand_tap

  datatype Expanded = Rejected | Original(text: string)

  /** `expand_tap`: text without the marker is returned as it is; Rejected stands for an exception. */
  function ExpandTap(text: string, digest: Digest): Expanded {
    if !(MARKER <= text) then Original(text)
    else
      match TakeLine(text)
      case NoLine => Rejected
      case Split(header, body) =>
        if !(MARKER <= header) then Rejected
        else ExpandEnvelope(ReadHeader(header[|MARKER|..]), body, digest)
  }

  function ExpandEnvelope(header: Option<Header>, body: string, digest: Digest): Expanded {
    match header
    case None => Rejected
    case Some(h) =>
      match ExpandBody(body)
      case ExpandError => Rejected
      case Expanded(text, count) =>
        if h == Header(count, |Encode(text)|, digest(Encode(text))) then Original(text) else Rejected
  }

  /** The envelope of a scanned source. */
  function Wrap(pieces: seq<Piece>, source: string, digest: Digest): string {
    Envelope(Header(PackedCount(pieces), |Encode(source)|, digest(Encode(source))), Body(pieces))
  }

  function Envelope(h: Header, body: string): string { Line(MARKER + WriteHeader(h), body) }

  function Pack(source: string, digest: Digest): string { Wrap(Scan(source, None), source, digest) }

  lemma EnvelopeStarts(header: string, body: string)
    ensures MARKER <= Line(MARKER + header, body) && MARKER <= MARKER + header
    ensures (MARKER + header)[|MARKER|..] == header
  {
    Drop(MARKER, header);
  }

  lemma EnvelopeOpens(h: Header, body: string, digest: Digest)
    ensures ExpandTap(Envelope(h, body), digest) == ExpandEnvelope(Some(h), body, digest)
  {
    var header := WriteHeader(h);
    HeaderOneLine(h);
    MarkerOneLine();
    ConcatOneLine(MARKER, header);
    TakeLineExact(MARKER + header, body);
    EnvelopeStarts(header, body);
    HeaderRoundTrip(h);
  }

  lemma WrapExpands(pieces: seq<Piece>, source: string, digest: Digest)
    requires ExpandsTo(pieces, source)
    ensures ExpandTap(Wrap(pieces, source, digest), digest) == Original(source)
  {
    EnvelopeOpens(Header(PackedCount(pieces), |Encode(source)|, digest(Encode(source))), Body(pieces), digest);
  }

  /** Expanding a packed text gives back its source, for every source that passes the collision search. */
  lemma ExpandUndoesPack(source: string, digest: Digest)
    requires Clear(source)
    ensures ExpandTap(Pack(source, digest), digest) == Original(source)
  {
    ExpandUndoesScan(source, None);
    WrapExpands(Scan(source, None), source, digest);
  }

  // ---------------------------------------------------------------- compact_output

  predicate Contains(text: string, part: string) {
    part <= text || (text != [] && Contains(text[1..], part))
  }

  datatype Reason =
    | SmallOutput | SizeLimit | NonUtf8 | MarkerCollision | NoSupportedRecords | InsufficientReduction
    | RoundtripFailed | LosslessTap

  /** The result record of `compact_output`; Raised stands for an exception that leaves it. */
  datatype Outcome =
    | Outcome(output: Bytes, packed: bool, reason: Reason, sourceBytes: nat, outputBytes: nat, records: nat)
    | Raised

  datatype Limits = Limits(minBytes: nat, maxBytes: nat, minReduction: real)

  const DEFAULTS: Limits := Limits(4800, LIMIT, 0.15)

  function Fallback(raw: Bytes, reason: Reason): Outcome { Outcome(raw, false, reason, |raw|, |raw|, 0) }

  /** The last check: the output is only used if re-expanding it gives the input. */
  function Checked(raw: Bytes, output: Bytes, records: nat, digest: Digest): Outcome {
    match Decode(output)
    case None => Raised
    case Some(text) =>
      match ExpandTap(text, digest)
      case Rejected => Raised
      case Original(expanded) =>
        if Encode(expanded) != raw then Fallback(raw, RoundtripFailed)
        else Outcome(output, true, LosslessTap, |raw|, |output|, records)
  }

  function Compact(raw: Bytes, limits: Limits, digest: Digest): Outcome {
    if |raw| < limits.minBytes then Fallback(raw, SmallOutput)
    else if |raw| > limits.maxBytes then Fallback(raw, SizeLimit)
    else
      match Decode(raw)
      case None => Fallback(raw, NonUtf8)
      case Some(source) => CompactText(raw, source, limits, digest)
  }

  function CompactText(raw: Bytes, source: string, limits: Limits, digest: Digest): Outcome {
    if Contains(source, MARKER) || !Clear(source) then Fallback(raw, MarkerCollision)
    else CompactPieces(raw, Scan(source, None), source, limits, digest)
  }

  function CompactPieces(raw: Bytes, pieces: seq<Piece>, source: string, limits: Limits, digest: Digest): Outcome {
    if PackedCount(pieces) == 0 then Fallback(raw, NoSupportedRecords)
    else Sized(raw, Wrap(pieces, source, digest), PackedCount(pieces), limits, digest)
  }

  function Sized(raw: Bytes, text: string, records: nat, limits: Limits, digest: Digest): Outcome {
    var output := Encode(text);
    if |output| as real > |raw| as real * (1.0 - limits.minReduction) then Fallback(raw, InsufficientReduction)
    else Checked(raw, output, records, digest)
  }

  /** The scanning loop: its pieces, joined, are the body that `Scan` describes. */
  method ScanSource(source: string) returns (body: string, count: nat)
    ensures body == Body(Scan(source, None)) && count == PackedCount(Scan(source, None))
  {
    var pieces: seq<string> := [];
    var offset := 0;
    var yaml: Option<nat> := None;
    count := 0;
    assert source[0..] == source;
    while offset < |source|
      invariant 0 <= offset <= |source|
      invariant Flatten(pieces) + Body(Scan(source[offset..], yaml)) == Body(Scan(source, None))
      invariant count + PackedCount(Scan(source[offset..], yaml)) == PackedCount(Scan(source, None))
    {
      var s := source[offset..];
      var piece, rest, yaml', packed := ScanOne(s, yaml);
      FlattenSnoc(pieces, piece);
      Assoc(Flatten(pieces), piece, Body(Scan(rest, yaml')));
      pieces := pieces + [piece];
      count := count + if packed then 1 else 0;
      assert s[|s| - |rest|..] == source[offset + (|s| - |rest|)..];
      offset := offset + (|s| - |rest|);
      yaml := yaml';
    }
    assert source[offset..] == [];
    EmptyConcat(Flatten(pieces));
    return Flatten(pieces), count;
  }

  /** One iteration: the piece written, what is left, and the YAML state. */
  method ScanOne(s: string, yaml: Option<nat>)
    returns (piece: string, rest: string, yaml': Option<nat>, packed: bool)
    requires s != []
    ensures |rest| < |s| && rest == s[|s| - |rest|..]
    ensures Body(Scan(s, yaml)) == piece + Body(Scan(rest, yaml'))
    ensures PackedCount(Scan(s, yaml)) == (if packed then 1 else 0) + PackedCount(Scan(rest, yaml'))
  {
    ghost var p, r, next := ScanHead(s, yaml);
    BodyCons(p, Scan(r, next));
    Suffix(PieceSource(p), r, s);
    if yaml.None? {
      var m := MatchRecord(s);
      if m.Match? {
        return PackedLine(m.record) + "\n", m.rest, None, true;
      }
    }
    return FirstLine(s), AfterLine(s), NextYaml(yaml, FirstLine(s)), false;
  }

  lemma Suffix(a: string, rest: string, s: string)
    requires s == a + rest
    ensures rest == s[|s| - |rest|..]
  {}

  method CompactOutput(raw: Bytes, limits: Limits, digest: Digest) returns (outcome: Outcome)
    ensures outcome == Compact(raw, limits, digest)
  {
    if |raw| < limits.minBytes { return Fallback(raw, SmallOutput); }
    if |raw| > limits.maxBytes { return Fallback(raw, SizeLimit); }
    var source := Decode(raw);
    if source.None? { return Fallback(raw, NonUtf8); }
    if Contains(source.value, MARKER) || !Clear(source.value) { return Fallback(raw, MarkerCollision); }
    outcome := CompactSource(raw, source.value, limits, digest);
  }

  /** The part of `compact_output` after the collision search. */
  method CompactSource(raw: Bytes, source: string, limits: Limits, digest: Digest) returns (outcome: Outcome)
    requires Decode(raw) == Some(source)
    ensures outcome == CompactPieces(raw, Scan(source, None), source, limits, digest)
  {
    var body, count := ScanSource(source);
    ghost var pieces := Scan(source, None);
    if count == 0 { return Fallback(raw, NoSupportedRecords); }
    EncodeDecode(raw);
    var text := Envelope(Header(count, |raw|, digest(raw)), body);
    assert text == Wrap(pieces, source, digest);
    outcome := Sized(raw, text, count, limits, digest);
  }

  // ---------------------------------------------------------------- the packer is lossless

  /** What a reader of the output recovers: the bytes of the expanded text. */
  function Restore(output: Bytes, digest: Digest): Option<Bytes> {
    match Decode(output)
    case None => None
    case Some(text) =>
      match ExpandTap(text, digest)
      case Rejected => None
      case Original(t) => Some(Encode(t))
  }

  /** An outcome that loses nothing. */
  ghost predicate Lossless(o: Outcome, raw: Bytes, digest: Digest) {
    && o.Outcome?
    && o.reason != RoundtripFailed
    && (o.packed ==> Restore(o.output, digest) == Some(raw) && |o.output| == o.outputBytes)
    && (!o.packed ==> o.output == raw)
  }

  lemma CheckPasses(raw: Bytes, source: string, text: string, records: nat, digest: Digest)
    requires Encode(source) == raw && ExpandTap(text, digest) == Original(source)
    ensures Checked(raw, Encode(text), records, digest)
         == Outcome(Encode(text), true, LosslessTap, |raw|, |Encode(text)|, records)
    ensures Restore(Encode(text), digest) == Some(raw)
  {
    DecodeEncode(text);
  }

  lemma SizedLossless(raw: Bytes, source: string, text: string, records: nat, limits: Limits, digest: Digest)
    requires Encode(source) == raw && ExpandTap(text, digest) == Original(source)
    ensures Lossless(Sized(raw, text, records, limits, digest), raw, digest)
    ensures Sized(raw, text, records, limits, digest).packed ==>
      Sized(raw, text, records, limits, digest).output == Encode(text)
  {
    CheckPasses(raw, source, text, records, digest);
  }

  lemma PiecesLossless(raw: Bytes, pieces: seq<Piece>, source: string, limits: Limits, digest: Digest)
    requires Encode(source) == raw && ExpandsTo(pieces, source)
    ensures Lossless(CompactPieces(raw, pieces, source, limits, digest), raw, digest)
    ensures CompactPieces(raw, pieces, source, limits, digest).packed ==>
      CompactPieces(raw, pieces, source, limits, digest).output == Encode(Wrap(pieces, source, digest))
  {
    WrapExpands(pieces, source, digest);
    SizedLossless(raw, source, Wrap(pieces, source, digest), PackedCount(pieces), limits, digest);
  }

  /** The form of every packed output. */
  ghost predicate IsWrapped(output: Bytes, digest: Digest) {
    exists pieces, source :: output == Encode(Wrap(pieces, source, digest))
  }

  lemma TextLossless(raw: Bytes, source: string, limits: Limits, digest: Digest)
    requires Decode(raw) == Some(source)
    ensures var o := CompactText(raw, source, limits, digest);
      Lossless(o, raw, digest) && (o.packed ==> IsWrapped(o.output, digest))
  {
    if Clear(source) {
      EncodeDecode(raw);
      ExpandUndoesScan(source, None);
      PiecesLossless(raw, Scan(source, None), source, limits, digest);
    }
  }

  /**
   Whatever the input and the limits, nothing is raised, the round-trip check
   never fails, a packed output restores the input exactly, and an output that is
   not packed is the input.
   */
  lemma PackingIsLossless(raw: Bytes, limits: Limits, digest: Digest)
    ensures Lossless(Compact(raw, limits, digest), raw, digest)
    ensures Compact(raw, limits, digest).packed ==> IsWrapped(Compact(raw, limits, digest).output, digest)
  {
    if Decode(raw).Some? {
      TextLossless(raw, Decode(raw).value, limits, digest);
    }
  }

  /** Does the output save enough? */
  predicate Gains(raw: Bytes, text: string, limits: Limits) {
    |Encode(text)| as real <= |raw| as real * (1.0 - limits.minReduction)
  }

  lemma SizedPacks(raw: Bytes, source: string, text: string, records: nat, limits: Limits, digest: Digest)
    requires Encode(source) == raw && ExpandTap(text, digest) == Original(source)
    ensures var o := Sized(raw, text, records, limits, digest); o.Outcome? && (o.packed <==> Gains(raw, text, limits))
  {
    CheckPasses(raw, source, text, records, digest);
  }

  lemma PiecesPack(raw: Bytes, pieces: seq<Piece>, source: string, limits: Limits, digest: Digest)
    requires Encode(source) == raw && ExpandsTo(pieces, source)
    ensures var o := CompactPieces(raw, pieces, source, limits, digest);
      o.Outcome? && (o.packed <==> PackedCount(pieces) > 0 && Gains(raw, Wrap(pieces, source, digest), limits))
  {
    WrapExpands(pieces, source, digest);
    SizedPacks(raw, source, Wrap(pieces, source, digest), PackedCount(pieces), limits, digest);
  }

  /** A source that no collision, lack of records or small gain keeps from being packed. */
  predicate Worthwhile(raw: Bytes, source: string, limits: Limits, digest: Digest) {
    && !Contains(source, MARKER) && Clear(source)
    && PackedCount(Scan(source, None)) > 0 && Gains(raw, Pack(source, digest), limits)
  }

  lemma TextPacks(raw: Bytes, source: string, limits: Limits, digest: Digest)
    requires Decode(raw) == Some(source)
    ensures var o := CompactText(raw, source, limits, digest);
      o.Outcome? && (o.packed <==> Worthwhile(raw, source, limits, digest))
  {
    if Clear(source) {
      EncodeDecode(raw);
      ExpandUndoesScan(source, None);
      PiecesPack(raw, Scan(source, None), source, limits, digest);
    }
  }

  lemma CompactReadsText(raw: Bytes, source: string, limits: Limits, digest: Digest)
    requires Decode(raw) == Some(source)
    ensures Compact(raw, limits, digest) ==
      if |raw| < limits.minBytes then Fallback(raw, SmallOutput)
      else if |raw| > limits.maxBytes then Fallback(raw, SizeLimit)
      else CompactText(raw, source, limits, digest)
  {}

  lemma RoutedPacks(raw: Bytes, limits: Limits, text: Outcome, worthwhile: bool)
    requires text.Outcome? && (text.packed <==> worthwhile)
    ensures var o := if |raw| < limits.minBytes then Fallback(raw, SmallOutput)
                     else if |raw| > limits.maxBytes then Fallback(raw, SizeLimit) else text;
      o.Outcome? && (o.packed <==> limits.minBytes <= |raw| <= limits.maxBytes && worthwhile)
  {}

  /**
   Nothing but size, collisions, the absence of records and too small a gain keeps UTF-8 input from
   being packed: the re-expansion never does.
   */
  lemma PackedExactlyWhenWorthwhile(raw: Bytes, source: string, limits: Limits, digest: Digest)
    requires Decode(raw) == Some(source)
    ensures var o := Compact(raw, limits, digest);
      && o.Outcome?
      && (o.packed <==> limits.minBytes <= |raw| <= limits.maxBytes && Worthwhile(raw, source, limits, digest))
  {
    CompactReadsText(raw, source, limits, digest);
    TextPacks(raw, source, limits, digest);
    RoutedPacks(raw, limits, CompactText(raw, source, limits, digest), Worthwhile(raw, source, limits, digest));
  }

  lemma PlainRestores(raw: Bytes, source: string, digest: Digest)
    requires Decode(raw) == Some(source) && !(MARKER <= source)
    ensures Restore(raw, digest) == Some(raw)
  {
    EncodeDecode(raw);
  }

  /** Text that does not itself start with the marker is restored from whatever was emitted for it. */
  lemma EmittedRestores(raw: Bytes, source: string, limits: Limits, digest: Digest)
    requires Decode(raw) == Some(source) && !(MARKER <= source)
    ensures Compact(raw, limits, digest).Outcome?
    ensures Restore(Compact(raw, limits, digest).output, digest) == Some(raw)
  {
    PackingIsLossless(raw, limits, digest);
    PlainRestores(raw, source, digest);
  }

  lemma MarkedIsKept(raw: Bytes, text: string, limits: Limits, digest: Digest)
    requires Decode(raw) == Some(text) && MARKER <= text
    ensures Compact(raw, limits, digest).Outcome? && !Compact(raw, limits, digest).packed
    ensures Compact(raw, limits, digest).output == raw
  {
    assert Contains(text, MARKER);
  }

  lemma WrappedIsMarked(pieces: seq<Piece>, source: string, digest: Digest)
    ensures MARKER <= Wrap(pieces, source, digest)
  {}

  predicate IsPacked(o: Outcome) { o.Outcome? && o.packed }

  /** Compacting an output again changes nothing: under any limits if it was packed, else under the same ones. */
  lemma CompactIdempotent(raw: Bytes, limits: Limits, again: Limits, digest: Digest)
    requires again == limits || IsPacked(Compact(raw, limits, digest))
    ensures Compact(raw, limits, digest).Outcome?
    ensures var output := Compact(raw, limits, digest).output;
      Compact(output, again, digest).Outcome? && Compact(output, again, digest).output == output
  {
    PackingIsLossless(raw, limits, digest);
    var output := Compact(raw, limits, digest).output;
    if Compact(raw, limits, digest).packed {
      var pieces, source :| output == Encode(Wrap(pieces, source, digest));
      DecodeEncode(Wrap(pieces, source, digest));
      WrappedIsMarked(pieces, source, digest);
      MarkedIsKept(output, Wrap(pieces, source, digest), again, digest);
    }
  }

  // ---------------------------------------------------------------- run.py

  /** What the runner prints for a child's whole output. */
  function Printed(raw: Bytes, digest: Digest): Bytes {
    if |raw| > LIMIT then raw
    else
      match Compact(raw, DEFAULTS, digest)
      case Raised => raw
      case Outcome(output, _, _, _, _, _) => output
  }

  /** The buffering loop: however the child's output is cut into chunks, the result is the same. */
  method Run(chunks: seq<Bytes>, digest: Digest) returns (stdout: Bytes)
    ensures stdout == Printed(Flatten(chunks), digest)
  {
    stdout := [];
    var buffered: Bytes := [];
    var streaming := false;
    for i := 0 to |chunks|
      invariant streaming ==> stdout == Flatten(chunks[..i]) && |stdout| > LIMIT
      invariant !streaming ==> stdout == [] && buffered == Flatten(chunks[..i]) && |buffered| <= LIMIT
    {
      assert chunks[..i + 1] == chunks[..i] + [chunks[i]];
      FlattenSnoc(chunks[..i], chunks[i]);
      if streaming {
        stdout := stdout + chunks[i];
      } else {
        buffered := buffered + chunks[i];
        if |buffered| > LIMIT {
          streaming, stdout, buffered := true, buffered, [];
        }
      }
    }
    assert chunks[..|chunks|] == chunks;
    if !streaming {
      var outcome := CompactOutput(buffered, DEFAULTS, digest);
      stdout := if outcome.Raised? then buffered else outcome.output;
    }
  }

  /** The printed bytes restore the child's output, unless that output itself starts with the marker. */
  lemma PrintedRestores(raw: Bytes, source: string, digest: Digest)
    requires Decode(raw) == Some(source) && !(MARKER <= source)
    ensures Restore(Printed(raw, digest), digest) == Some(raw)
  {
    EncodeDecode(raw);
    EmittedRestores(raw, source, DEFAULTS, digest);
  }
}
