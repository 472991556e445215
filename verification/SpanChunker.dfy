/**
 The chunker of local-ai-research/pivot_benchmark.py: a file is cut at its symbols, and each
 section into overlapping windows of at most 80 lines that shrink when they hold too many bytes.

 Regular expressions are a parameter `symbol` that gives the symbol a line starts, if any;
 `space` says which characters `strip` removes.
 */
module SpanChunker {
  import opened Common
  import Utf8

  const MAX_LINES := 80
  const MIN_LINES := 10
  const MAX_BYTES := 6000
  const OVERLAP := 10

  type Line = string

  datatype Window = Window(from: nat, stop: nat)

  datatype Chunk = Chunk(symbol: Option<string>, window: Window, text: string)

  // ---------------------------------------------------------------- text

  /** `len(text.encode("utf-8"))` */
  function ByteLength(text: string): nat { |Utf8.Encode(text)| }

  /** `"\n".join(lines)` */
  function Join(lines: seq<Line>): string {
    if lines == [] then ""
    else if |lines| == 1 then lines[0]
    else Join(lines[..|lines| - 1]) + "\n" + lines[|lines| - 1]
  }

  function StripLeft(text: string, space: char -> bool): string {
    if text != "" && space(text[0]) then StripLeft(text[1..], space) else text
  }

  function StripRight(text: string, space: char -> bool): string {
    if text != "" && space(text[|text| - 1]) then StripRight(text[..|text| - 1], space) else text
  }

  function Strip(text: string, space: char -> bool): string { StripRight(StripLeft(text, space), space) }

  predicate Blank(text: string, space: char -> bool) { forall i :: 0 <= i < |text| ==> space(text[i]) }

  lemma {:induction false} StripLeftEmpty(text: string, space: char -> bool)
    ensures StripLeft(text, space) == "" <==> Blank(text, space)
    ensures StripLeft(text, space) != "" ==> !space(StripLeft(text, space)[0])
  {
    if text != "" && space(text[0]) {
      StripLeftEmpty(text[1..], space);
      assert forall i :: 1 <= i < |text| ==> text[i] == text[1..][i - 1];
    }
  }

  lemma {:induction false} StripRightNotEmpty(text: string, space: char -> bool)
    requires text != "" && !space(text[0])
    ensures StripRight(text, space) != ""
  {
    if space(text[|text| - 1]) {
      StripRightNotEmpty(text[..|text| - 1], space);
    }
  }

  lemma StripEmpty(text: string, space: char -> bool)
    ensures Strip(text, space) == "" <==> Blank(text, space)
  {
    StripLeftEmpty(text, space);
    if StripLeft(text, space) != "" {
      StripRightNotEmpty(StripLeft(text, space), space);
    }
  }

  /** Joined lines are blank exactly when each of them is. */
  lemma {:induction false} JoinBlank(lines: seq<Line>, space: char -> bool)
    requires space('\n')
    ensures Blank(Join(lines), space) <==> forall i :: 0 <= i < |lines| ==> Blank(lines[i], space)
  {
    if |lines| > 1 {
      var front, last := lines[..|lines| - 1], lines[|lines| - 1];
      JoinBlank(front, space);
      BlankConcat(Join(front), "\n", space);
      BlankConcat(Join(front) + "\n", last, space);
      assert Blank("\n", space);
    }
  }

  lemma BlankConcat(a: string, b: string, space: char -> bool)
    ensures Blank(a + b, space) <==> Blank(a, space) && Blank(b, space)
  {
    if Blank(a + b, space) {
      forall i | 0 <= i < |a| ensures space(a[i]) { assert (a + b)[i] == a[i]; }
      forall i | 0 <= i < |b| ensures space(b[i]) { assert (a + b)[|a| + i] == b[i]; }
    }
  }

  // ---------------------------------------------------------------- windows

  /** The encoded size of the lines between two indices. */
  type Measure = (nat, nat) -> nat

  /** A file as the splitter sees it: the size and the stripped text of its line ranges. */
  datatype Page = Page(size: Measure, text: (nat, nat) -> string)

  function PageOf(lines: seq<Line>, space: char -> bool): Page {
    Page((from: nat, stop: nat) => if from <= stop <= |lines| then ByteLength(Join(lines[from..stop])) else 0,
         (from: nat, stop: nat) => if from <= stop <= |lines| then Strip(Join(lines[from..stop]), space) else "")
  }

  function Min(a: int, b: int): int { if a <= b then a else b }
  function Max(a: int, b: int): int { if a >= b then a else b }

  /** The inner loop: drop five lines while there are more than ten and too many bytes. */
  function Shrink(size: Measure, from: nat, stop: nat): (r: nat)
    requires from <= stop
    ensures from <= r <= stop && (from < stop ==> from < r)
    decreases stop
  {
    if stop > from + MIN_LINES && size(from, stop) > MAX_BYTES then Shrink(size, from, stop - 5) else stop
  }

  /** Where the window that starts at the cursor stops. */
  function Stop(size: Measure, cursor: nat, end: nat): (r: nat)
    requires cursor < end
    ensures cursor < r <= end
  {
    Shrink(size, cursor, Min(end, cursor + MAX_LINES))
  }

  /** The next cursor; past the end once a window reaches it. */
  function Next(cursor: nat, stop: nat, end: nat): nat
    requires cursor < stop <= end
  {
    if stop >= end then end else Max(cursor + 1, stop - OVERLAP)
  }

  /** The windows of a span, blank ones included. */
  function Windows(size: Measure, cursor: nat, end: nat): seq<Window>
    decreases end - cursor
  {
    if cursor >= end then []
    else
      var stop := Stop(size, cursor, end);
      [Window(cursor, stop)] + Windows(size, Next(cursor, stop, end), end)
  }

  /** A window is within limits, and as long as the limits allow up to a step of five lines. */
  ghost predicate Fits(size: Measure, w: Window, end: nat) {
    && w.from < w.stop <= end
    && w.stop - w.from <= MAX_LINES
    && (size(w.from, w.stop) > MAX_BYTES ==> w.stop - w.from <= MIN_LINES)
    && (w.stop < end && w.stop - w.from < MAX_LINES ==>
         && w.stop + 5 <= end && MIN_LINES < w.stop + 5 - w.from <= MAX_LINES
         && size(w.from, w.stop + 5) > MAX_BYTES)
  }

  lemma {:induction false} ShrinkFits(size: Measure, from: nat, stop: nat, top: nat)
    requires from < stop <= top
    requires stop < top ==> MIN_LINES < stop + 5 - from && stop + 5 <= top && size(from, stop + 5) > MAX_BYTES
    ensures var r := Shrink(size, from, stop);
      && (size(from, r) > MAX_BYTES ==> r - from <= MIN_LINES)
      && (r < top ==> MIN_LINES < r + 5 - from && r + 5 <= top && size(from, r + 5) > MAX_BYTES)
    decreases stop
  {
    if stop > from + MIN_LINES && size(from, stop) > MAX_BYTES {
      ShrinkFits(size, from, stop - 5, top);
    }
  }

  lemma StopFits(size: Measure, cursor: nat, end: nat)
    requires cursor < end
    ensures Fits(size, Window(cursor, Stop(size, cursor, end)), end)
  {
    var top := Min(end, cursor + MAX_LINES);
    ShrinkFits(size, cursor, top, top);
  }

  ghost predicate AllFit(size: Measure, windows: seq<Window>, cursor: nat, end: nat) {
    forall i :: 0 <= i < |windows| ==> cursor <= windows[i].from && Fits(size, windows[i], end)
  }

  lemma {:induction false} WindowsFit(size: Measure, cursor: nat, end: nat)
    ensures AllFit(size, Windows(size, cursor, end), cursor, end)
    decreases end - cursor
  {
    if cursor < end {
      var stop := Stop(size, cursor, end);
      StopFits(size, cursor, end);
      WindowsFit(size, Next(cursor, stop, end), end);
    }
  }

  /** The windows leave out no line of the span. */
  lemma {:induction false} WindowsCover(size: Measure, cursor: nat, end: nat, k: nat)
    requires cursor <= k < end
    ensures exists w :: w in Windows(size, cursor, end) && w.from <= k < w.stop
    decreases end - cursor
  {
    var stop := Stop(size, cursor, end);
    assert Window(cursor, stop) in Windows(size, cursor, end);
    if k >= stop {
      var next := Next(cursor, stop, end);
      WindowsCover(size, next, end, k);
      var w :| w in Windows(size, next, end) && w.from <= k < w.stop;
      assert w in Windows(size, cursor, end);
    }
  }

  /** Windows start in order, and a later one shares at most ten lines with an earlier one. */
  ghost predicate Ordered(windows: seq<Window>) {
    forall i, j :: 0 <= i < j < |windows| ==>
      windows[i].from < windows[j].from && windows[i].stop - windows[j].from <= OVERLAP
  }

  lemma {:induction false} WindowsOrdered(size: Measure, cursor: nat, end: nat)
    ensures Ordered(Windows(size, cursor, end))
    decreases end - cursor
  {
    if cursor < end {
      var stop := Stop(size, cursor, end);
      var next := Next(cursor, stop, end);
      WindowsOrdered(size, next, end);
      WindowsFit(size, next, end);
      OrderedFirst(Window(cursor, stop), Windows(size, next, end), next);
    }
  }

  lemma OrderedFirst(first: Window, rest: seq<Window>, next: nat)
    requires Ordered(rest) && first.from < next && first.stop - next <= OVERLAP
    requires forall i :: 0 <= i < |rest| ==> next <= rest[i].from
    ensures Ordered([first] + rest)
  {}

  // ---------------------------------------------------------------- chunks

  function ChunkOf(page: Page, w: Window, symbol: Option<string>): Chunk {
    Chunk(symbol, w, page.text(w.from, w.stop))
  }

  /** The windows with text, each as a chunk. */
  function Chunks(page: Page, windows: seq<Window>, symbol: Option<string>): seq<Chunk> {
    if windows == [] then []
    else
      var before := Chunks(page, windows[..|windows| - 1], symbol);
      var chunk := ChunkOf(page, windows[|windows| - 1], symbol);
      if chunk.text != "" then before + [chunk] else before
  }

  lemma ChunksSnoc(page: Page, windows: seq<Window>, w: Window, symbol: Option<string>)
    ensures Chunks(page, windows + [w], symbol) ==
      var chunk, before := ChunkOf(page, w, symbol), Chunks(page, windows, symbol);
      if chunk.text != "" then before + [chunk] else before
  {
    Drop(windows, [w]);
  }

  lemma {:induction false} ChunksMembers(page: Page, windows: seq<Window>, symbol: Option<string>, c: Chunk)
    ensures c in Chunks(page, windows, symbol) <==>
      c.window in windows && c == ChunkOf(page, c.window, symbol) && c.text != ""
  {
    if windows != [] {
      var front, last := windows[..|windows| - 1], windows[|windows| - 1];
      ChunksMembers(page, front, symbol, c);
      assert windows == front + [last];
    }
  }

  ghost function WindowsOf(chunks: seq<Chunk>): seq<Window> {
    seq(|chunks|, i requires 0 <= i < |chunks| => chunks[i].window)
  }

  /** Leaving out the blank windows keeps the order. */
  lemma {:induction false} ChunksOrdered(page: Page, windows: seq<Window>, symbol: Option<string>)
    requires Ordered(windows)
    ensures Ordered(WindowsOf(Chunks(page, windows, symbol)))
  {
    if windows != [] {
      var front, last := windows[..|windows| - 1], windows[|windows| - 1];
      ChunksOrdered(page, front, symbol);
      var before := Chunks(page, front, symbol);
      forall i | 0 <= i < |before| ensures before[i].window in front {
        ChunksMembers(page, front, symbol, before[i]);
      }
      OrderedLast(WindowsOf(before), front, last);
      assert WindowsOf(before + [ChunkOf(page, last, symbol)]) == WindowsOf(before) + [last];
    }
  }

  lemma OrderedLast(some: seq<Window>, front: seq<Window>, last: Window)
    requires Ordered(some) && Ordered(front + [last])
    requires forall i :: 0 <= i < |some| ==> some[i] in front
    ensures Ordered(some + [last])
  {
    forall i | 0 <= i < |some| ensures some[i].from < last.from && some[i].stop - last.from <= OVERLAP {
      var k :| 0 <= k < |front| && front[k] == some[i];
      assert (front + [last])[k] == some[i] && (front + [last])[|front|] == last;
    }
  }

  /** The chunks of a span. */
  function SpanChunks(page: Page, start: nat, end: nat, symbol: Option<string>): seq<Chunk> {
    Chunks(page, Windows(page.size, start, end), symbol)
  }

  /** A chunk of a span fits it and is the text of its window. */
  ghost predicate SpanChunk(c: Chunk, page: Page, start: nat, end: nat, symbol: Option<string>) {
    start <= c.window.from && Fits(page.size, c.window, end) && c == ChunkOf(page, c.window, symbol) && c.text != ""
  }

  lemma SpanSound(page: Page, start: nat, end: nat, symbol: Option<string>, c: Chunk)
    requires c in SpanChunks(page, start, end, symbol)
    ensures SpanChunk(c, page, start, end, symbol)
  {
    WindowsFit(page.size, start, end);
    ChunksMembers(page, Windows(page.size, start, end), symbol, c);
  }

  /** Some range with this line would have no text. */
  ghost predicate Hidden(page: Page, k: nat, end: nat) {
    exists from, stop :: 0 <= from <= k < stop <= end && page.text(from, stop) == ""
  }

  lemma SpanCovered(page: Page, start: nat, end: nat, symbol: Option<string>, k: nat)
    requires start <= k < end && !Hidden(page, k, end)
    ensures exists c :: c in SpanChunks(page, start, end, symbol) && c.window.from <= k < c.window.stop
  {
    WindowsCover(page.size, start, end, k);
    var w :| w in Windows(page.size, start, end) && w.from <= k < w.stop;
    WindowsFit(page.size, start, end);
    assert page.text(w.from, w.stop) != "";
    ChunksMembers(page, Windows(page.size, start, end), symbol, ChunkOf(page, w, symbol));
  }

  /** A range of lines has no text only if all of its lines are blank. */
  lemma HiddenIsBlank(lines: seq<Line>, space: char -> bool, k: nat, end: nat)
    requires k < end <= |lines| && space('\n') && !Blank(lines[k], space)
    ensures !Hidden(PageOf(lines, space), k, end)
  {
    forall from, stop | 0 <= from <= k < stop <= end ensures PageOf(lines, space).text(from, stop) != "" {
      RangeShows(lines, space, k, from, stop);
    }
  }

  lemma RangeShows(lines: seq<Line>, space: char -> bool, k: nat, from: nat, stop: nat)
    requires from <= k < stop <= |lines| && space('\n') && !Blank(lines[k], space)
    ensures Strip(Join(lines[from..stop]), space) != ""
  {
    assert lines[from..stop][k - from] == lines[k];
    JoinBlank(lines[from..stop], space);
    StripEmpty(Join(lines[from..stop]), space);
  }

  /**
   The chunks of a span lie inside it, are at most 80 lines, exceed 6000 bytes only with at most
   ten lines, stop early only where five more lines would be too many bytes, miss no line that is
   not blank, and overlap by at most ten lines.
   */
  lemma SpanIsCut(lines: seq<Line>, start: nat, end: nat, symbol: Option<string>, space: char -> bool)
    requires end <= |lines| && space('\n')
    ensures var page := PageOf(lines, space);
      var chunks := SpanChunks(page, start, end, symbol);
      && (forall c :: c in chunks ==> SpanChunk(c, page, start, end, symbol))
      && (forall k :: start <= k < end && !Blank(lines[k], space) ==>
           exists c :: c in chunks && c.window.from <= k < c.window.stop)
      && Ordered(WindowsOf(chunks))
  {
    var page := PageOf(lines, space);
    forall c | c in SpanChunks(page, start, end, symbol) ensures SpanChunk(c, page, start, end, symbol) {
      SpanSound(page, start, end, symbol, c);
    }
    forall k | start <= k < end && !Blank(lines[k], space)
      ensures exists c :: c in SpanChunks(page, start, end, symbol) && c.window.from <= k < c.window.stop
    {
      HiddenIsBlank(lines, space, k, end);
      SpanCovered(page, start, end, symbol, k);
    }
    WindowsOrdered(page.size, start, end);
    ChunksOrdered(page, Windows(page.size, start, end), symbol);
  }

  // ---------------------------------------------------------------- the program

  lemma TakeWindow(size: Measure, all: seq<Window>, done: seq<Window>, cursor: nat, stop: nat, end: nat)
    requires cursor < end && all == done + Windows(size, cursor, end)
    requires stop == Stop(size, cursor, end)
    ensures all == done + [Window(cursor, stop)] + Windows(size, Next(cursor, stop, end), end)
  {
    Assoc(done, [Window(cursor, stop)], Windows(size, Next(cursor, stop, end), end));
  }

  method SplitSpan(page: Page, start: nat, end: nat, symbol: Option<string>) returns (chunks: seq<Chunk>)
    ensures chunks == SpanChunks(page, start, end, symbol)
  {
    chunks := [];
    var cursor := start;
    ghost var all, done := Windows(page.size, start, end), [];
    while cursor < end
      invariant chunks == Chunks(page, done, symbol)
      invariant all == done + Windows(page.size, cursor, end)
      decreases end - cursor
    {
      var stop := Min(end, cursor + MAX_LINES);
      while stop > cursor + MIN_LINES && page.size(cursor, stop) > MAX_BYTES
        invariant cursor < stop <= end
        invariant Shrink(page.size, cursor, stop) == Stop(page.size, cursor, end)
      {
        stop := stop - 5;
      }
      var text := page.text(cursor, stop);
      ChunksSnoc(page, done, Window(cursor, stop), symbol);
      TakeWindow(page.size, all, done, cursor, stop, end);
      if text != "" {
        chunks := chunks + [Chunk(symbol, Window(cursor, stop), text)];
      }
      done := done + [Window(cursor, stop)];
      if stop >= end {
        cursor := end;
        break;
      }
      cursor := Max(cursor + 1, stop - OVERLAP);
    }
    EmptyConcat(done);
  }

  /** A symbol and the line it starts on. */
  datatype Start = Start(line: nat, symbol: string)

  ghost predicate Increasing(starts: seq<Start>, n: nat) {
    && (forall i :: 0 <= i < |starts| ==> starts[i].line < n)
    && (forall i, j :: 0 <= i < j < |starts| ==> starts[i].line < starts[j].line)
  }

  /** The starts are the lines that the pattern matches, in order. */
  ghost predicate StartsOf(starts: seq<Start>, lines: seq<Line>, symbol: Line -> Option<string>, n: nat)
    requires n <= |lines|
  {
    && Increasing(starts, n)
    && (forall i :: 0 <= i < |starts| ==> symbol(lines[starts[i].line]) == Some(starts[i].symbol))
    && (forall k :: 0 <= k < n && symbol(lines[k]).Some? ==> exists i :: 0 <= i < |starts| && starts[i].line == k)
  }

  lemma StartsStep(starts: seq<Start>, lines: seq<Line>, symbol: Line -> Option<string>, n: nat)
    requires n < |lines| && StartsOf(starts, lines, symbol, n)
    ensures var found := symbol(lines[n]);
      StartsOf(if found.Some? then starts + [Start(n, found.value)] else starts, lines, symbol, n + 1)
  {
    var found := symbol(lines[n]);
    if found.Some? {
      var more := starts + [Start(n, found.value)];
      forall k | 0 <= k < n + 1 && symbol(lines[k]).Some? ensures exists i :: 0 <= i < |more| && more[i].line == k {
        if k < n {
          var i :| 0 <= i < |starts| && starts[i].line == k;
          assert more[i].line == k;
        } else {
          assert more[|starts|].line == k;
        }
      }
    }
  }

  method SymbolStarts(lines: seq<Line>, symbol: Line -> Option<string>) returns (starts: seq<Start>)
    ensures StartsOf(starts, lines, symbol, |lines|)
  {
    starts := [];
    for k := 0 to |lines|
      invariant StartsOf(starts, lines, symbol, k)
    {
      StartsStep(starts, lines, symbol, k);
      var found := symbol(lines[k]);
      if found.Some? {
        starts := starts + [Start(k, found.value)];
      }
    }
  }

  /** The symbol of a line: that of the last start not after it, "preamble" before the first. */
  function LastSymbol(starts: seq<Start>, k: nat): string {
    if starts == [] then "preamble"
    else if starts[|starts| - 1].line <= k then starts[|starts| - 1].symbol
    else LastSymbol(starts[..|starts| - 1], k)
  }

  function SymbolAt(starts: seq<Start>, k: nat): Option<string> {
    if starts == [] then None else Some(LastSymbol(starts, k))
  }

  lemma {:induction false} LastSymbolWithin(starts: seq<Start>, n: nat, i: nat, k: nat)
    requires Increasing(starts, n) && i <= |starts|
    requires i > 0 ==> starts[i - 1].line <= k
    requires i < |starts| ==> k < starts[i].line
    ensures LastSymbol(starts, k) == if i == 0 then "preamble" else starts[i - 1].symbol
  {
    if i < |starts| {
      LastSymbolWithin(starts[..|starts| - 1], n, i, k);
    }
  }

  /** Section `i` runs from start `i - 1`, or the top, to start `i`, or the end. */
  function SectionStart(starts: seq<Start>, i: nat): nat
    requires i <= |starts|
  {
    if i == 0 then 0 else starts[i - 1].line
  }

  function SectionEnd(starts: seq<Start>, n: nat, i: nat): nat
    requires i <= |starts|
  {
    if i == |starts| then n else starts[i].line
  }

  lemma SectionSymbol(starts: seq<Start>, n: nat, i: nat)
    requires Increasing(starts, n) && i <= |starts|
    requires i == 0 && starts != [] ==> starts[0].line > 0
    ensures SymbolAt(starts, SectionStart(starts, i)) ==
      if starts == [] then None else if i == 0 then Some("preamble") else Some(starts[i - 1].symbol)
  {
    LastSymbolWithin(starts, n, i, SectionStart(starts, i));
  }

  function SectionChunks(page: Page, n: nat, starts: seq<Start>, i: nat): seq<Chunk>
    requires i <= |starts|
  {
    SpanChunks(page, SectionStart(starts, i), SectionEnd(starts, n, i), SymbolAt(starts, SectionStart(starts, i)))
  }

  /** The chunks of the first `i` sections. */
  function BlobChunks(page: Page, n: nat, starts: seq<Start>, i: nat): seq<Chunk>
    requires i <= |starts| + 1
  {
    if i == 0 then [] else BlobChunks(page, n, starts, i - 1) + SectionChunks(page, n, starts, i - 1)
  }

  /** What is promised of a chunk of a file: its section's symbol, no other section's lines, the limits. */
  ghost predicate BlobChunk(c: Chunk, page: Page, n: nat, starts: seq<Start>) {
    && c.window.from < c.window.stop <= n
    && c == ChunkOf(page, c.window, SymbolAt(starts, c.window.from))
    && c.text != ""
    && c.window.stop - c.window.from <= MAX_LINES
    && (page.size(c.window.from, c.window.stop) > MAX_BYTES ==> c.window.stop - c.window.from <= MIN_LINES)
    && forall i :: 0 <= i < |starts| ==> !(c.window.from < starts[i].line < c.window.stop)
  }

  /** The chunks of one section keep to it. */
  lemma SectionKept(page: Page, n: nat, starts: seq<Start>, i: nat, c: Chunk)
    requires Increasing(starts, n) && i <= |starts| && c in SectionChunks(page, n, starts, i)
    ensures BlobChunk(c, page, n, starts)
  {
    var start, end := SectionStart(starts, i), SectionEnd(starts, n, i);
    SpanSound(page, start, end, SymbolAt(starts, start), c);
    LastSymbolWithin(starts, n, i, c.window.from);
    LastSymbolWithin(starts, n, i, start);
  }

  /** Every chunk of a file stays inside the section of one symbol and carries that symbol. */
  lemma {:induction false} ChunksKeepToSections(page: Page, n: nat, starts: seq<Start>, i: nat, c: Chunk)
    requires Increasing(starts, n) && i <= |starts| + 1 && c in BlobChunks(page, n, starts, i)
    ensures BlobChunk(c, page, n, starts)
  {
    if c in BlobChunks(page, n, starts, i - 1) {
      ChunksKeepToSections(page, n, starts, i - 1, c);
    } else {
      SectionKept(page, n, starts, i - 1, c);
    }
  }

  /** Every line of a file that is not blank lies in a chunk. */
  lemma {:induction false} NoLineLost(lines: seq<Line>, starts: seq<Start>, space: char -> bool, i: nat, k: nat)
    requires Increasing(starts, |lines|) && i <= |starts| && space('\n')
    requires k < SectionEnd(starts, |lines|, i) && !Blank(lines[k], space)
    ensures exists c ::
      c in BlobChunks(PageOf(lines, space), |lines|, starts, i + 1) && c.window.from <= k < c.window.stop
  {
    var page, n := PageOf(lines, space), |lines|;
    var start, end := SectionStart(starts, i), SectionEnd(starts, n, i);
    var c;
    if k < start {
      NoLineLost(lines, starts, space, i - 1, k);
      c :| c in BlobChunks(page, n, starts, i) && c.window.from <= k < c.window.stop;
    } else {
      HiddenIsBlank(lines, space, k, end);
      SpanCovered(page, start, end, SymbolAt(starts, start), k);
      c :| c in SectionChunks(page, n, starts, i) && c.window.from <= k < c.window.stop;
    }
    assert c in BlobChunks(page, n, starts, i + 1);
  }

  method ChunkBlob(lines: seq<Line>, symbol: Line -> Option<string>, space: char -> bool)
    returns (chunks: seq<Chunk>, starts: seq<Start>)
    ensures StartsOf(starts, lines, symbol, |lines|)
    ensures chunks == BlobChunks(PageOf(lines, space), |lines|, starts, |starts| + 1)
  {
    starts := SymbolStarts(lines, symbol);
    chunks := ChunkSections(PageOf(lines, space), |lines|, starts);
  }

  /** The branches of `chunk_blob` once the lines and starts are known. */
  method ChunkSections(page: Page, n: nat, starts: seq<Start>) returns (chunks: seq<Chunk>)
    requires Increasing(starts, n)
    ensures chunks == BlobChunks(page, n, starts, |starts| + 1)
  {
    chunks := [];
    if n == 0 { return; }
    if starts == [] {
      SectionSymbol(starts, n, 0);
      chunks := SplitSpan(page, 0, n, None);
    } else {
      if starts[0].line > 0 {
        SectionSymbol(starts, n, 0);
        chunks := SplitSpan(page, 0, starts[0].line, Some("preamble"));
      }
      for i := 0 to |starts|
        invariant chunks == BlobChunks(page, n, starts, i + 1)
      {
        var end := if i + 1 < |starts| then starts[i + 1].line else n;
        SectionSymbol(starts, n, i + 1);
        var section := SplitSpan(page, starts[i].line, end, Some(starts[i].symbol));
        chunks := chunks + section;
      }
    }
  }

  // ---------------------------------------------------------------- texts and limits

  /** The limits of a window: 80 lines, 6000 bytes unless it has at most ten lines, ten lines of overlap. */
  lemma Limits()
    ensures MAX_LINES == 80 && MIN_LINES == 10 && MAX_BYTES == 6000 && OVERLAP == 10
  {}

  /** Joined lines, one more at a time. */
  lemma JoinText(lines: seq<Line>, last: Line)
    ensures Join([]) == "" && Join([last]) == last
    ensures lines != [] ==> Join(lines + [last]) == Join(lines) + ['\n'] + last
  {
    Drop(lines, [last]);
  }

  /** Stripping takes the space at both ends and no more. */
  lemma StripText(left: string, core: string, right: string, space: char -> bool)
    requires Blank(left, space) && Blank(right, space)
    requires core == "" || (!space(core[0]) && !space(core[|core| - 1]))
    ensures Strip(left + core + right, space) == core
  {
    if core == "" {
      EmptyConcat(left);
      BlankConcat(left, right, space);
      StripEmpty(left + right, space);
    } else {
      StripLeftText(left, core + right, space);
      Assoc(left, core, right);
      StripRightText(core, right, space);
    }
  }

  lemma {:induction false} StripLeftText(left: string, rest: string, space: char -> bool)
    requires Blank(left, space) && rest != "" && !space(rest[0])
    ensures StripLeft(left + rest, space) == rest
  {
    if left == "" {
      EmptyConcat(rest);
    } else {
      StripLeftText(left[1..], rest, space);
      assert (left + rest)[1..] == left[1..] + rest;
    }
  }

  lemma {:induction false} StripRightText(core: string, right: string, space: char -> bool)
    requires Blank(right, space) && core != "" && !space(core[|core| - 1])
    ensures StripRight(core + right, space) == core
  {
    if right == "" {
      EmptyConcat(core);
    } else {
      var front, c := right[..|right| - 1], right[|right| - 1];
      StripRightText(core, front, space);
      assert (core + right)[..|core + right| - 1] == core + front;
    }
  }

  /** A file's sizes and texts: the UTF-8 length, and the stripped text, of its joined lines. */
  lemma PageText(lines: seq<Line>, space: char -> bool, from: nat, stop: nat)
    requires from <= stop <= |lines|
    ensures PageOf(lines, space).size(from, stop) == |Utf8.Encode(Join(lines[from..stop]))|
    ensures PageOf(lines, space).text(from, stop) == Strip(Join(lines[from..stop]), space)
  {}

  /** The cut ends with the first window that reaches the end of the span. */
  lemma {:induction false} OnlyLastReachesEnd(size: Measure, cursor: nat, end: nat)
    requires cursor < end
    ensures var w := Windows(size, cursor, end);
      && w != [] && w[0].from == cursor && w[|w| - 1].stop == end
      && forall i :: 0 <= i < |w| - 1 ==> w[i].stop < end
    decreases end - cursor
  {
    var stop := Stop(size, cursor, end);
    if stop < end {
      OnlyLastReachesEnd(size, Next(cursor, stop, end), end);
    }
  }

  /** The next window starts ten lines before the end of the last one, but at least one line later. */
  lemma NextStarts(size: Measure, cursor: nat, end: nat, i: nat)
    requires i + 1 < |Windows(size, cursor, end)|
    ensures var w := Windows(size, cursor, end);
      w[i + 1].from == if w[i].stop - 10 > w[i].from then w[i].stop - 10 else w[i].from + 1
    decreases end - cursor
  {
    var stop := Stop(size, cursor, end);
    var rest := Windows(size, Next(cursor, stop, end), end);
    if i > 0 {
      NextStarts(size, Next(cursor, stop, end), end, i - 1);
    } else {
      assert rest[0].from == Next(cursor, stop, end);
    }
  }
}
