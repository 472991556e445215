/**
 The meaning of a session log: a left fold of token-count events into totals,
 per-day counts and the latest snapshots (ia-bridge/usage.js).  Everything here
 is on values; UsageIndex.dfy proves the heap-allocated scanner against it.
 */
module UsageFold {
  import opened Common
  import opened SessionLines

  datatype Key = Input | CachedInput | Output | ReasoningOutput | TotalTokens

  /** The five counters of `emptyTokens()`. */
  datatype Counts = Counts(input: int, cached: int, output: int, reasoning: int, total: int) {
    function Get(k: Key): int {
      match k
      case Input => input
      case CachedInput => cached
      case Output => output
      case ReasoningOutput => reasoning
      case TotalTokens => total
    }

    /** What `addTokens` takes of a usage: it skips values that are not positive. */
    function Positive(): Counts {
      Counts(Clamp(input), Clamp(cached), Clamp(output), Clamp(reasoning), Clamp(total))
    }

    /** Plain addition. */
    function Plus(other: Counts): (r: Counts)
      ensures forall k: Key :: r.Get(k) == Get(k) + other.Get(k)
    {
      Counts(input + other.input, cached + other.cached, output + other.output,
             reasoning + other.reasoning, total + other.total)
    }
  }

  const ZERO: Counts := Counts(0, 0, 0, 0, 0)

  /** The parts of a rate-limit snapshot that decide where it is remembered. */
  datatype RateLimits = RateLimits(primary: bool, plan: bool, credits: bool, payload: string)

  datatype Candidate = Candidate(timestamp: int, rate: RateLimits)

  /**
   A token-count event.  `current` holds the counters present in the event after
   numeric conversion; they may be negative.
   */
  datatype Event = Event(timestamp: int, day: string, current: map<Key, int>, rate: RateLimits)

  /**
   What one line is to the reader: blank, unparseable or of another kind
   (Ignored), a JSON value whose inspection throws, such as `null` (Throws),
   or a token-count event.
   */
  datatype Line = Ignored | Throws | TokenCount(event: Event)

  type Parser = Bytes -> Line

  datatype Usage = Usage(
    totals: Counts,
    daily: map<string, Counts>,
    previous: map<Key, int>,
    latest: Option<Candidate>,
    latestRate: Option<Candidate>,
    latestPlan: Option<Candidate>,
    latestCredit: Option<Candidate>,
    events: nat,
    rates: seq<Candidate>)

  const EMPTY: Usage := Usage(ZERO, map[], map[], None, None, None, None, 0, [])

  function Clamp(n: int): nat { if n < 0 then 0 else n }

  function Lookup(m: map<Key, int>, k: Key): nat { if k in m then Clamp(m[k]) else 0 }

  /** What one counter contributes: the growth since the last report, or all of it after a reset. */
  function Growth(previous: map<Key, int>, current: map<Key, int>, k: Key): nat {
    var now, before := Lookup(current, k), Lookup(previous, k);
    if now >= before then now - before else now
  }

  function Delta(previous: map<Key, int>, current: map<Key, int>): (r: Counts)
    ensures forall k: Key :: r.Get(k) == Growth(previous, current, k)
  {
    Counts(Growth(previous, current, Input), Growth(previous, current, CachedInput),
           Growth(previous, current, Output), Growth(previous, current, ReasoningOutput),
           Growth(previous, current, TotalTokens))
  }

  /** An increment is never negative, so `addTokens` takes all of it. */
  lemma DeltaPositive(previous: map<Key, int>, current: map<Key, int>)
    ensures Delta(previous, current).Positive() == Delta(previous, current)
  {}

  function OnDay(daily: map<string, Counts>, day: string): Counts {
    if day in daily then daily[day] else ZERO
  }

  /** Keep the earlier of two candidates unless the later one is strictly newer. */
  function Newer(latest: Option<Candidate>, c: Candidate): Option<Candidate> {
    if latest.None? || c.timestamp > latest.value.timestamp then Some(c) else latest
  }

  function Apply(u: Usage, e: Event): Usage {
    var delta := Delta(u.previous, e.current);
    var c := Candidate(e.timestamp, e.rate);
    Usage(
      u.totals.Plus(delta),
      u.daily[e.day := OnDay(u.daily, e.day).Plus(delta)],
      u.previous + e.current,
      Newer(u.latest, c),
      if e.rate.primary then Newer(u.latestRate, c) else u.latestRate,
      if e.rate.plan then Newer(u.latestPlan, c) else u.latestPlan,
      if e.rate.credits then Newer(u.latestCredit, c) else u.latestCredit,
      u.events + 1,
      if e.rate.primary then u.rates + [c] else u.rates)
  }

  /** `Apply`, field by field. */
  lemma ApplyParts(u: Usage, e: Event, after: Usage)
    requires var delta, c := Delta(u.previous, e.current), Candidate(e.timestamp, e.rate);
      && after.totals == u.totals.Plus(delta)
      && after.daily == u.daily[e.day := OnDay(u.daily, e.day).Plus(delta)]
      && after.previous == u.previous + e.current
      && after.latest == Newer(u.latest, c)
      && after.latestRate == (if e.rate.primary then Newer(u.latestRate, c) else u.latestRate)
      && after.latestPlan == (if e.rate.plan then Newer(u.latestPlan, c) else u.latestPlan)
      && after.latestCredit == (if e.rate.credits then Newer(u.latestCredit, c) else u.latestCredit)
      && after.events == u.events + 1
      && after.rates == if e.rate.primary then u.rates + [c] else u.rates
    ensures after == Apply(u, e)
  {}

  /** One line under any way of applying events; None when reading the line throws. */
  function Take<S>(step: (S, Event) -> S, s: S, line: Bytes, parse: Parser): Option<S> {
    match parse(line)
    case Ignored => Some(s)
    case Throws => None
    case TokenCount(e) => Some(step(s, e))
  }

  function FoldLines<S>(step: (S, Event) -> S, s: S, lines: seq<Bytes>, parse: Parser): Option<S> {
    if lines == [] then Some(s)
    else
      match FoldLines(step, s, lines[..|lines| - 1], parse)
      case None => None
      case Some(v) => Take(step, v, lines[|lines| - 1], parse)
  }

  function Consume(u: Usage, line: Bytes, parse: Parser): Option<Usage> { Take(Apply, u, line, parse) }

  function Fold(u: Usage, lines: seq<Bytes>, parse: Parser): Option<Usage> { FoldLines(Apply, u, lines, parse) }

  /** The committed part of a scan: the fold of the complete lines. */
  function Committed(content: Bytes, parse: Parser): Option<Usage> {
    Fold(EMPTY, Complete(content), parse)
  }

  /** The published view: the committed part and, provisionally, a non-empty tail. */
  function View(committed: Usage, pending: Bytes, parse: Parser): Option<Usage> {
    if pending == [] then Some(committed) else Consume(committed, pending, parse)
  }

  /** What a reader publishes about one file: the view without the counter memory. */
  datatype Snapshot = Snapshot(
    totals: Counts,
    daily: map<string, Counts>,
    latest: Option<Candidate>,
    latestRate: Option<Candidate>,
    latestPlan: Option<Candidate>,
    latestCredit: Option<Candidate>,
    events: nat,
    rates: seq<Candidate>,
    sessions: nat)

  function Publish(u: Usage): Snapshot {
    Snapshot(u.totals, u.daily, u.latest, u.latestRate, u.latestPlan, u.latestCredit, u.events, u.rates,
             if u.events > 0 then 1 else 0)
  }

  /** One scan of a whole file from scratch: what it publishes, or None when a line throws. */
  function FullScan(content: Bytes, parse: Parser): Option<Snapshot> {
    match Committed(content, parse)
    case None => None
    case Some(u) =>
      match View(u, Tail(content), parse)
      case None => None
      case Some(v) => Some(Publish(v))
  }

  // ---------------------------------------------------------------- laws of the fold

  lemma {:induction false} FoldLinesConcat<S>(
    step: (S, Event) -> S, s: S, a: seq<Bytes>, b: seq<Bytes>, parse: Parser)
    ensures FoldLines(step, s, a + b, parse)
         == match FoldLines(step, s, a, parse) case None => None case Some(v) => FoldLines(step, v, b, parse)
  {
    if b == [] {
      assert a + b == a;
    } else {
      FoldLinesConcat(step, s, a, b[..|b| - 1], parse);
      assert (a + b)[..|a + b| - 1] == a + b[..|b| - 1];
    }
  }

  lemma FoldConcat(u: Usage, a: seq<Bytes>, b: seq<Bytes>, parse: Parser)
    ensures Fold(u, a + b, parse)
         == match Fold(u, a, parse) case None => None case Some(v) => Fold(v, b, parse)
  {
    FoldLinesConcat(Apply, u, a, b, parse);
  }

  lemma FoldOne(u: Usage, line: Bytes, parse: Parser)
    ensures Fold(u, [line], parse) == Consume(u, line, parse)
  {
    assert [line][..0] == [];
    assert FoldLines(Apply, u, [line][..0], parse) == Some(u);
  }

  /**
   The published view of a file is the naive reading of it: split at newlines
   and fold every segment, the unfinished one included.
   */
  lemma ViewIsNaiveReading(content: Bytes, parse: Parser)
    requires parse([]) == Ignored
    ensures (match Committed(content, parse)
             case None => None
             case Some(u) => View(u, Tail(content), parse))
         == Fold(EMPTY, Segments(content), parse)
    ensures FullScan(content, parse)
         == match Fold(EMPTY, Segments(content), parse) case None => None case Some(u) => Some(Publish(u))
  {
    FoldConcat(EMPTY, Complete(content), [Tail(content)], parse);
    assert Segments(content) == Complete(content) + [Tail(content)];
    if Committed(content, parse).Some? {
      FoldOne(Committed(content, parse).value, Tail(content), parse);
    }
  }

  /**
   A provisional tail is counted once: closing it with a newline turns exactly
   the view that was published into the committed state.
   */
  lemma TailCountedOnce(content: Bytes, parse: Parser)
    requires parse([]) == Ignored
    ensures Committed(content + [NEWLINE], parse)
         == match Committed(content, parse)
            case None => None
            case Some(u) => View(u, Tail(content), parse)
  {
    AppendNewline(content);
    ViewIsNaiveReading(content, parse);
    assert Segments(content) == Complete(content) + [Tail(content)];
  }

  /** A complete line that throws makes every later version of the file unreadable. */
  lemma ThrowingLineIsPermanent(content: Bytes, more: Bytes, parse: Parser)
    requires Committed(content, parse).None?
    ensures Committed(content + more, parse).None?
  {
    CompleteGrows(content, more);
    var a, b := Complete(content), Complete(content + more)[|Complete(content)|..];
    assert Complete(content + more) == a + b;
    FoldConcat(EMPTY, a, b, parse);
  }

  lemma {:induction false} CompleteGrows(content: Bytes, more: Bytes)
    ensures Complete(content) <= Complete(content + more)
    decreases |more|
  {
    if more == [] {
      assert content + more == content;
    } else {
      var front, c := more[..|more| - 1], more[|more| - 1];
      CompleteGrows(content, front);
      assert content + more == (content + front) + [c];
      if c == NEWLINE {
        AppendNewline(content + front);
      } else {
        AppendPlain(content + front, [c]);
      }
    }
  }
}
