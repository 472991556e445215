/**
 The session index of ia-bridge/usage.js on the heap: states whose records are
 shared between copies, summaries that share objects with the state they were
 taken from, and the chunked, resumable scan of one file.
 */
module UsageIndex {
  import opened Common
  import opened SessionLines
  import F = UsageFold

  /** A mutable record of the five counters. */
  class TokenRecord {
    var n: F.Counts

    constructor (n: F.Counts)
      ensures this.n == n
    {
      this.n := n;
    }

    /** `addTokens`: every counter of the target grows by the usage, where that is positive. */
    method Add(usage: F.Counts)
      modifies this
      ensures n == old(n).Plus(usage.Positive())
    {
      if usage.input > 0 { n := n.(input := n.input + usage.input); }
      if usage.cached > 0 { n := n.(cached := n.cached + usage.cached); }
      if usage.output > 0 { n := n.(output := n.output + usage.output); }
      if usage.reasoning > 0 { n := n.(reasoning := n.reasoning + usage.reasoning); }
      if usage.total > 0 { n := n.(total := n.total + usage.total); }
    }
  }

  class DayMap {
    var days: map<string, TokenRecord>

    constructor (days: map<string, TokenRecord>)
      ensures this.days == days
    {
      this.days := days;
    }
  }

  class RateLog {
    var samples: seq<F.Candidate>

    constructor (samples: seq<F.Candidate>)
      ensures this.samples == samples
    {
      this.samples := samples;
    }
  }

  ghost function DayCounts(days: map<string, TokenRecord>): map<string, F.Counts>
    reads days.Values
  {
    map d | d in days :: days[d].n
  }

  class UsageState {
    const totals: TokenRecord
    const daily: DayMap
    const rateEvents: RateLog
    var previous: map<F.Key, int>
    var latest: Option<F.Candidate>
    var latestRate: Option<F.Candidate>
    var latestPlan: Option<F.Candidate>
    var latestCredit: Option<F.Candidate>
    var eventCount: nat

    /** The running total is no day's record, so adding to it never changes a day. */
    ghost predicate Valid()
      reads this, daily
    {
      totals !in daily.days.Values
    }

    ghost function Value(): F.Usage
      reads this, totals, daily, rateEvents, daily.days.Values
    {
      F.Usage(totals.n, DayCounts(daily.days), previous, latest, latestRate, latestPlan, latestCredit,
              eventCount, rateEvents.samples)
    }

    /** `emptyCodexUsageState`. */
    constructor Empty()
      ensures Valid() && Value() == F.EMPTY
      ensures fresh(totals) && fresh(daily) && fresh(rateEvents) && daily.days == map[]
    {
      totals := new TokenRecord(F.ZERO);
      daily := new DayMap(map[]);
      rateEvents := new RateLog([]);
      previous, eventCount := map[], 0;
      latest, latestRate, latestPlan, latestCredit := None, None, None, None;
    }

    /** `copyCodexUsageState`: new containers, but the day records themselves are shared. */
    constructor Copy(state: UsageState)
      requires state.Valid()
      ensures Valid() && Value() == state.Value()
      ensures fresh(totals) && fresh(daily) && fresh(rateEvents) && daily.days == state.daily.days
    {
      totals := new TokenRecord(state.totals.n);
      daily := new DayMap(state.daily.days);
      rateEvents := new RateLog(state.rateEvents.samples);
      previous, eventCount := state.previous, state.eventCount;
      latest, latestRate := state.latest, state.latestRate;
      latestPlan, latestCredit := state.latestPlan, state.latestCredit;
    }

    /** The token part of `consumeCodexUsageLine`: a day's record is replaced, never changed in place. */
    method Charge(e: F.Event)
      requires Valid()
      modifies totals, daily, this`previous
      ensures Valid()
      ensures totals.n == old(totals.n).Plus(F.Delta(old(previous), e.current))
      ensures DayCounts(daily.days)
           == (var before := old(DayCounts(daily.days));
               before[e.day := F.OnDay(before, e.day).Plus(F.Delta(old(previous), e.current))])
      ensures previous == old(previous) + e.current
      ensures forall r :: r in daily.days.Values ==> r in old(daily.days.Values) || fresh(r)
    {
      var delta := F.Delta(previous, e.current);
      F.DeltaPositive(previous, e.current);
      totals.Add(delta);
      var dayUsage := new TokenRecord(if e.day in daily.days then daily.days[e.day].n else F.ZERO);
      dayUsage.Add(delta);
      daily.days := daily.days[e.day := dayUsage];
      previous := previous + e.current;
    }

    /** The snapshot part of `consumeCodexUsageLine`. */
    method Remember(e: F.Event)
      modifies rateEvents, this`latest, this`latestRate, this`latestPlan, this`latestCredit
      ensures var c := F.Candidate(e.timestamp, e.rate);
        && latest == F.Newer(old(latest), c)
        && latestRate == (if e.rate.primary then F.Newer(old(latestRate), c) else old(latestRate))
        && latestPlan == (if e.rate.plan then F.Newer(old(latestPlan), c) else old(latestPlan))
        && latestCredit == (if e.rate.credits then F.Newer(old(latestCredit), c) else old(latestCredit))
        && rateEvents.samples
           == (if e.rate.primary then old(rateEvents.samples) + [c] else old(rateEvents.samples))
    {
      var candidate := F.Candidate(e.timestamp, e.rate);
      if latest.None? || e.timestamp > latest.value.timestamp { latest := Some(candidate); }
      if e.rate.primary && (latestRate.None? || e.timestamp > latestRate.value.timestamp) {
        latestRate := Some(candidate);
      }
      if e.rate.plan && (latestPlan.None? || e.timestamp > latestPlan.value.timestamp) {
        latestPlan := Some(candidate);
      }
      if e.rate.primary { rateEvents.samples := rateEvents.samples + [candidate]; }
      if e.rate.credits && (latestCredit.None? || e.timestamp > latestCredit.value.timestamp) {
        latestCredit := Some(candidate);
      }
    }

    /** `consumeCodexUsageLine` once the line is known to be a token count. */
    method Absorb(e: F.Event)
      requires Valid()
      modifies this, totals, daily, rateEvents
      ensures Valid() && Value() == F.Apply(old(Value()), e)
      ensures forall r :: r in daily.days.Values ==> r in old(daily.days.Values) || fresh(r)
    {
      ghost var before := Value();
      eventCount := eventCount + 1;
      assert DayCounts(daily.days) == before.daily;
      Charge(e);
      ghost var days := DayCounts(daily.days);
      Remember(e);
      assert DayCounts(daily.days) == days;
      F.ApplyParts(before, e, Value());
    }

    /**
     `consumeCodexUsageLine`.  Only the state's own containers are written: day
     records that other states or summaries share keep their counts.
     */
    method Consume(line: Bytes, parse: F.Parser) returns (ok: bool)
      requires Valid()
      modifies this, totals, daily, rateEvents
      ensures ok <==> F.Consume(old(Value()), line, parse).Some?
      ensures ok ==> Valid() && Value() == F.Consume(old(Value()), line, parse).value
      ensures forall r :: r in daily.days.Values ==> r in old(daily.days.Values) || fresh(r)
    {
      match parse(line)
      case Ignored => ok := true;
      case Throws => ok := false;
      case TokenCount(e) =>
        Absorb(e);
        ok := true;
    }
  }

  class UsageSummary {
    const totals: TokenRecord
    const daily: DayMap
    const rateEvents: RateLog
    const latest: Option<F.Candidate>
    const latestRate: Option<F.Candidate>
    const latestPlan: Option<F.Candidate>
    const latestCredit: Option<F.Candidate>
    const eventCount: nat
    const sessionCount: nat

    ghost function Value(): F.Snapshot
      reads this, totals, daily, rateEvents, daily.days.Values
    {
      F.Snapshot(totals.n, DayCounts(daily.days), latest, latestRate, latestPlan, latestCredit,
                 eventCount, rateEvents.samples, sessionCount)
    }

    /** The object spread of a view: the summary holds the view's own containers. */
    constructor Of(view: UsageState)
      ensures Value() == F.Publish(view.Value())
      ensures totals == view.totals && daily == view.daily && rateEvents == view.rateEvents
    {
      totals, daily, rateEvents := view.totals, view.daily, view.rateEvents;
      latest, latestRate := view.latest, view.latestRate;
      latestPlan, latestCredit := view.latestPlan, view.latestCredit;
      eventCount, sessionCount := view.eventCount, if view.eventCount > 0 then 1 else 0;
    }
  }

  /**
   `codexUsageSummary`.  The method has no `modifies` clause: publishing a view
   with a provisional tail changes neither the committed state nor anything that
   was published before.
   */
  method Summarize(state: UsageState, pending: Bytes, parse: F.Parser) returns (summary: UsageSummary?)
    requires state.Valid()
    ensures summary == null <==> F.View(state.Value(), pending, parse).None?
    ensures summary != null ==>
      fresh(summary) && summary.Value() == F.Publish(F.View(state.Value(), pending, parse).value)
  {
    var view := state;
    if |pending| > 0 {
      view := new UsageState.Copy(state);
      var ok := view.Consume(pending, parse);
      if !ok { return null; }
    }
    summary := new UsageSummary.Of(view);
  }

  // ---------------------------------------------------------------- chunked scan

  /** `chunk.indexOf(10, from)`: the next newline at or after `from`, or -1. */
  function IndexOf(chunk: Bytes, from: nat): (i: int)
    requires from <= |chunk|
    ensures i == -1 || from <= i < |chunk|
    decreases |chunk| - from
  {
    if from == |chunk| then -1 else if chunk[from] == NEWLINE then from else IndexOf(chunk, from + 1)
  }

  lemma {:induction false} IndexOfFirst(chunk: Bytes, from: nat)
    requires from <= |chunk|
    ensures var i := IndexOf(chunk, from);
      if i == -1 then NEWLINE !in chunk[from..] else chunk[i] == NEWLINE && NEWLINE !in chunk[from..i]
    decreases |chunk| - from
  {
    if from < |chunk| && chunk[from] != NEWLINE {
      IndexOfFirst(chunk, from + 1);
      var i := IndexOf(chunk, from + 1);
      assert chunk[from..] == [chunk[from]] + chunk[from + 1..];
      assert i != -1 ==> chunk[from..i] == [chunk[from]] + chunk[from + 1..i];
    }
  }

  /** A newline found in a chunk is the next one in the content. */
  lemma ChunkNewline(content: Bytes, base: nat, offset: nat, start: nat)
    requires base <= offset <= |content| && start <= offset - base
    ensures var end := IndexOf(content[base..offset], start);
      if end == -1 then NEWLINE !in content[base + start..offset]
      else content[base + end] == NEWLINE && NEWLINE !in content[base + start..base + end]
  {
    var chunk := content[base..offset];
    var end := IndexOf(chunk, start);
    IndexOfFirst(chunk, start);
    if end == -1 {
      SliceOfSlice(content, base, offset, start, |chunk|);
      assert chunk[start..|chunk|] == chunk[start..];
    } else {
      SliceOfSlice(content, base, offset, start, end);
    }
  }

  lemma SliceOfSlice(content: Bytes, base: nat, offset: nat, i: nat, j: nat)
    requires base <= offset <= |content| && i <= j <= offset - base
    ensures content[base..offset][i..j] == content[base + i..base + j]
  {
    var chunk := content[base..offset];
    assert forall k :: 0 <= k < j - i ==> chunk[i..j][k] == chunk[i + k] == content[base + i..base + j][k];
  }

  ghost predicate ScannedTo(state: UsageState, tail: Bytes, content: Bytes, n: nat, parse: F.Parser)
    requires n <= |content|
    reads state, state.totals, state.daily, state.rateEvents, state.daily.days.Values
  {
    && state.Valid()
    && F.Committed(content[..n], parse) == Some(state.Value())
    && tail == Tail(content[..n])
  }

  /** Reading up to, but not including, the next newline lengthens the tail. */
  lemma AdvancePlain(content: Bytes, a: nat, b: nat, parse: F.Parser)
    requires a <= b <= |content| && NEWLINE !in content[a..b]
    ensures Tail(content[..b]) == Tail(content[..a]) + content[a..b]
    ensures F.Committed(content[..b], parse) == F.Committed(content[..a], parse)
  {
    assert content[..b] == content[..a] + content[a..b];
    AppendPlain(content[..a], content[a..b]);
  }

  /** Reading the newline commits the tail as one line. */
  lemma AdvanceNewline(content: Bytes, a: nat, parse: F.Parser)
    requires a < |content| && content[a] == NEWLINE
    ensures Tail(content[..a + 1]) == []
    ensures F.Committed(content[..a + 1], parse)
         == match F.Committed(content[..a], parse)
            case None => None
            case Some(u) => F.Consume(u, Tail(content[..a]), parse)
  {
    assert content[..a + 1] == content[..a] + [NEWLINE];
    AppendNewline(content[..a]);
    F.FoldConcat(F.EMPTY, Complete(content[..a]), [Tail(content[..a])], parse);
    if F.Committed(content[..a], parse).Some? {
      F.FoldOne(F.Committed(content[..a], parse).value, Tail(content[..a]), parse);
    }
  }

  /** The records of a state after a change: the old ones or new ones. */
  twostate predicate RecordsGrow(state: UsageState)
    reads state, state.daily
  {
    forall r :: r in state.daily.days.Values ==> r in old(state.daily.days.Values) || fresh(r)
  }

  lemma AdvanceLine(content: Bytes, a: nat, b: nat, u: F.Usage, parse: F.Parser)
    requires a <= b < |content| && content[b] == NEWLINE && NEWLINE !in content[a..b]
    requires F.Committed(content[..a], parse) == Some(u)
    ensures Tail(content[..b + 1]) == []
    ensures F.Committed(content[..b + 1], parse) == F.Consume(u, Tail(content[..a]) + content[a..b], parse)
  {
    AdvancePlain(content, a, b, parse);
    AdvanceNewline(content, b, parse);
  }

  /** What was carried and the bytes up to the newline make the line that the fold commits next. */
  lemma LineCommits(
    tail: Bytes, part: Bytes, content: Bytes, base: nat, offset: nat, start: nat, end: nat, u: F.Usage, parse: F.Parser)
    requires base <= offset <= |content| && start <= offset - base
    requires end == IndexOf(content[base..offset], start) && part == content[base..offset][start..end]
    requires F.Committed(content[..base + start], parse) == Some(u) && tail == Tail(content[..base + start])
    ensures LineTaken(content, base + end + 1, tail + part, u, parse)
  {
    ChunkNewline(content, base, offset, start);
    SliceOfSlice(content, base, offset, start, end);
    TakeNextLine(content, base + start, base + end, tail + part, u, parse);
  }

  /** The content up to `n` has committed `line` last, and is unreadable for good if that throws. */
  ghost predicate LineTaken(content: Bytes, n: nat, line: Bytes, u: F.Usage, parse: F.Parser) {
    && n <= |content| && Tail(content[..n]) == []
    && F.Committed(content[..n], parse) == F.Consume(u, line, parse)
    && (F.Consume(u, line, parse).None? ==> F.Committed(content, parse).None?)
  }

  lemma TakeNextLine(content: Bytes, a: nat, b: nat, line: Bytes, u: F.Usage, parse: F.Parser)
    requires a <= b < |content| && content[b] == NEWLINE && NEWLINE !in content[a..b]
    requires F.Committed(content[..a], parse) == Some(u) && line == Tail(content[..a]) + content[a..b]
    ensures LineTaken(content, b + 1, line, u, parse)
  {
    AdvanceLine(content, a, b, u, parse);
    if F.Committed(content[..b + 1], parse).None? {
      ThrowsForGood(content, b + 1, parse);
    }
  }

  lemma ThrowsForGood(content: Bytes, n: nat, parse: F.Parser)
    requires n <= |content| && F.Committed(content[..n], parse).None?
    ensures F.Committed(content, parse).None?
  {
    assert content == content[..n] + content[n..];
    F.ThrowingLineIsPermanent(content[..n], content[n..], parse);
  }

  /** What was carried and the rest of a chunk without a newline are the tail; nothing more is committed. */
  lemma RestCarries(
    tail: Bytes, rest: Bytes, content: Bytes, base: nat, offset: nat, start: nat, parse: F.Parser)
    requires base <= offset <= |content| && start <= offset - base && IndexOf(content[base..offset], start) == -1
    requires rest == content[base..offset][start..] && tail == Tail(content[..base + start])
    ensures F.Committed(content[..offset], parse) == F.Committed(content[..base + start], parse)
    ensures Tail(content[..offset]) == tail + rest
  {
    ChunkNewline(content, base, offset, start);
    SliceOfSlice(content, base, offset, start, offset - base);
    assert rest == content[base..offset][start..offset - base];
    AdvancePlain(content, base + start, offset, parse);
  }

  /** The inner loop over one chunk `content[base..offset]`. */
  method ScanChunk(state: UsageState, carried: seq<Bytes>, content: Bytes, base: nat, offset: nat, parse: F.Parser)
    returns (ok: bool, parts: seq<Bytes>)
    requires base <= offset <= |content|
    requires ScannedTo(state, Flatten(carried), content, base, parse)
    modifies state, state.totals, state.daily, state.rateEvents
    ensures ok ==> ScannedTo(state, Flatten(parts), content, offset, parse)
    ensures !ok ==> F.Committed(content, parse).None?
    ensures RecordsGrow(state)
  {
    var chunk := content[base..offset];
    parts := carried;
    var start := 0;
    var end := IndexOf(chunk, 0);
    while end != -1
      invariant 0 <= start <= |chunk| && end == IndexOf(chunk, start)
      invariant ScannedTo(state, Flatten(parts), content, base + start, parse)
      invariant RecordsGrow(state)
      decreases |chunk| - start
    {
      var part := chunk[start..end];
      LineCommits(Flatten(parts), part, content, base, offset, start, end, state.Value(), parse);
      FlattenSnoc(parts, part);
      parts := parts + [part];
      ok := state.Consume(Flatten(parts), parse);
      if !ok { return; }
      parts, start := [], end + 1;
      end := IndexOf(chunk, start);
    }
    var rest := chunk[start..];
    RestCarries(Flatten(parts), rest, content, base, offset, start, parse);
    if start < |chunk| {
      FlattenSnoc(parts, rest);
      parts := parts + [rest];
    }
    ok := true;
  }

  /**
   The chunk loop of `updateCodexUsageFile`: from any already scanned prefix, and
   for any chunk size, it ends in the committed fold of the whole content with
   the whole unfinished tail pending, and fails exactly when some line throws.
   */
  method Scan(state: UsageState, carried: Bytes, from: nat, content: Bytes, chunkBytes: nat, parse: F.Parser)
    returns (ok: bool, pending: Bytes)
    requires 0 < chunkBytes && from <= |content|
    requires ScannedTo(state, carried, content, from, parse)
    modifies state, state.totals, state.daily, state.rateEvents
    ensures ok <==> F.Committed(content, parse).Some?
    ensures ok ==> ScannedTo(state, pending, content, |content|, parse)
    ensures RecordsGrow(state)
  {
    var parts: seq<Bytes> := if |carried| > 0 then [carried] else [];
    var offset := from;
    assert Flatten(parts) == carried by {
      FlattenSnoc([], carried);
    }
    while offset < |content|
      invariant from <= offset <= |content|
      invariant ScannedTo(state, Flatten(parts), content, offset, parse)
      invariant RecordsGrow(state)
    {
      var base := offset;
      offset := offset + if chunkBytes < |content| - offset then chunkBytes else |content| - offset;
      ok, parts := ScanChunk(state, parts, content, base, offset, parse);
      if !ok { return false, []; }
    }
    assert content[..|content|] == content;
    return true, Flatten(parts);
  }
}
