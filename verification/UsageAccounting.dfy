/**
 What the folded totals mean: every counter is charged the final value of each
 of its uninterrupted climbs, and the per-day counts always add up to the totals.
 */
module UsageAccounting {
  import opened Common
  import opened SessionLines
  import opened UsageFold
  import opened Folds

  /** The token-count events of some lines, in order, up to the first line that throws. */
  function Events(lines: seq<Bytes>, parse: Parser): seq<Event> {
    if lines == [] then []
    else
      var before := Events(lines[..|lines| - 1], parse);
      match parse(lines[|lines| - 1])
      case TokenCount(e) => before + [e]
      case _ => before
  }

  function ApplyAll(u: Usage, events: seq<Event>): Usage { FoldLeft(Apply, u, events) }

  lemma {:induction false} FoldLinesIsFoldLeft<S>(step: (S, Event) -> S, s: S, lines: seq<Bytes>, parse: Parser)
    ensures FoldLines(step, s, lines, parse).Some? <==> forall l :: l in lines ==> parse(l) != Throws
    ensures FoldLines(step, s, lines, parse).Some? ==>
      FoldLines(step, s, lines, parse).value == FoldLeft(step, s, Events(lines, parse))
  {
    if lines != [] {
      var front, line := lines[..|lines| - 1], lines[|lines| - 1];
      FoldLinesIsFoldLeft(step, s, front, parse);
      assert lines == front + [line];
      if parse(line).TokenCount? {
        FoldSnoc(step, s, Events(front, parse), parse(line).event);
      }
    }
  }

  /** A scan folds exactly the events of its lines, and fails exactly when a line throws. */
  lemma FoldIsApplyAll(lines: seq<Bytes>, parse: Parser)
    ensures Fold(EMPTY, lines, parse).Some? <==> forall l :: l in lines ==> parse(l) != Throws
    ensures Fold(EMPTY, lines, parse).Some? ==>
      Fold(EMPTY, lines, parse).value == ApplyAll(EMPTY, Events(lines, parse))
  {
    FoldLinesIsFoldLeft(Apply, EMPTY, lines, parse);
  }

  // ---------------------------------------------------------------- counters with resets

  /** The reported values of one counter: events that omit it are skipped, negatives count as zero. */
  function Reports(events: seq<Event>, k: Key): seq<nat> {
    if events == [] then []
    else
      ReportsOf(Reports(events[..|events| - 1], k), events[|events| - 1], k)
  }

  /** The sum of the last values of the maximal non-decreasing runs. */
  function ClimbTotal(values: seq<nat>): nat {
    if values == [] then 0
    else if |values| == 1 then values[0]
    else (if values[1] < values[0] then values[0] else 0) + ClimbTotal(values[1..])
  }

  lemma {:induction false} ClimbTotalSnoc(values: seq<nat>, v: nat)
    ensures ClimbTotal(values + [v])
         == ClimbTotal(values)
          + if values == [] || v < values[|values| - 1] then v else v - values[|values| - 1]
  {
    if values == [] {
    } else if |values| == 1 {
      assert (values + [v])[1..] == [v];
    } else {
      assert (values + [v])[1..] == values[1..] + [v];
      ClimbTotalSnoc(values[1..], v);
    }
  }

  /** The total and the remembered report of one counter, against all its reports so far. */
  predicate Charged(u: Usage, k: Key, reports: seq<nat>) {
    && u.totals.Get(k) == ClimbTotal(reports)
    && Lookup(u.previous, k) == if reports == [] then 0 else reports[|reports| - 1]
  }

  function ReportsOf(reports: seq<nat>, e: Event, k: Key): seq<nat> {
    if k in e.current then reports + [Clamp(e.current[k])] else reports
  }

  lemma ApplyCharges(u: Usage, e: Event, k: Key, reports: seq<nat>)
    requires Charged(u, k, reports)
    ensures Charged(Apply(u, e), k, ReportsOf(reports, e, k))
  {
    ApplyCounter(u, e, k);
    CounterCharged(u, e, k, reports, Apply(u, e));
  }

  lemma CounterCharged(u: Usage, e: Event, k: Key, reports: seq<nat>, after: Usage)
    requires Charged(u, k, reports)
    requires after.totals.Get(k) == u.totals.Get(k) + Growth(u.previous, e.current, k)
    requires Lookup(after.previous, k) == if k in e.current then Clamp(e.current[k]) else Lookup(u.previous, k)
    ensures Charged(after, k, ReportsOf(reports, e, k))
  {
    if k in e.current {
      ClimbTotalSnoc(reports, Clamp(e.current[k]));
    }
  }

  /** What one event does to one counter and to the report remembered of it. */
  lemma ApplyCounter(u: Usage, e: Event, k: Key)
    ensures Apply(u, e).totals.Get(k) == u.totals.Get(k) + Growth(u.previous, e.current, k)
    ensures Lookup(Apply(u, e).previous, k) == if k in e.current then Clamp(e.current[k]) else Lookup(u.previous, k)
  {}

  /** Each total is the climb total of that counter, over any event sequence. */
  lemma {:induction false} TotalsAreClimbTotals(events: seq<Event>, k: Key)
    ensures Charged(ApplyAll(EMPTY, events), k, Reports(events, k))
  {
    if events == [] {
      assert EMPTY.totals.Get(k) == 0;
    } else {
      var front, e := events[..|events| - 1], events[|events| - 1];
      TotalsAreClimbTotals(front, k);
      ApplyCharges(ApplyAll(EMPTY, front), e, k, Reports(front, k));
    }
  }

  // ---------------------------------------------------------------- days add up

  ghost function DayTotal(daily: map<string, Counts>, k: Key): int {
    if daily == map[] then 0
    else
      var d :| d in daily;
      daily[d].Get(k) + DayTotal(daily - {d}, k)
  }

  /** The choice of day in `DayTotal` does not matter. */
  lemma {:induction false} DayTotalPick(daily: map<string, Counts>, k: Key, d: string)
    requires d in daily
    ensures DayTotal(daily, k) == daily[d].Get(k) + DayTotal(daily - {d}, k)
    decreases |daily|
  {
    var c :| c in daily && DayTotal(daily, k) == daily[c].Get(k) + DayTotal(daily - {c}, k);
    if c != d {
      assert |daily - {c}| < |daily| by { SmallerMap(daily, c); }
      assert |daily - {d}| < |daily| by { SmallerMap(daily, d); }
      DayTotalPick(daily - {c}, k, d);
      DayTotalPick(daily - {d}, k, c);
      assert daily - {c} - {d} == daily - {d} - {c};
    }
  }

  lemma SmallerMap(daily: map<string, Counts>, d: string)
    requires d in daily
    ensures |daily - {d}| < |daily|
  {}

  lemma DayTotalAdd(daily: map<string, Counts>, k: Key, d: string, more: Counts)
    ensures DayTotal(daily[d := OnDay(daily, d).Plus(more)], k) == DayTotal(daily, k) + more.Get(k)
  {
    var grown := daily[d := OnDay(daily, d).Plus(more)];
    DayTotalPick(grown, k, d);
    if d in daily {
      DayTotalPick(daily, k, d);
    }
    assert grown - {d} == daily - {d};
    if d !in daily {
      assert daily - {d} == daily;
    }
  }

  ghost predicate DaysAddUp(u: Usage) {
    forall k: Key :: DayTotal(u.daily, k) == u.totals.Get(k)
  }

  lemma ApplyKeepsDays(u: Usage, e: Event)
    requires DaysAddUp(u)
    ensures DaysAddUp(Apply(u, e))
  {
    forall k: Key ensures DayTotal(Apply(u, e).daily, k) == Apply(u, e).totals.Get(k) {
      DayTotalAdd(u.daily, k, e.day, Delta(u.previous, e.current));
    }
  }

  ghost predicate NonNegative(u: Usage, k: Key) {
    u.totals.Get(k) >= 0 && forall d :: d in u.daily ==> u.daily[d].Get(k) >= 0
  }

  /** No counter of a reachable state, in total or per day, is ever negative. */
  lemma CountsNonNegative(lines: seq<Bytes>, parse: Parser, k: Key)
    ensures Fold(EMPTY, lines, parse).Some? ==> NonNegative(Fold(EMPTY, lines, parse).value, k)
  {
    assert EMPTY.totals.Get(k) == 0;
    FoldIsApplyAll(lines, parse);
    EventsNonNegative(EMPTY, Events(lines, parse), k);
  }

  lemma {:induction false} EventsNonNegative(u: Usage, events: seq<Event>, k: Key)
    requires NonNegative(u, k)
    ensures NonNegative(ApplyAll(u, events), k)
  {
    if events != [] {
      EventsNonNegative(u, events[..|events| - 1], k);
      ApplyNonNegative(ApplyAll(u, events[..|events| - 1]), events[|events| - 1], k);
    }
  }

  lemma ApplyNonNegative(u: Usage, e: Event, k: Key)
    requires NonNegative(u, k)
    ensures NonNegative(Apply(u, e), k)
  {
    var more := Delta(u.previous, e.current);
    assert OnDay(u.daily, e.day).Plus(more).Get(k) == OnDay(u.daily, e.day).Get(k) + more.Get(k);
  }

  /** In every state a scan can reach, the per-day counts sum to the totals. */
  lemma ScannedDaysAddUp(lines: seq<Bytes>, parse: Parser)
    ensures Fold(EMPTY, lines, parse).Some? ==> DaysAddUp(Fold(EMPTY, lines, parse).value)
  {
    assert forall k: Key :: EMPTY.totals.Get(k) == 0;
    FoldIsApplyAll(lines, parse);
    EventsKeepDays(EMPTY, Events(lines, parse));
  }

  lemma {:induction false} EventsKeepDays(u: Usage, events: seq<Event>)
    requires DaysAddUp(u)
    ensures DaysAddUp(ApplyAll(u, events))
  {
    if events != [] {
      EventsKeepDays(u, events[..|events| - 1]);
      ApplyKeepsDays(ApplyAll(u, events[..|events| - 1]), events[|events| - 1]);
    }
  }

  /** The counter accounting of a whole file, as the reader publishes it. */
  lemma PublishedCounters(content: Bytes, parse: Parser, k: Key)
    requires parse([]) == Ignored
    requires forall l :: l in Segments(content) ==> parse(l) != Throws
    ensures Committed(content, parse).Some?
    ensures View(Committed(content, parse).value, Tail(content), parse).Some?
    ensures var u := View(Committed(content, parse).value, Tail(content), parse).value;
      && u.totals.Get(k) == ClimbTotal(Reports(Events(Segments(content), parse), k))
      && DayTotal(u.daily, k) == u.totals.Get(k)
  {
    ViewIsNaiveReading(content, parse);
    FoldIsApplyAll(Segments(content), parse);
    TotalsAreClimbTotals(Events(Segments(content), parse), k);
    ScannedDaysAddUp(Segments(content), parse);
  }

  // ---------------------------------------------------------------- which day is charged

  /** What the events of one day add to the climb total of a counter. */
  function DaySum(events: seq<Event>, k: Key, day: string): int {
    if events == [] then 0
    else
      var front, last := events[..|events| - 1], events[|events| - 1];
      DaySum(front, k, day)
      + if last.day == day then ClimbTotal(Reports(events, k)) - ClimbTotal(Reports(front, k)) else 0
  }

  lemma ApplyDay(u: Usage, e: Event, k: Key, day: string)
    ensures var after := Apply(u, e);
      && OnDay(after.daily, day).Get(k)
         == OnDay(u.daily, day).Get(k) + (if e.day == day then after.totals.Get(k) - u.totals.Get(k) else 0)
      && (day in after.daily <==> day in u.daily || e.day == day)
  {
    ApplyCounter(u, e, k);
  }

  /** A day's record holds what its own events added, and there is a record for each day with an event. */
  lemma {:induction false} DaysChargedByEvents(events: seq<Event>, k: Key, day: string)
    ensures OnDay(ApplyAll(EMPTY, events).daily, day).Get(k) == DaySum(events, k, day)
    ensures day in ApplyAll(EMPTY, events).daily <==> exists i :: 0 <= i < |events| && events[i].day == day
  {
    if events == [] {
      assert ZERO.Get(k) == 0;
    } else {
      var front, last := events[..|events| - 1], events[|events| - 1];
      DaysChargedByEvents(front, k, day);
      TotalsAreClimbTotals(front, k);
      TotalsAreClimbTotals(events, k);
      ApplyDay(ApplyAll(EMPTY, front), last, k, day);
      FrontLast(events);
    }
  }

  /** The same of what is published of a file. */
  lemma PublishedDays(content: Bytes, parse: Parser, s: Snapshot, k: Key, day: string)
    requires parse([]) == Ignored && FullScan(content, parse) == Some(s)
    ensures OnDay(s.daily, day).Get(k) == DaySum(Events(Segments(content), parse), k, day)
  {
    ViewIsNaiveReading(content, parse);
    FoldIsApplyAll(Segments(content), parse);
    DaysChargedByEvents(Events(Segments(content), parse), k, day);
  }

  // ---------------------------------------------------------------- a line that throws

  /** The line `null`: valid JSON, and no object to inspect. */
  const NULL_LINE: Bytes := [110, 117, 108, 108]

  lemma NullText()
    ensures |NULL_LINE| == 4 && forall i :: 0 <= i < 4 ==> NULL_LINE[i] as int == "null"[i] as int
  {}

  /** A report that is negative counts as zero. */
  lemma ClampText(n: int)
    ensures Clamp(n) == if n <= 0 then 0 else n
  {}

  /** One complete `null` line, wherever it stands, makes the file and every later version unreadable. */
  lemma NullLineIsPermanent(before: Bytes, more: Bytes, parse: Parser)
    requires parse(NULL_LINE) == Throws
    ensures Committed(before + [NEWLINE] + NULL_LINE + [NEWLINE] + more, parse).None?
    ensures Committed(NULL_LINE + [NEWLINE] + more, parse).None?
  {
    AppendNewline(before);
    NullLineThrows(before + [NEWLINE], parse);
    ThrowingLineIsPermanent(before + [NEWLINE] + NULL_LINE + [NEWLINE], more, parse);
    NullLineThrows([], parse);
    EmptyConcat(NULL_LINE);
    ThrowingLineIsPermanent(NULL_LINE + [NEWLINE], more, parse);
  }

  lemma NullLineThrows(before: Bytes, parse: Parser)
    requires parse(NULL_LINE) == Throws && Tail(before) == []
    ensures Committed(before + NULL_LINE + [NEWLINE], parse).None?
  {
    AppendPlain(before, NULL_LINE);
    EmptyConcat(NULL_LINE);
    AppendNewline(before + NULL_LINE);
    var lines := Complete(before + NULL_LINE + [NEWLINE]);
    assert lines[|lines| - 1] == NULL_LINE;
    FoldIsApplyAll(lines, parse);
  }
}
