/**
 Merging the per-file summaries into one report (`buildCodexUsage` in
 ia-bridge/usage.js): totals, days, counts, samples and latest snapshots.
 */
module UsageMerge {
  import opened Common
  import opened SessionLines
  import opened UsageFold
  import opened UsageAccounting
  import opened Folds

  datatype Report = Report(
    totals: Counts,
    daily: map<string, Counts>,
    sessions: nat,
    events: nat,
    samples: seq<Candidate>,
    latest: Option<Candidate>,
    latestRate: Option<Candidate>,
    latestPlan: Option<Candidate>,
    latestCredit: Option<Candidate>)

  const NOTHING: Report := Report(ZERO, map[], 0, 0, [], None, None, None, None)

  function MergeDays(a: map<string, Counts>, b: map<string, Counts>): map<string, Counts> {
    a + map d | d in b :: OnDay(a, d).Plus(b[d])
  }

  /** The first summary to carry the latest timestamp wins. */
  function Latest(current: Option<Candidate>, next: Option<Candidate>): Option<Candidate> {
    if current.None? || (next.Some? && next.value.timestamp > current.value.timestamp)
    then (if next.Some? then next else current)
    else current
  }

  /** Of each record `addTokens` takes what is positive. */
  function Positives(daily: map<string, Counts>): map<string, Counts> { map d | d in daily :: daily[d].Positive() }

  function Taken(s: Snapshot): Snapshot { s.(totals := s.totals.Positive(), daily := Positives(s.daily)) }

  function AddSummary(r: Report, s: Snapshot): Report {
    Report(r.totals.Plus(s.totals), MergeDays(r.daily, s.daily), r.sessions + s.sessions, r.events + s.events,
           r.samples + s.rates, Latest(r.latest, s.latest), Latest(r.latestRate, s.latestRate),
           Latest(r.latestPlan, s.latestPlan), Latest(r.latestCredit, s.latestCredit))
  }

  function Merge(summaries: seq<Snapshot>): Report {
    if summaries == [] then NOTHING
    else AddSummary(Merge(summaries[..|summaries| - 1]), Taken(summaries[|summaries| - 1]))
  }

  // ---------------------------------------------------------------- the loops

  lemma MergeOneDay(a: map<string, Counts>, b: map<string, Counts>, d: string, more: Counts)
    requires d !in b
    ensures MergeDays(a, b[d := more]) == MergeDays(a, b)[d := OnDay(MergeDays(a, b), d).Plus(more)]
  {
    assert OnDay(MergeDays(a, b), d) == OnDay(a, d);
  }

  lemma MergeNext(a: map<string, Counts>, b: map<string, Counts>, todo: set<string>, d: string)
    requires d in todo && todo <= b.Keys
    ensures MergeDays(a, b - (todo - {d}))
         == (var merged := MergeDays(a, b - todo); merged[d := OnDay(merged, d).Plus(b[d])])
  {
    MergeOneDay(a, b - todo, d, b[d]);
    assert b - (todo - {d}) == (b - todo)[d := b[d]];
  }

  lemma MergeEnds(a: map<string, Counts>, b: map<string, Counts>)
    ensures MergeDays(a, b - b.Keys) == a
    ensures MergeDays(a, b - {}) == MergeDays(a, b)
  {
    assert b - {} == b;
  }

  /** The inner loop over one summary's days, in whatever order the map yields them. */
  method AddDays(daily: map<string, Counts>, more: map<string, Counts>) returns (merged: map<string, Counts>)
    ensures merged == MergeDays(daily, Positives(more))
  {
    merged := daily;
    var todo := more.Keys;
    ghost var taken := Positives(more);
    MergeEnds(daily, taken);
    while todo != {}
      invariant todo <= taken.Keys
      invariant merged == MergeDays(daily, taken - todo)
      decreases todo
    {
      var day :| day in todo;
      MergeNext(daily, taken, todo, day);
      var dayUsage := OnDay(merged, day);
      merged := merged[day := dayUsage.Plus(more[day].Positive())];
      todo := todo - {day};
    }
  }

  /** The summaries that exist, in order. */
  function Present(summaries: seq<Option<Snapshot>>): seq<Snapshot> {
    if summaries == [] then []
    else
      var before := Present(summaries[..|summaries| - 1]);
      match summaries[|summaries| - 1]
      case None => before
      case Some(s) => before + [s]
  }

  lemma MergeSnoc(values: seq<Snapshot>, s: Snapshot)
    ensures Merge(values + [s]) == AddSummary(Merge(values), Taken(s))
  {
    assert (values + [s])[..|values|] == values;
  }

  /** `buildCodexUsage` up to the live overlay; missing summaries are skipped. */
  method Build(summaries: seq<Option<Snapshot>>) returns (r: Report)
    ensures r == Merge(Present(summaries))
  {
    r := NOTHING;
    for i := 0 to |summaries|
      invariant r == Merge(Present(summaries[..i]))
    {
      assert summaries[..i + 1][..i] == summaries[..i];
      if summaries[i].None? { continue; }
      var s := summaries[i].value;
      MergeSnoc(Present(summaries[..i]), s);
      var daily := AddDays(r.daily, s.daily);
      r := Report(
        r.totals.Plus(s.totals.Positive()), daily, r.sessions + s.sessions, r.events + s.events, r.samples + s.rates,
        Latest(r.latest, s.latest), Latest(r.latestRate, s.latestRate),
        Latest(r.latestPlan, s.latestPlan), Latest(r.latestCredit, s.latestCredit));
    }
    assert summaries[..|summaries|] == summaries;
  }

  // ---------------------------------------------------------------- days still add up

  lemma DayTotalStep(a: map<string, Counts>, b: map<string, Counts>, k: Key, d: string)
    requires d in b
    requires DayTotal(MergeDays(a, b - {d}), k) == DayTotal(a, k) + DayTotal(b - {d}, k)
    ensures DayTotal(MergeDays(a, b), k) == DayTotal(a, k) + DayTotal(b, k)
  {
    DayTotalPick(b, k, d);
    MergeOneDay(a, b - {d}, d, b[d]);
    assert b == (b - {d})[d := b[d]];
    DayTotalAdd(MergeDays(a, b - {d}), k, d, b[d]);
  }

  lemma {:induction false} DayTotalMerge(a: map<string, Counts>, b: map<string, Counts>, k: Key)
    ensures DayTotal(MergeDays(a, b), k) == DayTotal(a, k) + DayTotal(b, k)
    decreases |b|
  {
    if b == map[] {
      assert MergeDays(a, b) == a;
    } else {
      var d :| d in b;
      SmallerMap(b, d);
      DayTotalMerge(a, b - {d}, k);
      DayTotalStep(a, b, k, d);
    }
  }

  /** If what is taken of every summary's days adds up to what is taken of its totals, so do the merged days. */
  lemma {:induction false} MergedDaysAddUp(summaries: seq<Snapshot>, k: Key)
    requires forall s :: s in summaries ==> DayTotal(Taken(s).daily, k) == Taken(s).totals.Get(k)
    ensures DayTotal(Merge(summaries).daily, k) == Merge(summaries).totals.Get(k)
  {
    if summaries == [] {
      assert NOTHING.totals.Get(k) == 0;
    } else {
      var front, last := summaries[..|summaries| - 1], summaries[|summaries| - 1];
      MergedDaysAddUp(front, k);
      DayTotalMerge(Merge(front).daily, Taken(last).daily, k);
    }
  }

  // ---------------------------------------------------------------- the report over scanned files

  lemma PositiveIsAll(c: Counts)
    requires forall k: Key :: c.Get(k) >= 0
    ensures c.Positive() == c
  {
    assert c.Get(Input) >= 0 && c.Get(CachedInput) >= 0 && c.Get(Output) >= 0;
    assert c.Get(ReasoningOutput) >= 0 && c.Get(TotalTokens) >= 0;
  }

  /** Of a scanned summary everything is taken. */
  lemma ScannedIsTaken(content: Bytes, parse: Parser, s: Snapshot)
    requires parse([]) == Ignored && FullScan(content, parse) == Some(s)
    ensures Taken(s) == s
  {
    ViewIsNaiveReading(content, parse);
    forall k: Key ensures s.totals.Get(k) >= 0 {
      CountsNonNegative(Segments(content), parse, k);
    }
    PositiveIsAll(s.totals);
    forall d | d in s.daily ensures s.daily[d].Positive() == s.daily[d] {
      forall k: Key ensures s.daily[d].Get(k) >= 0 {
        CountsNonNegative(Segments(content), parse, k);
      }
      PositiveIsAll(s.daily[d]);
    }
    assert Positives(s.daily) == s.daily;
  }

  /** The climb totals of one counter over some files. */
  function ClimbSum(contents: seq<Bytes>, parse: Parser, k: Key): int {
    if contents == [] then 0
    else
      ClimbSum(contents[..|contents| - 1], parse, k)
      + ClimbTotal(Reports(Events(Segments(contents[|contents| - 1]), parse), k))
  }

  /** A summary accounts for one counter of a file. */
  ghost predicate Accounts(s: Snapshot, content: Bytes, parse: Parser, k: Key) {
    && Taken(s) == s
    && s.totals.Get(k) == ClimbTotal(Reports(Events(Segments(content), parse), k))
    && DayTotal(s.daily, k) == s.totals.Get(k)
  }

  lemma ScanAccounts(content: Bytes, parse: Parser, s: Snapshot, k: Key)
    requires parse([]) == Ignored && FullScan(content, parse) == Some(s)
    ensures Accounts(s, content, parse, k)
  {
    ScannedIsTaken(content, parse, s);
    ViewIsNaiveReading(content, parse);
    FoldIsApplyAll(Segments(content), parse);
    PublishedCounters(content, parse, k);
  }

  lemma ReportStep(r: Report, s: Snapshot, k: Key)
    requires Taken(s) == s
    ensures var next := AddSummary(r, Taken(s));
      && next.totals.Get(k) == r.totals.Get(k) + s.totals.Get(k)
      && DayTotal(next.daily, k) == DayTotal(r.daily, k) + DayTotal(s.daily, k)
  {
    DayTotalMerge(r.daily, s.daily, k);
  }

  lemma {:induction false} AccountsAdd(contents: seq<Bytes>, summaries: seq<Snapshot>, parse: Parser, k: Key)
    requires |contents| == |summaries|
    requires forall i :: 0 <= i < |contents| ==> Accounts(summaries[i], contents[i], parse, k)
    ensures Merge(summaries).totals.Get(k) == ClimbSum(contents, parse, k)
    ensures DayTotal(Merge(summaries).daily, k) == Merge(summaries).totals.Get(k)
  {
    if contents == [] {
      assert NOTHING.totals.Get(k) == 0;
    } else {
      var n := |contents| - 1;
      AccountsAdd(contents[..n], summaries[..n], parse, k);
      ReportStep(Merge(summaries[..n]), summaries[n], k);
    }
  }

  /**
   The report over the scans of some files: every total is the sum of the climbs that the files
   report, and the days add up to it.
   */
  lemma ReportOfScans(contents: seq<Bytes>, summaries: seq<Snapshot>, parse: Parser, k: Key)
    requires parse([]) == Ignored && |contents| == |summaries|
    requires forall i :: 0 <= i < |contents| ==> FullScan(contents[i], parse) == Some(summaries[i])
    ensures Merge(summaries).totals.Get(k) == ClimbSum(contents, parse, k)
    ensures DayTotal(Merge(summaries).daily, k) == Merge(summaries).totals.Get(k)
  {
    forall i | 0 <= i < |contents| ensures Accounts(summaries[i], contents[i], parse, k) {
      ScanAccounts(contents[i], parse, summaries[i], k);
    }
    AccountsAdd(contents, summaries, parse, k);
  }

  /** What a report counts of some files. */
  function EventSum(summaries: seq<Snapshot>): nat {
    if summaries == [] then 0 else EventSum(summaries[..|summaries| - 1]) + summaries[|summaries| - 1].events
  }

  function SessionSum(summaries: seq<Snapshot>): nat {
    if summaries == [] then 0 else SessionSum(summaries[..|summaries| - 1]) + summaries[|summaries| - 1].sessions
  }

  function AllRates(summaries: seq<Snapshot>): seq<Candidate> {
    if summaries == [] then [] else AllRates(summaries[..|summaries| - 1]) + summaries[|summaries| - 1].rates
  }

  /** Events and sessions add up, and the samples follow one another in the order of the files. */
  lemma {:induction false} ReportCounts(summaries: seq<Snapshot>)
    ensures var r := Merge(summaries);
      r.events == EventSum(summaries) && r.sessions == SessionSum(summaries) && r.samples == AllRates(summaries)
  {
    if summaries != [] {
      ReportCounts(summaries[..|summaries| - 1]);
    }
  }

  // ---------------------------------------------------------------- the order of files does not matter

  /**
   What of a report, seen at one counter and one day, cannot depend on the order
   of the files: among equally late snapshots only the timestamp is determined.
   */
  datatype Digest = Digest(
    total: int,
    reported: bool,
    dayCount: int,
    sessions: nat,
    events: nat,
    samples: multiset<Candidate>,
    latest: Option<int>,
    latestRate: Option<int>,
    latestPlan: Option<int>,
    latestCredit: Option<int>)

  ghost function Time(c: Option<Candidate>): Option<int> { if c.None? then None else Some(c.value.timestamp) }

  ghost function DigestOf(r: Report, k: Key, day: string): Digest {
    Digest(r.totals.Get(k), day in r.daily, OnDay(r.daily, day).Get(k), r.sessions, r.events, multiset(r.samples),
           Time(r.latest), Time(r.latestRate), Time(r.latestPlan), Time(r.latestCredit))
  }

  ghost function LaterTime(a: Option<int>, b: Option<int>): Option<int> {
    if a.None? then b else if b.Some? && b.value > a.value then b else a
  }

  ghost function AddDigest(d: Digest, s: Snapshot, k: Key, day: string): Digest {
    Digest(d.total + s.totals.Get(k), d.reported || day in s.daily, d.dayCount + OnDay(s.daily, day).Get(k),
           d.sessions + s.sessions, d.events + s.events, d.samples + multiset(s.rates),
           LaterTime(d.latest, Time(s.latest)), LaterTime(d.latestRate, Time(s.latestRate)),
           LaterTime(d.latestPlan, Time(s.latestPlan)), LaterTime(d.latestCredit, Time(s.latestCredit)))
  }

  lemma OnMergedDay(a: map<string, Counts>, b: map<string, Counts>, day: string, k: Key)
    ensures OnDay(MergeDays(a, b), day).Get(k) == OnDay(a, day).Get(k) + OnDay(b, day).Get(k)
    ensures day in MergeDays(a, b) <==> day in a || day in b
  {
    assert ZERO.Get(k) == 0;
  }

  lemma DigestStep(r: Report, s: Snapshot, k: Key, day: string)
    ensures DigestOf(AddSummary(r, s), k, day) == AddDigest(DigestOf(r, k, day), s, k, day)
  {
    OnMergedDay(r.daily, s.daily, day, k);
  }

  lemma AddDigestCommutes(d: Digest, s: Snapshot, t: Snapshot, k: Key, day: string)
    ensures AddDigest(AddDigest(d, s, k, day), t, k, day) == AddDigest(AddDigest(d, t, k, day), s, k, day)
  {}

  ghost function Adder(k: Key, day: string): (Digest, Snapshot) -> Digest {
    (d: Digest, s: Snapshot) => AddDigest(d, Taken(s), k, day)
  }

  lemma {:induction false} DigestIsFold(summaries: seq<Snapshot>, k: Key, day: string)
    ensures DigestOf(Merge(summaries), k, day)
         == FoldLeft(Adder(k, day), DigestOf(NOTHING, k, day), summaries)
  {
    if summaries != [] {
      var front, last := summaries[..|summaries| - 1], summaries[|summaries| - 1];
      DigestIsFold(front, k, day);
      DigestStep(Merge(front), Taken(last), k, day);
    }
  }

  /** Totals, days, counts, samples and latest timestamps do not depend on the order of the files. */
  lemma OrderIrrelevant(a: seq<Snapshot>, b: seq<Snapshot>, k: Key, day: string)
    requires multiset(a) == multiset(b)
    ensures DigestOf(Merge(a), k, day) == DigestOf(Merge(b), k, day)
  {
    var f := Adder(k, day);
    forall d, s, t ensures f(f(d, s), t) == f(f(d, t), s) {
      AddDigestCommutes(d, Taken(s), Taken(t), k, day);
    }
    FoldPermutes(f, DigestOf(NOTHING, k, day), a, b);
    DigestIsFold(a, k, day);
    DigestIsFold(b, k, day);
  }
}
