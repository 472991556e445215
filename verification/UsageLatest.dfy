/**
 Which events a scan remembers: the latest of each sort, the first of equally late ones, how many
 there were, and the rate samples in order.
 */
module UsageLatest {
  import opened Common
  import opened SessionLines
  import opened UsageFold
  import opened UsageAccounting
  import opened Folds
  import M = UsageMerge

  function Seen(e: Event): Candidate { Candidate(e.timestamp, e.rate) }

  /** The i-th event is the first of those that are latest. */
  ghost predicate FirstOfLatest(events: seq<Event>, of: Event -> bool, i: int) {
    && 0 <= i < |events| && of(events[i])
    && forall j :: 0 <= j < |events| && of(events[j]) ==>
         events[j].timestamp <= events[i].timestamp && (j < i ==> events[j].timestamp < events[i].timestamp)
  }

  /** What is remembered of the events of a sort: nothing if there are none, else the first latest one. */
  ghost predicate Remembers(latest: Option<Candidate>, events: seq<Event>, of: Event -> bool) {
    match latest
    case None => forall i :: 0 <= i < |events| ==> !of(events[i])
    case Some(c) => exists i :: FirstOfLatest(events, of, i) && c == Seen(events[i])
  }

  lemma StillFirst(events: seq<Event>, of: Event -> bool, i: int, e: Event)
    requires FirstOfLatest(events, of, i) && (of(e) ==> e.timestamp <= events[i].timestamp)
    ensures FirstOfLatest(events + [e], of, i) && (events + [e])[i] == events[i]
  {}

  lemma NewerRemembers(latest: Option<Candidate>, events: seq<Event>, of: Event -> bool, e: Event)
    requires Remembers(latest, events, of)
    ensures Remembers(if of(e) then Newer(latest, Seen(e)) else latest, events + [e], of)
  {
    var more := events + [e];
    if latest.Some? {
      var i :| FirstOfLatest(events, of, i) && latest.value == Seen(events[i]);
      if of(e) && e.timestamp > events[i].timestamp {
        assert FirstOfLatest(more, of, |events|) && more[|events|] == e;
      } else {
        StillFirst(events, of, i, e);
      }
    } else if of(e) {
      assert FirstOfLatest(more, of, |events|) && more[|events|] == e;
    }
  }

  function Any(): Event -> bool { (e: Event) => true }
  function Primary(): Event -> bool { (e: Event) => e.rate.primary }
  function Plan(): Event -> bool { (e: Event) => e.rate.plan }
  function Credits(): Event -> bool { (e: Event) => e.rate.credits }

  ghost predicate RemembersAll(u: Usage, events: seq<Event>) {
    && Remembers(u.latest, events, Any())
    && Remembers(u.latestRate, events, Primary())
    && Remembers(u.latestPlan, events, Plan())
    && Remembers(u.latestCredit, events, Credits())
    && u.events == |events|
  }

  lemma ApplyRemembers(u: Usage, front: seq<Event>, e: Event, events: seq<Event>)
    requires RemembersAll(u, front) && events == front + [e]
    ensures RemembersAll(Apply(u, e), events)
  {
    NewerRemembers(u.latest, front, Any(), e);
    NewerRemembers(u.latestRate, front, Primary(), e);
    NewerRemembers(u.latestPlan, front, Plan(), e);
    NewerRemembers(u.latestCredit, front, Credits(), e);
  }

  /**
   After any events each snapshot is that of the first of the latest events that carry it, and the
   events are counted.
   */
  lemma LatestRemembered(events: seq<Event>)
    ensures RemembersAll(ApplyAll(EMPTY, events), events)
  {
    RemembersFrom(EMPTY, events);
  }

  lemma {:induction false} RemembersFrom(start: Usage, events: seq<Event>)
    requires RemembersAll(start, [])
    ensures RemembersAll(ApplyAll(start, events), events)
  {
    if events != [] {
      var front, last := events[..|events| - 1], events[|events| - 1];
      FrontLast(events);
      RemembersFrom(start, front);
      ApplyRemembers(ApplyAll(start, front), front, last, events);
    }
  }

  /** Some candidates are those of the events of a sort, each once and in order. */
  ghost predicate Lists(rates: seq<Candidate>, at: seq<int>, events: seq<Event>, of: Event -> bool) {
    && Picks(at, events, of)
    && |rates| == |at| && forall k :: 0 <= k < |at| ==> rates[k] == Seen(events[at[k]])
  }

  lemma ApplyLists(u: Usage, at: seq<int>, front: seq<Event>, e: Event, events: seq<Event>) returns (more: seq<int>)
    requires Lists(u.rates, at, front, Primary()) && events == front + [e]
    ensures Lists(Apply(u, e).rates, more, events, Primary())
  {
    more := PicksSnoc(at, front, Primary(), e);
  }

  /** The rate samples are the primary events, each once and in order. */
  lemma RatesInOrder(events: seq<Event>) returns (at: seq<int>)
    ensures Lists(ApplyAll(EMPTY, events).rates, at, events, Primary())
  {
    at := ListsFrom(EMPTY, events);
  }

  lemma {:induction false} ListsFrom(start: Usage, events: seq<Event>) returns (at: seq<int>)
    requires start.rates == []
    ensures Lists(ApplyAll(start, events).rates, at, events, Primary())
  {
    at := [];
    if events != [] {
      var front, last := events[..|events| - 1], events[|events| - 1];
      FrontLast(events);
      at := ListsFrom(start, front);
      at := ApplyLists(ApplyAll(start, front), at, front, last, events);
    }
  }

  /** What a reader publishes of a file, tail included, comes from the file's token events like that. */
  lemma PublishedLatest(content: Bytes, parse: Parser, s: Snapshot)
    requires parse([]) == Ignored && FullScan(content, parse) == Some(s)
    ensures var events := Events(Segments(content), parse);
      && Remembers(s.latest, events, Any())
      && Remembers(s.latestRate, events, Primary())
      && Remembers(s.latestPlan, events, Plan())
      && Remembers(s.latestCredit, events, Credits())
      && s.events == |events| && (s.sessions == if events == [] then 0 else 1)
  {
    ViewIsNaiveReading(content, parse);
    FoldIsApplyAll(Segments(content), parse);
    LatestRemembered(Events(Segments(content), parse));
  }

  // ---------------------------------------------------------------- the report over several files

  /** Of some snapshots, of which any may be missing, the first of the latest. */
  ghost predicate FirstOfSnapshots(options: seq<Option<Candidate>>, i: int) {
    && 0 <= i < |options| && options[i].Some?
    && forall j :: 0 <= j < |options| && options[j].Some? ==>
         && options[j].value.timestamp <= options[i].value.timestamp
         && (j < i ==> options[j].value.timestamp < options[i].value.timestamp)
  }

  ghost predicate Keeps(latest: Option<Candidate>, options: seq<Option<Candidate>>) {
    if latest.None? then forall i :: 0 <= i < |options| ==> options[i].None?
    else exists i :: FirstOfSnapshots(options, i) && options[i] == latest
  }

  lemma LatestKeeps(
    latest: Option<Candidate>, front: seq<Option<Candidate>>, next: Option<Candidate>, options: seq<Option<Candidate>>)
    requires Keeps(latest, front) && options == front + [next]
    ensures Keeps(M.Latest(latest, next), options)
  {
    if latest.Some? && !(next.Some? && next.value.timestamp > latest.value.timestamp) {
      var i :| FirstOfSnapshots(front, i) && front[i] == latest;
      assert FirstOfSnapshots(options, i) && options[i] == latest;
    } else if next.Some? {
      assert FirstOfSnapshots(options, |front|) && options[|front|] == next;
    }
  }

  function Map<S, T>(f: S -> T, s: seq<S>): seq<T> { seq(|s|, i requires 0 <= i < |s| => f(s[i])) }

  lemma MapSnoc<S, T>(f: S -> T, front: seq<S>, x: S)
    ensures Map(f, front + [x]) == Map(f, front) + [f(x)]
  {}

  function Latest(): Snapshot -> Option<Candidate> { (s: Snapshot) => s.latest }
  function LatestRate(): Snapshot -> Option<Candidate> { (s: Snapshot) => s.latestRate }
  function LatestPlan(): Snapshot -> Option<Candidate> { (s: Snapshot) => s.latestPlan }
  function LatestCredit(): Snapshot -> Option<Candidate> { (s: Snapshot) => s.latestCredit }

  ghost predicate KeepsAll(r: M.Report, summaries: seq<Snapshot>) {
    && Keeps(r.latest, Map(Latest(), summaries)) && Keeps(r.latestRate, Map(LatestRate(), summaries))
    && Keeps(r.latestPlan, Map(LatestPlan(), summaries)) && Keeps(r.latestCredit, Map(LatestCredit(), summaries))
  }

  lemma AddKeeps(r: M.Report, front: seq<Snapshot>, s: Snapshot, summaries: seq<Snapshot>)
    requires KeepsAll(r, front) && summaries == front + [s]
    ensures KeepsAll(M.AddSummary(r, M.Taken(s)), summaries)
  {
    MapSnoc(Latest(), front, s);
    MapSnoc(LatestRate(), front, s);
    MapSnoc(LatestPlan(), front, s);
    MapSnoc(LatestCredit(), front, s);
    LatestKeeps(r.latest, Map(Latest(), front), s.latest, Map(Latest(), summaries));
    LatestKeeps(r.latestRate, Map(LatestRate(), front), s.latestRate, Map(LatestRate(), summaries));
    LatestKeeps(r.latestPlan, Map(LatestPlan(), front), s.latestPlan, Map(LatestPlan(), summaries));
    LatestKeeps(r.latestCredit, Map(LatestCredit(), front), s.latestCredit, Map(LatestCredit(), summaries));
  }

  /** A report takes each snapshot from the first of the files whose snapshot is latest. */
  lemma {:induction false} MergeKeepsLatest(summaries: seq<Snapshot>)
    ensures KeepsAll(M.Merge(summaries), summaries)
  {
    if summaries != [] {
      var front, last := summaries[..|summaries| - 1], summaries[|summaries| - 1];
      FrontLast(summaries);
      MergeKeepsLatest(front);
      AddKeeps(M.Merge(front), front, last, summaries);
    }
  }
}
