/**
 Class `State` of scripts/host-observation/observer.py: a ring of recent events that drops
 repeated ids, per-source counters, source health and a jump-aware clock.

 The ghost field `offered` is everything that ever came in; the lemmas about `Observe` say what
 the bounded fields still know of it.
 */
module ObserverState {
  import opened Common

  const EVENTS := 64
  const SEEN := 256

  datatype Source = Docker | Systemd

  /** A dictionary with one entry for each source. */
  datatype PerSource<T> = PerSource(docker: T, systemd: T) {
    function Get(source: Source): T { if source.Docker? then docker else systemd }

    function Set(source: Source, value: T): PerSource<T> {
      if source.Docker? then PerSource(value, systemd) else PerSource(docker, value)
    }
  }

  datatype Event = Event(id: string, source: Source, data: string)

  /** A published event with its sequence number. */
  datatype Entry = Entry(event: Event, sequence: nat)

  datatype Health = Health(state: string, error: Option<string>)

  // ---------------------------------------------------------------- what is accepted

  /** The last `n` elements: a deque with `maxlen`. */
  function Last<T>(s: seq<T>, n: nat): seq<T> { if |s| <= n then s else s[|s| - n..] }

  /** `append` on a full deque drops the oldest element. */
  lemma LastSnoc<T>(s: seq<T>, x: T, n: nat)
    requires n > 0
    ensures Last(s + [x], n) == Last(Last(s, n) + [x], n)
  {}

  function Ids(events: seq<Event>): seq<string> { seq(|events|, i requires 0 <= i < |events| => events[i].id) }

  lemma IdsSnoc(events: seq<Event>, e: Event)
    ensures Ids(events + [e]) == Ids(events) + [e.id]
  {}

  /** An event is taken unless one of the last 256 accepted events had its id. */
  function Accept(accepted: seq<Event>, e: Event): seq<Event> {
    if e.id in Last(Ids(accepted), SEEN) then accepted else accepted + [e]
  }

  function AcceptAll(events: seq<Event>): seq<Event> {
    if events == [] then [] else Accept(AcceptAll(events[..|events| - 1]), events[|events| - 1])
  }

  lemma AcceptAllSnoc(events: seq<Event>, e: Event)
    ensures AcceptAll(events + [e]) == Accept(AcceptAll(events), e)
  {
    Drop(events, [e]);
  }

  /** Equal ids are more than 256 places apart. */
  ghost predicate Spread(accepted: seq<Event>) {
    forall i, j :: 0 <= i < j < |accepted| && accepted[i].id == accepted[j].id ==> j - i > SEEN
  }

  lemma AcceptSpreads(accepted: seq<Event>, e: Event)
    requires Spread(accepted)
    ensures Spread(Accept(accepted, e))
  {
    forall i | 0 <= i < |accepted| && |accepted| - i <= SEEN ensures accepted[i].id in Last(Ids(accepted), SEEN) {
      RecentId(accepted, i);
    }
  }

  lemma RecentId(accepted: seq<Event>, i: nat)
    requires i < |accepted| && |accepted| - i <= SEEN
    ensures accepted[i].id in Last(Ids(accepted), SEEN)
  {
    var recent := Last(Ids(accepted), SEEN);
    assert recent[|recent| - (|accepted| - i)] == accepted[i].id;
  }

  lemma RecentIsAccepted(accepted: seq<Event>, id: string) returns (i: nat)
    requires id in Last(Ids(accepted), SEEN)
    ensures i < |accepted| && accepted[i].id == id
  {
    var recent := Last(Ids(accepted), SEEN);
    var k :| 0 <= k < |recent| && recent[k] == id;
    i := |accepted| - |recent| + k;
  }

  /** Over every run an id is accepted again only after at least 256 other acceptances. */
  lemma {:induction false} RepeatsAreFarApart(events: seq<Event>)
    ensures Spread(AcceptAll(events))
  {
    if events != [] {
      RepeatsAreFarApart(events[..|events| - 1]);
      AcceptSpreads(AcceptAll(events[..|events| - 1]), events[|events| - 1]);
    }
  }

  /** The ids that the ring remembers are pairwise distinct. */
  lemma RecentIdsDistinct(accepted: seq<Event>, n: nat)
    requires Spread(accepted) && n <= SEEN
    ensures var recent := Last(Ids(accepted), n); forall i, j :: 0 <= i < j < |recent| ==> recent[i] != recent[j]
  {}

  /** No event is lost for good: an event whose id was not accepted among the last 256 is taken. */
  lemma {:induction false} FirstOccurrencesTaken(events: seq<Event>, k: nat)
    requires k < |events| && forall i :: 0 <= i < k ==> events[i].id != events[k].id
    ensures events[k] in AcceptAll(events)
  {
    var front, last := events[..|events| - 1], events[|events| - 1];
    if k < |front| {
      FirstOccurrencesTaken(front, k);
    } else {
      var taken := AcceptAll(front);
      if last.id in Last(Ids(taken), SEEN) {
        var i := RecentIsAccepted(taken, last.id);
        AcceptedCameIn(front, taken[i]);
      }
    }
  }

  lemma {:induction false} AcceptedCameIn(events: seq<Event>, e: Event)
    requires e in AcceptAll(events)
    ensures e in events
  {
    var front, last := events[..|events| - 1], events[|events| - 1];
    assert events == front + [last];
    if e in AcceptAll(front) {
      AcceptedCameIn(front, e);
    }
  }

  function Count(accepted: seq<Event>, source: Source): nat {
    if accepted == [] then 0
    else Count(accepted[..|accepted| - 1], source) + if accepted[|accepted| - 1].source == source then 1 else 0
  }

  lemma CountSnoc(accepted: seq<Event>, e: Event, source: Source)
    ensures Count(accepted + [e], source) == Count(accepted, source) + if e.source == source then 1 else 0
  {
    Drop(accepted, [e]);
  }

  lemma {:induction false} CountsSum(accepted: seq<Event>)
    ensures Count(accepted, Docker) + Count(accepted, Systemd) == |accepted|
  {
    if accepted != [] {
      CountsSum(accepted[..|accepted| - 1]);
    }
  }

  /** The published ring: the last accepted events, numbered from 1. */
  function Entries(accepted: seq<Event>): seq<Entry> {
    seq(|accepted|, i requires 0 <= i < |accepted| => Entry(accepted[i], i + 1))
  }

  lemma EntriesSnoc(accepted: seq<Event>, e: Event)
    ensures Entries(accepted + [e]) == Entries(accepted) + [Entry(e, |accepted| + 1)]
  {}

  // ---------------------------------------------------------------- the ring

  /** The fields that `add` touches. */
  datatype Ring = Ring(events: seq<Entry>, seen: seq<string>, sequence: nat, dropped: nat, counts: PerSource<nat>)

  const EMPTY := Ring([], [], 0, 0, PerSource(0, 0))

  function Offer(r: Ring, e: Event): Ring {
    if e.id in r.seen then r
    else Ring(
      Last(r.events + [Entry(e, r.sequence + 1)], EVENTS),
      Last(r.seen + [e.id], SEEN),
      r.sequence + 1,
      if |r.events| == EVENTS then r.dropped + 1 else r.dropped,
      r.counts.Set(e.source, r.counts.Get(e.source) + 1))
  }

  /** The ring after the first `n` events offered. */
  function Observe(offered: seq<Event>, n: nat): Ring
    requires n <= |offered|
  {
    if n == 0 then EMPTY else Offer(Observe(offered, n - 1), offered[n - 1])
  }

  lemma {:induction false} ObservePrefix(offered: seq<Event>, e: Event, n: nat)
    requires n <= |offered|
    ensures Observe(offered + [e], n) == Observe(offered, n)
  {
    if n > 0 {
      ObservePrefix(offered, e, n - 1);
    }
  }

  lemma ObserveSnoc(offered: seq<Event>, e: Event)
    ensures Observe(offered + [e], |offered + [e]|) == Offer(Observe(offered, |offered|), e)
  {
    ObservePrefix(offered, e, |offered|);
  }

  /** The bounded fields are what the accepted events leave in them. */
  ghost predicate RingOf(accepted: seq<Event>, r: Ring) {
    && r.sequence == |accepted|
    && r.events == Last(Entries(accepted), EVENTS)
    && r.seen == Last(Ids(accepted), SEEN)
    && r.sequence == r.dropped + |r.events|
    && r.counts == PerSource(Count(accepted, Docker), Count(accepted, Systemd))
  }

  lemma RingStep(accepted: seq<Event>, r: Ring, e: Event, accepted': seq<Event>, r': Ring)
    requires RingOf(accepted, r) && accepted' == Accept(accepted, e) && r' == Offer(r, e)
    ensures RingOf(accepted', r')
  {
    IdsSnoc(accepted, e);
    EntriesSnoc(accepted, e);
    LastSnoc(Ids(accepted), e.id, SEEN);
    LastSnoc(Entries(accepted), Entry(e, |accepted| + 1), EVENTS);
    CountSnoc(accepted, e, Docker);
    CountSnoc(accepted, e, Systemd);
  }

  /** After every run the ring holds exactly what the accepted events leave in it. */
  lemma {:induction false} RingHoldsAccepted(offered: seq<Event>, n: nat)
    requires n <= |offered|
    ensures RingOf(AcceptAll(offered[..n]), Observe(offered, n))
  {
    if n == 0 {
      RingStart(offered[..n]);
    } else {
      RingHoldsAccepted(offered, n - 1);
      FirstEvents(offered, n);
      RingNext(offered, n, offered[..n - 1], offered[..n]);
    }
  }

  lemma FirstEvents(offered: seq<Event>, n: nat)
    requires 0 < n <= |offered|
    ensures offered[..n] == offered[..n - 1] + [offered[n - 1]]
  {}

  lemma RingNext(offered: seq<Event>, n: nat, before: seq<Event>, now: seq<Event>)
    requires 0 < n <= |offered| && now == before + [offered[n - 1]]
    requires RingOf(AcceptAll(before), Observe(offered, n - 1))
    ensures RingOf(AcceptAll(now), Observe(offered, n))
  {
    var e := offered[n - 1];
    AcceptAllSnoc(before, e);
    RingStep(AcceptAll(before), Observe(offered, n - 1), e, AcceptAll(now), Observe(offered, n));
  }

  lemma RingStart(accepted: seq<Event>)
    requires accepted == []
    ensures RingOf(AcceptAll(accepted), EMPTY)
  {}

  /**
   The published ring is consecutive, ends at the sequence number and matches the ids seen, which
   are pairwise distinct; sequence, drops and counts add up.
   */
  ghost predicate Snapshot(r: Ring) {
    && |r.events| <= EVENTS && |r.seen| <= SEEN
    && r.sequence == r.dropped + |r.events| && (r.dropped > 0 ==> |r.events| == EVENTS)
    && r.counts.docker + r.counts.systemd == r.sequence
    && (forall i :: 0 <= i < |r.events| ==> r.events[i].sequence == r.sequence - |r.events| + i + 1)
    && |r.events| <= |r.seen|
    && (forall i :: 0 <= i < |r.events| ==> r.events[i].event.id == r.seen[|r.seen| - |r.events| + i])
    && (forall i, j :: 0 <= i < j < |r.seen| ==> r.seen[i] != r.seen[j])
  }

  /** Every reachable state is a consistent snapshot. */
  lemma SnapshotConsistent(offered: seq<Event>, n: nat)
    requires n <= |offered|
    ensures Snapshot(Observe(offered, n))
  {
    RingHoldsAccepted(offered, n);
    RepeatsAreFarApart(offered[..n]);
    RingShows(AcceptAll(offered[..n]), Observe(offered, n));
  }

  lemma RingShows(accepted: seq<Event>, r: Ring)
    requires RingOf(accepted, r) && Spread(accepted)
    ensures Snapshot(r)
  {
    RecentIdsDistinct(accepted, SEEN);
    CountsSum(accepted);
    forall i | 0 <= i < |r.events|
      ensures r.events[i].sequence == r.sequence - |r.events| + i + 1
      ensures r.events[i].event.id == r.seen[|r.seen| - |r.events| + i]
    {
      RingAligned(accepted, r, i);
    }
  }

  lemma RingAligned(accepted: seq<Event>, r: Ring, i: nat)
    requires RingOf(accepted, r) && i < |r.events|
    ensures |r.events| <= |r.seen|
    ensures var at := |accepted| - |r.events| + i;
      r.events[i] == Entry(accepted[at], at + 1) && r.seen[|r.seen| - |r.events| + i] == accepted[at].id
  {}

  /** The generation counts accepted events, clock jumps, faults and recoveries. */
  ghost predicate Generated(generation: nat, sequence: nat, jumps: nat, faults: PerSource<nat>, recoveries: nat) {
    generation == sequence + jumps + recoveries + faults.docker + faults.systemd
  }

  // ---------------------------------------------------------------- the clock

  /** The wall and monotonic time of a reading. */
  datatype Reading = Reading(wall: real, mono: real)

  predicate Jumped(before: Reading, now: Reading) {
    var drift := (now.wall - before.wall) - (now.mono - before.mono);
    drift > 1.0 || drift < -1.0
  }

  /** A jump leaves the clock uncertain for the 60 seconds after it. */
  ghost predicate ClockOf(jumps: seq<real>, previous: Option<Reading>, uncertainUntil: real) {
    && (previous.None? ==> jumps == [])
    && uncertainUntil == (if jumps == [] then 0.0 else jumps[|jumps| - 1] + 60.0)
    && forall i :: 0 <= i < |jumps| ==> jumps[i] + 60.0 <= uncertainUntil && jumps[i] <= previous.value.mono
  }

  lemma ClockStep(jumps: seq<real>, previous: Reading, uncertainUntil: real, now: Reading)
    requires ClockOf(jumps, Some(previous), uncertainUntil) && now.mono >= previous.mono
    ensures ClockOf(jumps, Some(now), uncertainUntil)
    ensures ClockOf(jumps + [now.mono], Some(now), now.mono + 60.0)
  {}

  lemma Started(offered: seq<Event>, jumps: seq<real>)
    requires offered == [] && jumps == []
    ensures Observe(offered, |offered|) == EMPTY && ClockOf(jumps, None, 0.0)
  {}

  // ---------------------------------------------------------------- the state

  class State {
    var events: seq<Entry>
    var seen: seq<string>
    var sources: PerSource<Health>
    var sequence: nat
    var dropped: nat
    var generation: nat
    var sourceEventCounts: PerSource<nat>
    var sourceFaultCounts: PerSource<nat>
    var clockPrevious: Option<Reading>
    var clockChangeCount: nat
    var clockUncertainUntil: real
    ghost var offered: seq<Event>
    ghost var recoveries: nat
    ghost var jumps: seq<real>

    function View(): Ring
      reads this`events, this`seen, this`sequence, this`dropped, this`sourceEventCounts
    {
      Ring(events, seen, sequence, dropped, sourceEventCounts)
    }

    ghost predicate ClockValid()
      reads this`clockPrevious, this`clockUncertainUntil, this`clockChangeCount, this`jumps
    {
      ClockOf(jumps, clockPrevious, clockUncertainUntil) && clockChangeCount == |jumps|
    }

    ghost predicate RingValid()
      reads this`events, this`seen, this`sequence, this`dropped, this`sourceEventCounts, this`offered
    {
      View() == Observe(offered, |offered|)
    }

    ghost predicate Valid()
      reads this
    {
      && RingValid() && ClockValid()
      && Generated(generation, sequence, clockChangeCount, sourceFaultCounts, recoveries)
    }

    constructor ()
      ensures Valid()
      ensures offered == [] && jumps == [] && generation == 0
      ensures sources == PerSource(Health("unknown", Some("starting")), Health("unknown", Some("starting")))
    {
      events, seen := [], [];
      sources := PerSource(Health("unknown", Some("starting")), Health("unknown", Some("starting")));
      sequence, dropped, generation := 0, 0, 0;
      sourceEventCounts := PerSource(0, 0);
      sourceFaultCounts := PerSource(0, 0);
      clockPrevious, clockChangeCount, clockUncertainUntil := None, 0, 0.0;
      offered, recoveries, jumps := [], 0, [];
      new;
      Started(offered, jumps);
      assert RingValid();
      assert ClockValid();
    }

    method Add(event: Option<Event>)
      requires Valid()
      modifies this`events, this`seen, this`sequence, this`dropped, this`sourceEventCounts
      modifies this`generation, this`offered
      ensures Valid()
      ensures offered == if event.None? then old(offered) else old(offered) + [event.value]
      ensures generation - old(generation) == sequence - old(sequence)
    {
      if event.None? { return; }
      var e := event.value;
      ghost var before := View();
      ObserveSnoc(offered, e);
      offered := offered + [e];
      if e.id in seen { return; }
      Append(e);
      generation := generation + 1;
      assert View() == Offer(before, e);
    }

    /** The ring's part of `add`, for an id that is not among those seen. */
    method Append(e: Event)
      requires e.id !in seen
      modifies this`events, this`seen, this`sequence, this`dropped, this`sourceEventCounts
      ensures View() == Offer(old(View()), e) && sequence == old(sequence) + 1
    {
      seen := Last(seen + [e.id], SEEN);
      sequence := sequence + 1;
      sourceEventCounts := sourceEventCounts.Set(e.source, sourceEventCounts.Get(e.source) + 1);
      if |events| == EVENTS { dropped := dropped + 1; }
      events := Last(events + [Entry(e, sequence)], EVENTS);
    }

    method SetHealth(source: Source, state: string, error: Option<string>)
      requires Valid()
      modifies this`sources, this`sourceFaultCounts, this`generation, this`recoveries
      ensures Valid()
      ensures sources == old(sources).Set(source, Health(state, error))
      ensures var changed := old(sources).Get(source) != Health(state, error);
        && generation == old(generation) + (if changed then 1 else 0)
        && sourceFaultCounts == old(sourceFaultCounts).Set(
             source, old(sourceFaultCounts).Get(source) + if changed && state != "connected" then 1 else 0)
    {
      var value := Health(state, error);
      if sources.Get(source) != value {
        if state != "connected" {
          sourceFaultCounts := sourceFaultCounts.Set(source, sourceFaultCounts.Get(source) + 1);
        } else {
          recoveries := recoveries + 1;
        }
        sources := sources.Set(source, value);
        generation := generation + 1;
      }
    }

    /**
     A reading that steps back on the monotonic clock is ignored; one that drifts by more than a
     second from the last is a jump, and makes the clock uncertain for 60 seconds.
     */
    method Clock(wall: real, mono: real) returns (certain: bool)
      requires Valid()
      modifies this`clockPrevious, this`clockChangeCount, this`clockUncertainUntil, this`generation, this`jumps
      ensures Valid()
      ensures var now, before := Reading(wall, mono), old(clockPrevious);
        var heard := before.None? || mono >= before.value.mono;
        && clockPrevious == (if heard then Some(now) else before)
        && jumps == old(jumps) + (if before.Some? && heard && Jumped(before.value, now) then [mono] else [])
        && generation == old(generation) + |jumps| - |old(jumps)|
      ensures jumps == [] ==> (certain <==> mono >= 0.0)
      ensures jumps != [] ==> (certain <==> forall i :: 0 <= i < |jumps| ==> jumps[i] + 60.0 <= mono)
      ensures |jumps| > |old(jumps)| ==> !certain
    {
      if clockPrevious.None? || mono >= clockPrevious.value.mono {
        if clockPrevious.Some? { ClockStep(jumps, clockPrevious.value, clockUncertainUntil, Reading(wall, mono)); }
        if clockPrevious.Some? && Jumped(clockPrevious.value, Reading(wall, mono)) {
          clockChangeCount := clockChangeCount + 1;
          clockUncertainUntil := mono + 60.0;
          generation := generation + 1;
          jumps := jumps + [mono];
        }
        clockPrevious := Some(Reading(wall, mono));
      }
      certain := mono >= clockUncertainUntil;
    }
  }

  /** Sixty-four entries are published, and 256 ids remembered. */
  lemma Limits()
    ensures EVENTS == 64 && SEEN == 256
  {}

  /** A jump: against the monotonic clock the wall clock has moved by more than a second, either way. */
  lemma JumpedMeans(before: Reading, now: Reading)
    ensures var gained := (now.wall - now.mono) - (before.wall - before.mono);
      Jumped(before, now) <==> 1.0 < (if gained < 0.0 then -gained else gained)
  {}
}
