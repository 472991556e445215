/**
 What the turn log holds after a run of the bridge in ia-bridge/server.js: every turn that was
 recorded, once, unless its conversation was cleared later, and nothing else.
 */
module SessionRecord {
  import opened Common
  import opened SessionBridge
  import opened SessionClear

  // ---------------------------------------------------------------- what one event writes

  /** The turn that an event records: the pending one of an arrival, or the final one of a close. */
  ghost predicate Writes(s: State, e: Event, x: Turn)
    requires Enabled(s, e)
  {
    match e
    case Arrive(c, recorded) => recorded && x == Turn(|s.requests|, c.agent, c.conversation, false)
    case Close(i, recorded) =>
      recorded && x == Turn(i, s.requests[i].chat.agent, s.requests[i].chat.conversation, true)
    case _ => false
  }

  /** The event is a DELETE of the turn's conversation that is not refused. */
  ghost predicate Erases(s: State, e: Event, x: Turn) {
    e.Delete? && !Active(s, e.agent, e.conversation) && x.agent == e.agent && x.conversation == Some(e.conversation)
  }

  /** Some event of a run erases the turn. */
  ghost predicate ErasedIn(s: State, events: seq<Event>, x: Turn)
    decreases |events|
  {
    events != [] && Enabled(s, events[0])
    && (Erases(s, events[0], x) || ErasedIn(Step(s, events[0]), events[1..], x))
  }

  /** What a step does to the log. */
  lemma LogStep(s: State, e: Event)
    requires Enabled(s, e)
    ensures Step(s, e).log
         == match e
            case Arrive(c, recorded) =>
              s.log + if recorded then [Turn(|s.requests|, c.agent, c.conversation, false)] else []
            case Close(i, recorded) =>
              var chat := s.requests[i].chat;
              s.log + if recorded then [Turn(i, chat.agent, chat.conversation, true)] else []
            case Delete(a, id) => if Active(s, a, id) then s.log else Without(s.log, a, id)
            case _ => s.log
  {
    EmptyConcat(s.log);
  }

  // ---------------------------------------------------------------- how often a turn is in the log

  ghost function Times(log: seq<Turn>, x: Turn): nat { multiset(log)[x] }

  lemma TimesAppend(log: seq<Turn>, y: Turn, x: Turn)
    ensures Times(log + [y], x) == Times(log, x) + if y == x then 1 else 0
  {}

  lemma {:induction false} TimesWithout(log: seq<Turn>, a: Agent, id: string, x: Turn)
    ensures Times(Without(log, a, id), x) == if x.agent == a && x.conversation == Some(id) then 0 else Times(log, x)
  {
    if log != [] {
      var front, last := log[..|log| - 1], log[|log| - 1];
      FrontLast(log);
      TimesWithout(front, a, id, x);
      TimesAppend(front, last, x);
      TimesAppend(Without(front, a, id), last, x);
    }
  }

  /** A step adds the turn if it writes it, removes it if it erases it, and else leaves it. */
  lemma StepTimes(s: State, e: Event, x: Turn)
    requires Enabled(s, e)
    ensures Times(Step(s, e).log, x)
         == if Writes(s, e, x) then Times(s.log, x) + 1 else if Erases(s, e, x) then 0 else Times(s.log, x)
  {
    LogStep(s, e);
    match e
    case Arrive(c, recorded) => TimesAppend(s.log, Turn(|s.requests|, c.agent, c.conversation, false), x);
    case Close(i, recorded) =>
      TimesAppend(s.log, Turn(i, s.requests[i].chat.agent, s.requests[i].chat.conversation, true), x);
    case Delete(a, id) => TimesWithout(s.log, a, id, x);
    case _ =>
  }

  /** The turn of a request that has not arrived, or a final turn of one that is open, is still to come. */
  ghost predicate Ahead(s: State, x: Turn) {
    |s.requests| <= x.request || (x.final && !s.requests[x.request].closed)
  }

  lemma AheadStep(s: State, e: Event, x: Turn)
    requires Enabled(s, e)
    ensures Writes(s, e, x) ==> Ahead(s, x) && !Ahead(Step(s, e), x)
    ensures !Ahead(s, x) ==> !Ahead(Step(s, e), x)
  {}

  /** A turn still to come is not in the log. */
  ghost predicate NotYet(s: State) { forall x: Turn :: Ahead(s, x) ==> Times(s.log, x) == 0 }

  lemma StepKeepsNotYet(s: State, e: Event)
    requires NotYet(s) && Enabled(s, e)
    ensures NotYet(Step(s, e))
  {
    forall x: Turn | Ahead(Step(s, e), x) ensures Times(Step(s, e).log, x) == 0 {
      AheadStep(s, e, x);
      StepTimes(s, e, x);
    }
  }

  lemma {:induction false} RunKeepsNotYet(s: State, events: seq<Event>, t: State)
    requires NotYet(s) && Reaches(s, events, t)
    ensures NotYet(t)
    decreases |events|
  {
    if events != [] {
      StepKeepsNotYet(s, events[0]);
      RunKeepsNotYet(Step(s, events[0]), events[1..], t);
    }
  }

  /** A turn that is behind the run stays as it is until it is erased. */
  lemma {:induction false} StaysUntilErased(s: State, events: seq<Event>, t: State, x: Turn)
    requires !Ahead(s, x) && Reaches(s, events, t)
    ensures Times(t.log, x) == if ErasedIn(s, events, x) then 0 else Times(s.log, x)
    decreases |events|
  {
    if events != [] {
      var e, next := events[0], Step(s, events[0]);
      AheadStep(s, e, x);
      StepTimes(s, e, x);
      StaysUntilErased(next, events[1..], t, x);
    }
  }

  /**
   A recorded turn, pending or final, is in the log exactly once, unless its conversation was
   cleared after it was recorded; then it is gone.
   */
  lemma RecordedOnceUnlessErased(before: seq<Event>, s: State, e: Event, x: Turn, after: seq<Event>, t: State)
    requires Reaches(INITIAL, before, s) && Enabled(s, e) && Writes(s, e, x)
    requires Reaches(Step(s, e), after, t)
    ensures Times(t.log, x) == if ErasedIn(Step(s, e), after, x) then 0 else 1
  {
    assert NotYet(INITIAL);
    RunKeepsNotYet(INITIAL, before, s);
    AheadStep(s, e, x);
    StepTimes(s, e, x);
    StaysUntilErased(Step(s, e), after, t, x);
  }

  /** Some event of the run recorded the turn. */
  ghost predicate WrittenIn(s: State, events: seq<Event>, x: Turn)
    decreases |events|
  {
    events != [] && Enabled(s, events[0])
    && (Writes(s, events[0], x) || WrittenIn(Step(s, events[0]), events[1..], x))
  }

  lemma {:induction false} NothingElseFrom(s: State, events: seq<Event>, t: State, x: Turn)
    requires Reaches(s, events, t) && Times(t.log, x) > 0
    ensures Times(s.log, x) > 0 || WrittenIn(s, events, x)
    decreases |events|
  {
    if events != [] {
      StepTimes(s, events[0], x);
      NothingElseFrom(Step(s, events[0]), events[1..], t, x);
    }
  }

  /** Nothing else is in the log. */
  lemma OnlyRecordedTurns(events: seq<Event>, t: State, x: Turn)
    requires Reaches(INITIAL, events, t) && x in t.log
    ensures WrittenIn(INITIAL, events, x)
  {
    NothingElseFrom(INITIAL, events, t, x);
  }

  // ---------------------------------------------------------------- a final turn stands behind its pending one

  ghost predicate Behind(log: seq<Turn>) {
    forall j, k :: 0 <= j < |log| && 0 <= k < |log| && log[j].request == log[k].request && log[j].final && !log[k].final
      ==> k < j
  }

  lemma {:induction false} WithoutBehind(log: seq<Turn>, a: Agent, id: string)
    requires Behind(log)
    ensures Behind(Without(log, a, id))
  {
    if log != [] {
      var front, last := log[..|log| - 1], log[|log| - 1];
      assert Behind(front) by { assert forall i :: 0 <= i < |front| ==> front[i] == log[i]; }
      WithoutBehind(front, a, id);
      var kept := Without(front, a, id);
      forall j | 0 <= j < |kept| && !last.final ensures !(kept[j].request == last.request && kept[j].final) {
        WithoutMembers(front, a, id, kept[j]);
        var i :| 0 <= i < |front| && front[i] == kept[j];
        assert log[i] == kept[j];
      }
    }
  }

  lemma StepKeepsBehind(s: State, e: Event)
    requires Behind(s.log) && NotYet(s) && Enabled(s, e)
    ensures Behind(Step(s, e).log)
  {
    LogStep(s, e);
    match e
    case Arrive(c, recorded) =>
      forall i | 0 <= i < |s.log| ensures s.log[i].request != |s.requests| {
        assert s.log[i] in multiset(s.log) && (s.log[i].request >= |s.requests| ==> Ahead(s, s.log[i]));
      }
    case Delete(a, id) => WithoutBehind(s.log, a, id);
    case _ =>
  }

  lemma {:induction false} RunKeepsBehind(s: State, events: seq<Event>, t: State)
    requires Behind(s.log) && NotYet(s) && Reaches(s, events, t)
    ensures Behind(t.log)
    decreases |events|
  {
    if events != [] {
      StepKeepsBehind(s, events[0]);
      StepKeepsNotYet(s, events[0]);
      RunKeepsBehind(Step(s, events[0]), events[1..], t);
    }
  }

  /** In every log a run reaches, a request's final turn stands behind its pending one. */
  lemma FinalBehindPending(events: seq<Event>, t: State)
    requires Reaches(INITIAL, events, t)
    ensures Behind(t.log)
  {
    RunKeepsBehind(INITIAL, events, t);
  }
}
