/**
 enqueueSession of ia-bridge/server.js: over every interleaving the promise chain of one
 key is a first-in first-out mutex, and the map entry lives exactly as long as it is needed.
 */
module SessionMutex {
  import opened Common
  import opened SessionBridge

  ghost predicate SameKey(s: State, i: nat, j: nat)
    requires i < |s.requests| && j < |s.requests|
  {
    Queued(s.requests[i]) && s.requests[i].key == s.requests[j].key
  }

  /** Tasks of one key start in arrival order, each after the earlier ones are over and cleaned up. */
  ghost predicate Fifo(s: State) {
    forall i, j :: 0 <= i < j < |s.requests| && SameKey(s, i, j) && s.requests[j].phase != Waiting ==>
      s.requests[i].cleaned
  }

  /** A request is chained to the latest earlier one of its key, unless all of those are cleaned up. */
  ghost predicate Chained(s: State) {
    forall i, j :: 0 <= i < j < |s.requests| && SameKey(s, i, j) ==>
      match s.requests[j].previous
      case None => s.requests[i].cleaned
      case Some(p) => i <= p < j && SameKey(s, p, j)
  }

  ghost predicate ChainedBack(s: State) {
    forall j :: 0 <= j < |s.requests| && s.requests[j].previous.Some? ==>
      var p := s.requests[j].previous.value; p < j && SameKey(s, p, j)
  }

  /** The map holds, for each key, its latest request, which is not cleaned up yet. */
  ghost predicate TailsMapped(s: State) {
    forall key :: key in s.queues ==>
      var i := s.queues[key];
      && i < |s.requests|
      && s.requests[i].key == Some(key)
      && !s.requests[i].cleaned
      && forall j :: i < j < |s.requests| ==> s.requests[j].key != Some(key)
  }

  /** A request that is not cleaned up has its key in the map. */
  ghost predicate UncleanedMapped(s: State) {
    forall i :: 0 <= i < |s.requests| && Queued(s.requests[i]) && !s.requests[i].cleaned ==>
      s.requests[i].key.value in s.queues
  }

  ghost predicate FlagsOrdered(s: State) {
    forall i :: 0 <= i < |s.requests| ==>
      var r := s.requests[i];
      && r.key == SessionKey(r.chat)
      && (r.cleaned ==> r.phase.Settled?)
      && (r.closed ==> r.phase.Settled? && (Queued(r) ==> r.cleaned))
  }

  ghost predicate QueueSound(s: State) {
    && Fifo(s) && Chained(s) && ChainedBack(s) && TailsMapped(s) && UncleanedMapped(s) && FlagsOrdered(s)
  }

  // ---------------------------------------------------------------- arrival

  lemma ArriveKeepsFifo(s: State, c: Chat, recorded: bool)
    requires Fifo(s)
    ensures Fifo(ArriveStep(s, c, recorded))
  {
    var t := ArriveStep(s, c, recorded);
    var n := |s.requests|;
    forall i, j | 0 <= i < j < |t.requests| && SameKey(t, i, j) && t.requests[j].phase != Waiting
      ensures t.requests[i].cleaned
    {
      assert t.requests[n].key.Some? ==> t.requests[n].phase == Waiting;
      assert j < n && SameKey(s, i, j);
    }
  }

  lemma ArriveKeepsChain(s: State, c: Chat, recorded: bool)
    requires Chained(s) && ChainedBack(s) && TailsMapped(s) && UncleanedMapped(s)
    ensures Chained(ArriveStep(s, c, recorded)) && ChainedBack(ArriveStep(s, c, recorded))
  {
    var t := ArriveStep(s, c, recorded);
    var n := |s.requests|;
    forall i, j | 0 <= i < j < |t.requests| && SameKey(t, i, j)
      ensures match t.requests[j].previous
        case None => t.requests[i].cleaned
        case Some(p) => i <= p < j && SameKey(t, p, j)
    {
      if j < n {
        assert SameKey(s, i, j);
      } else {
        assert s.requests[i].key == SessionKey(c);
      }
    }
  }

  lemma ArriveKeepsTails(s: State, c: Chat, recorded: bool)
    requires TailsMapped(s)
    ensures TailsMapped(ArriveStep(s, c, recorded))
  {}

  lemma ArriveKeepsFlags(s: State, c: Chat, recorded: bool)
    requires UncleanedMapped(s) && FlagsOrdered(s)
    ensures UncleanedMapped(ArriveStep(s, c, recorded)) && FlagsOrdered(ArriveStep(s, c, recorded))
  {}

  lemma ArriveKeepsQueues(s: State, c: Chat, recorded: bool)
    requires QueueSound(s)
    ensures QueueSound(ArriveStep(s, c, recorded))
  {
    ArriveKeepsFifo(s, c, recorded);
    ArriveKeepsChain(s, c, recorded);
    ArriveKeepsTails(s, c, recorded);
    ArriveKeepsFlags(s, c, recorded);
  }

  // ---------------------------------------------------------------- the other steps

  /** Steps that keep keys, links and what is cleaned up keep the chain. */
  lemma SameShape(s: State, t: State)
    requires Chained(s) && ChainedBack(s) && |t.requests| == |s.requests|
    requires forall i :: 0 <= i < |s.requests| ==>
      && t.requests[i].key == s.requests[i].key
      && t.requests[i].previous == s.requests[i].previous
      && (s.requests[i].cleaned ==> t.requests[i].cleaned)
    ensures Chained(t) && ChainedBack(t)
  {}

  /** Steps that start no task keep the order of starts. */
  lemma SameStarts(s: State, t: State)
    requires Fifo(s) && |t.requests| == |s.requests|
    requires forall i :: 0 <= i < |s.requests| ==>
      && t.requests[i].key == s.requests[i].key
      && (s.requests[i].phase == Waiting ==> t.requests[i].phase == Waiting)
      && (s.requests[i].cleaned ==> t.requests[i].cleaned)
    ensures Fifo(t)
  {}

  lemma BeginKeepsFifo(s: State, i: nat)
    requires Fifo(s) && Chained(s) && CanBegin(s, i)
    ensures Fifo(Step(s, Begin(i)))
  {
    var t := Step(s, Begin(i));
    forall a, b | 0 <= a < b < |t.requests| && SameKey(t, a, b) && t.requests[b].phase != Waiting
      ensures t.requests[a].cleaned
    {
      assert SameKey(s, a, b);
      if b == i && s.requests[i].previous.Some? {
        var p := s.requests[i].previous.value;
        if a < p {
          assert SameKey(s, p, i) && SameKey(s, a, p);
        }
      }
    }
  }

  lemma BeginKeepsQueues(s: State, i: nat)
    requires QueueSound(s) && CanBegin(s, i)
    ensures QueueSound(Step(s, Begin(i)))
  {
    BeginKeepsFifo(s, i);
    SameShape(s, Step(s, Begin(i)));
  }

  lemma SettleKeepsQueues(s: State, i: nat, ok: bool)
    requires QueueSound(s) && i < |s.requests| && s.requests[i].phase == Running
    ensures QueueSound(Step(s, Settle(i, ok)))
  {
    var t := Step(s, Settle(i, ok));
    SameStarts(s, t);
    SameShape(s, t);
  }

  /** Dropping the key of the tail forgets no request: all earlier ones are cleaned up already. */
  lemma CleanKeepsMap(s: State, i: nat)
    requires Fifo(s) && TailsMapped(s) && UncleanedMapped(s) && CanClean(s, i)
    ensures TailsMapped(CleanStep(s, i)) && UncleanedMapped(CleanStep(s, i))
  {
    var t := CleanStep(s, i);
    assert forall a :: 0 <= a < i && s.requests[a].key == s.requests[i].key ==> SameKey(s, a, i);
    forall a | 0 <= a < |t.requests| && Queued(t.requests[a]) && !t.requests[a].cleaned
      ensures t.requests[a].key.value in t.queues
    {
      assert s.requests[a].key.value in s.queues;
    }
  }

  lemma CleanKeepsQueues(s: State, i: nat)
    requires QueueSound(s) && CanClean(s, i)
    ensures QueueSound(CleanStep(s, i))
  {
    var t := CleanStep(s, i);
    SameStarts(s, t);
    SameShape(s, t);
    CleanKeepsMap(s, i);
  }

  lemma CloseKeepsQueues(s: State, i: nat, recorded: bool)
    requires QueueSound(s) && CanClose(s, i)
    ensures QueueSound(CloseStep(s, i, recorded))
  {
    var t := CloseStep(s, i, recorded);
    SameStarts(s, t);
    SameShape(s, t);
  }

  lemma DeleteKeepsQueues(s: State, a: Agent, conversation: string)
    requires QueueSound(s)
    ensures QueueSound(DeleteStep(s, a, conversation))
  {
    var t := DeleteStep(s, a, conversation);
    SameStarts(s, t);
    SameShape(s, t);
  }

  lemma StepKeepsQueues(s: State, e: Event)
    requires QueueSound(s) && Enabled(s, e)
    ensures QueueSound(Step(s, e))
  {
    match e
    case Arrive(c, recorded) => ArriveKeepsQueues(s, c, recorded);
    case Delete(a, conversation) => DeleteKeepsQueues(s, a, conversation);
    case Settle(i, ok) => SettleKeepsQueues(s, i, ok);
    case Begin(i) => BeginKeepsQueues(s, i);
    case Clean(i) => CleanKeepsQueues(s, i);
    case Close(i, recorded) => CloseKeepsQueues(s, i, recorded);
  }

  lemma {:induction false} RunKeepsQueues(s: State, events: seq<Event>, t: State)
    requires QueueSound(s) && Reaches(s, events, t)
    ensures QueueSound(t)
    decreases |events|
  {
    if events != [] {
      StepKeepsQueues(s, events[0]);
      RunKeepsQueues(Step(s, events[0]), events[1..], t);
    }
  }

  // ---------------------------------------------------------------- what a caller sees

  /** In every reachable state, of two tasks of one key the earlier is over before the later starts. */
  lemma TasksNeverOverlap(events: seq<Event>, t: State, i: nat, j: nat)
    requires Reaches(INITIAL, events, t)
    requires i < j < |t.requests| && t.requests[i].key.Some? && t.requests[i].key == t.requests[j].key
    ensures t.requests[j].phase != Waiting ==> t.requests[i].phase.Settled?
    ensures !(t.requests[i].phase == Running && t.requests[j].phase == Running)
  {
    RunKeepsQueues(INITIAL, events, t);
    assert SameKey(t, i, j);
  }

  /** Whatever the outcome of its predecessor, a waiting task can start once that one is cleaned up. */
  lemma FailureDoesNotBlock(s: State, i: nat, p: nat, ok: bool)
    requires QueueSound(s) && i < |s.requests| && s.requests[i].previous == Some(p) && s.requests[i].phase == Waiting
    requires s.requests[p].phase == Settled(ok)
    ensures s.requests[p].cleaned ==> Enabled(s, Begin(i))
    ensures Queued(s.requests[p]) && !s.requests[p].cleaned ==>
      Enabled(s, Clean(p)) && Enabled(Step(s, Clean(p)), Begin(i))
  {
  }

  /** A key is in the map exactly while some request of it is not cleaned up, and then maps to the last one. */
  lemma KeyMappedExactlyWhileInUse(events: seq<Event>, t: State, key: string)
    requires Reaches(INITIAL, events, t)
    ensures key in t.queues <==>
      exists i :: 0 <= i < |t.requests| && t.requests[i].key == Some(key) && !t.requests[i].cleaned
    ensures key in t.queues ==>
      && t.queues[key] < |t.requests|
      && t.requests[t.queues[key]].key == Some(key)
      && forall j :: t.queues[key] < j < |t.requests| ==> t.requests[j].key != Some(key)
  {
    RunKeepsQueues(INITIAL, events, t);
    if key in t.queues {
      assert t.requests[t.queues[key]].key == Some(key);
    }
  }

  /** When no microtask is left and no task runs, every queued request is over and the map is empty. */
  lemma {:induction false} NothingStuck(events: seq<Event>, t: State)
    requires Reaches(INITIAL, events, t) && Quiet(t)
    requires forall i :: 0 <= i < |t.requests| ==> t.requests[i].phase != Running
    ensures forall i :: 0 <= i < |t.requests| ==> t.requests[i].closed
    ensures t.queues == map[]
  {
    RunKeepsQueues(INITIAL, events, t);
    forall i | 0 <= i < |t.requests| ensures t.requests[i].closed {
      NotStuck(t, i);
    }
    assert t.queues.Keys == {};
  }

  lemma {:induction false} NotStuck(t: State, i: nat)
    requires QueueSound(t) && Quiet(t) && i < |t.requests|
    requires forall k :: 0 <= k < |t.requests| ==> t.requests[k].phase != Running
    ensures t.requests[i].closed
  {
    assert !CanBegin(t, i) && !CanClean(t, i) && !CanClose(t, i);
    if t.requests[i].phase == Waiting && t.requests[i].previous.Some? {
      NotStuck(t, t.requests[i].previous.value);
    }
  }
}
