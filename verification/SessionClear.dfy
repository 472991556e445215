/**
 Clearing a conversation (the DELETE branch of ia-bridge/server.js): over every run a
 successful DELETE falls outside every request of its conversation, so no turn it removed
 comes back, and it leaves every other conversation alone.
 */
module SessionClear {
  import opened Common
  import opened SessionBridge
  import opened SessionMutex

  predicate Of(c: Chat, a: Agent, conversation: string) { c.agent == a && c.conversation == Some(conversation) }

  // ---------------------------------------------------------------- session keys

  lemma PrefixOfSum(p: string, s: string, t: string)
    ensures p + s <= p + t <==> s <= t
  {
    if s <= t {
      assert t == s + t[|s|..];
      Assoc(p, s, t[|s|..]);
    }
    if p + s <= p + t {
      assert t[..|s|] == (p + t)[|p|..|p| + |s|] == (p + s)[|p|..];
    }
  }

  lemma KeyIsCovered(c: Chat, a: Agent, conversation: string)
    requires Of(c, a, conversation)
    ensures SessionKey(c).Some? && Covers(Prefix(a, conversation), SessionKey(c).value)
  {
    if a == Codex {
      var p := Prefix(Codex, conversation) + ":";
      assert p <= p + c.options;
    }
  }

  /**
   A Claude key is covered exactly when the conversation is the same one or extends it after a
   colon: clearing "a" also takes in "a:b".
   */
  lemma ClaudeKeysCovered(cleared: string, other: string)
    ensures Covers(Prefix(Claude, cleared), Prefix(Claude, other)) <==> other == cleared || cleared + ":" <= other
  {
    var p := "claude:";
    assert Prefix(Claude, cleared) == p + cleared && Prefix(Claude, other) == p + other;
    Assoc(p, cleared, ":");
    PrefixOfSum(p, cleared + ":", other);
    assert (p + other)[|p|..] == other && (p + cleared)[|p|..] == cleared;
  }

  /** A Codex key ends in the options: it is covered when the id, read together with them, extends the cleared one. */
  lemma CodexKeysCovered(cleared: string, c: Chat)
    requires c.agent == Codex && c.conversation.Some?
    ensures Covers(Prefix(Codex, cleared), SessionKey(c).value) <==>
      var named := c.conversation.value + ":" + c.options; named == cleared || cleared + ":" <= named
  {
    var p, named := "codex:", c.conversation.value + ":" + c.options;
    assert Prefix(Codex, cleared) == p + cleared;
    assert SessionKey(c).value == p + named by {
      Assoc(p, c.conversation.value, ":");
      Assoc(p, c.conversation.value + ":", c.options);
    }
    Assoc(p, cleared, ":");
    PrefixOfSum(p, cleared + ":", named);
    assert (p + named)[|p|..] == named && (p + cleared)[|p|..] == cleared;
  }

  lemma OtherAgentNeverCovered(cleared: string, a: Agent, c: Chat)
    requires c.conversation.Some? && c.agent != a
    ensures !Covers(Prefix(a, cleared), SessionKey(c).value)
  {
    assert SessionKey(c).value[1] == AgentName(c.agent)[1] != AgentName(a)[1];
    assert Prefix(a, cleared)[1] == AgentName(a)[1] == (Prefix(a, cleared) + ":")[1];
  }

  /**
   DELETE of one id can be refused although no request of it ever arrived: a running request of
   any id that extends it after a colon is enough.
   */
  lemma RefusedForAnotherId(id: string, more: string)
    ensures var other := Chat(Claude, Some(id + ":" + more), "");
      var s := Step(INITIAL, Arrive(other, true));
      Active(s, Claude, id) && forall r :: r in s.requests ==> !Of(r.chat, Claude, id)
  {
    var other := Chat(Claude, Some(id + ":" + more), "");
    var s := Step(INITIAL, Arrive(other, true));
    assert id + ":" <= id + ":" + more;
    ClaudeKeysCovered(id, id + ":" + more);
    assert SessionKey(other).value in s.queues;
    assert |id + ":" + more| > |id|;
  }

  /** Between ids without a colon the cover is exact, for both agents. */
  lemma ColonFreeIdsExact(c: Chat, a: Agent, conversation: string)
    requires c.conversation.Some? && ':' !in c.conversation.value && ':' !in conversation
    ensures Covers(Prefix(a, conversation), SessionKey(c).value) <==> Of(c, a, conversation)
  {
    var id := c.conversation.value;
    var key := SessionKey(c).value;
    if Of(c, a, conversation) {
      KeyIsCovered(c, a, conversation);
    }
    if Covers(Prefix(a, conversation), key) {
      assert key[1] == Prefix(a, conversation)[1];
      assert c.agent == a;
      var p := AgentName(a) + ":";
      assert key[..|p|] == p;
      if a == Claude {
        ClaudeKeysCovered(conversation, id);
        if conversation + ":" <= id {
          ColonInside(conversation, id);
        }
      } else {
        ColonEnds(p, id, c.options, conversation);
      }
    }
  }

  lemma ColonInside(s: string, t: string)
    requires s + ":" <= t
    ensures ':' in t
  {
    assert (s + ":")[|s|] == ':';
  }

  /** The colon after a colon-free id marks where the id ends. */
  lemma ColonEnds(p: string, id: string, options: string, conversation: string)
    requires ':' !in id && ':' !in conversation
    requires Covers(p + conversation, p + id + ":" + options)
    ensures id == conversation
  {
    var key := p + id + ":" + options;
    assert forall k :: 0 <= k < |id| ==> key[|p| + k] == id[k];
    assert key[|p| + |id|] == ':';
    assert forall k :: 0 <= k < |conversation| ==> (p + conversation)[|p| + k] == conversation[k];
    assert (p + conversation + ":")[|p| + |conversation|] == ':';
    assert p + conversation <= key;
    assert forall k :: 0 <= k < |conversation| ==> conversation[k] == key[|p| + k];
    assert |conversation| <= |id|;
    assert key != p + conversation ==> key[|p| + |conversation|] == ':';
  }

  // ---------------------------------------------------------------- the log without a conversation

  function Turns(log: seq<Turn>, a: Agent, conversation: Option<string>): seq<Turn> {
    if log == [] then []
    else
      var front, last := Turns(log[..|log| - 1], a, conversation), log[|log| - 1];
      if last.agent == a && last.conversation == conversation then front + [last] else front
  }

  /** Clearing empties the conversation and keeps the turns of every other one, in order. */
  lemma {:induction false} WithoutKeepsOthers(log: seq<Turn>, a: Agent, id: string, b: Agent, other: Option<string>)
    ensures Turns(Without(log, a, id), b, other) ==
      if b == a && other == Some(id) then [] else Turns(log, b, other)
  {
    if log != [] {
      var front, last := log[..|log| - 1], log[|log| - 1];
      WithoutKeepsOthers(front, a, id, b, other);
      var w := Without(front, a, id);
      assert (w + [last])[..|w|] == w;
    }
  }

  lemma {:induction false} WithoutMembers(log: seq<Turn>, a: Agent, id: string, t: Turn)
    ensures t in Without(log, a, id) <==> t in log && !(t.agent == a && t.conversation == Some(id))
  {
    if log != [] {
      WithoutMembers(log[..|log| - 1], a, id, t);
      assert log == log[..|log| - 1] + [log[|log| - 1]];
    }
  }

  // ---------------------------------------------------------------- a DELETE falls between requests

  /**
   At a DELETE that is not refused every request of the conversation that ever arrived is over
   and has had its chance to write its final turn.
   */
  lemma DeleteFindsRequestsClosed(s: State, a: Agent, id: string, i: nat)
    requires QueueSound(s) && Quiet(s) && !Active(s, a, id)
    requires i < |s.requests| && Of(s.requests[i].chat, a, id)
    ensures s.requests[i].closed
  {
    KeyIsCovered(s.requests[i].chat, a, id);
    assert !CanClose(s, i);
  }

  /** DELETE answers 409 exactly while some task under a covered key is waiting or running. */
  lemma RefusedExactlyWhileUnsettled(s: State, a: Agent, id: string)
    requires QueueSound(s) && Quiet(s)
    ensures Active(s, a, id) <==>
      exists i :: 0 <= i < |s.requests| && Queued(s.requests[i]) && !s.requests[i].phase.Settled?
               && Covers(Prefix(a, id), s.requests[i].key.value)
  {
    if Active(s, a, id) {
      var key :| key in s.queues && Covers(Prefix(a, id), key);
      var i := s.queues[key];
      assert !CanClean(s, i);
      assert Queued(s.requests[i]) && Covers(Prefix(a, id), s.requests[i].key.value);
    }
  }

  /** Nothing the first `n` requests wrote for the conversation is in the log, and nothing can come. */
  ghost predicate Cleared(s: State, n: nat, a: Agent, id: string) {
    && n <= |s.requests|
    && (forall i :: 0 <= i < n && Of(s.requests[i].chat, a, id) ==> s.requests[i].closed)
    && (forall t :: t in s.log && t.agent == a && t.conversation == Some(id) ==> n <= t.request)
  }

  lemma DeleteClears(s: State, a: Agent, id: string)
    requires QueueSound(s) && Quiet(s) && !Active(s, a, id)
    ensures Cleared(DeleteStep(s, a, id), |s.requests|, a, id)
  {
    forall i | 0 <= i < |s.requests| && Of(s.requests[i].chat, a, id) ensures s.requests[i].closed {
      DeleteFindsRequestsClosed(s, a, id, i);
    }
    forall t | t in Without(s.log, a, id) ensures !(t.agent == a && t.conversation == Some(id)) {
      WithoutMembers(s.log, a, id, t);
    }
  }

  lemma StepKeepsCleared(s: State, e: Event, n: nat, a: Agent, id: string)
    requires Cleared(s, n, a, id) && Enabled(s, e)
    ensures Cleared(Step(s, e), n, a, id)
  {
    if e.Delete? {
      forall t | t in Without(s.log, e.agent, e.conversation) ensures t in s.log {
        WithoutMembers(s.log, e.agent, e.conversation, t);
      }
    }
  }

  lemma {:induction false} RunKeepsCleared(s: State, events: seq<Event>, t: State, n: nat, a: Agent, id: string)
    requires Cleared(s, n, a, id) && Reaches(s, events, t)
    ensures Cleared(t, n, a, id)
    decreases |events|
  {
    if events != [] {
      StepKeepsCleared(s, events[0], n, a, id);
      RunKeepsCleared(Step(s, events[0]), events[1..], t, n, a, id);
    }
  }

  /**
   Cleared turns do not come back: whatever happened before a successful DELETE and whatever
   happens after it, every turn of the conversation in the log belongs to a request that
   arrived after it.
   */
  lemma ClearedTurnsStayAway(
    before: seq<Event>, s: State, a: Agent, id: string, after: seq<Event>, t: State, k: nat)
    requires Reaches(INITIAL, before, s) && Enabled(s, Delete(a, id)) && !Active(s, a, id)
    requires Reaches(Step(s, Delete(a, id)), after, t)
    requires k < |t.log| && t.log[k].agent == a && t.log[k].conversation == Some(id)
    ensures t.log[k].request >= |s.requests|
  {
    RunKeepsQueues(INITIAL, before, s);
    DeleteClears(s, a, id);
    RunKeepsCleared(Step(s, Delete(a, id)), after, t, |s.requests|, a, id);
    assert t.log[k] in t.log;
  }

  // ---------------------------------------------------------------- a final turn meets its pending turn

  /** A request that may still write its final turn has its pending turn, if written, in the log. */
  ghost predicate PendingsKept(s: State) {
    forall i :: 0 <= i < |s.requests| && s.requests[i].pending && !s.requests[i].closed ==>
      TurnOf(i, s.requests[i].chat, false) in s.log
  }

  lemma DeleteKeepsPendings(s: State, a: Agent, id: string)
    requires QueueSound(s) && PendingsKept(s) && Quiet(s)
    ensures PendingsKept(DeleteStep(s, a, id))
  {
    if !Active(s, a, id) {
      forall i | 0 <= i < |s.requests| && s.requests[i].pending && !s.requests[i].closed
        ensures TurnOf(i, s.requests[i].chat, false) in Without(s.log, a, id)
      {
        if Of(s.requests[i].chat, a, id) {
          DeleteFindsRequestsClosed(s, a, id, i);
        }
        WithoutMembers(s.log, a, id, TurnOf(i, s.requests[i].chat, false));
      }
    }
  }

  lemma ArriveKeepsPendings(s: State, c: Chat, recorded: bool)
    requires PendingsKept(s)
    ensures PendingsKept(ArriveStep(s, c, recorded))
  {
    var after := ArriveStep(s, c, recorded);
    if recorded {
      assert after.log == s.log + [TurnOf(|s.requests|, c, false)];
    }
    forall i | 0 <= i < |after.requests| && after.requests[i].pending && !after.requests[i].closed
      ensures TurnOf(i, after.requests[i].chat, false) in after.log
    {
      if i < |s.requests| {
        assert after.requests[i] == s.requests[i];
      }
    }
  }

  lemma StepKeepsPendings(s: State, e: Event)
    requires QueueSound(s) && PendingsKept(s) && Enabled(s, e)
    ensures PendingsKept(Step(s, e))
  {
    match e
    case Arrive(c, recorded) => ArriveKeepsPendings(s, c, recorded);
    case Delete(a, id) => DeleteKeepsPendings(s, a, id);
    case _ => assert s.log <= Step(s, e).log;
  }

  lemma {:induction false} RunKeepsPendings(s: State, events: seq<Event>, t: State)
    requires QueueSound(s) && PendingsKept(s) && Reaches(s, events, t)
    ensures QueueSound(t) && PendingsKept(t)
    decreases |events|
  {
    if events != [] {
      StepKeepsQueues(s, events[0]);
      StepKeepsPendings(s, events[0]);
      RunKeepsPendings(Step(s, events[0]), events[1..], t);
    }
  }

  /** A final turn is always appended to a log that still holds its pending turn, if that was written. */
  lemma FinalMeetsItsPending(events: seq<Event>, s: State, i: nat, recorded: bool)
    requires Reaches(INITIAL, events, s) && Enabled(s, Close(i, recorded)) && s.requests[i].pending
    ensures TurnOf(i, s.requests[i].chat, false) in s.log
  {
    RunKeepsPendings(INITIAL, events, s);
  }

  // ---------------------------------------------------------------- the keys spelled out

  /** A session key: the agent's name, the conversation and, for Codex, the options. */
  lemma KeyTexts(id: string, options: string, a: Agent)
    ensures SessionKey(Chat(Claude, Some(id), options)) == Some("claude:" + id)
    ensures SessionKey(Chat(Codex, Some(id), options)) == Some("codex:" + id + ":" + options)
    ensures SessionKey(Chat(a, None, options)) == None
    ensures Prefix(Claude, id) == "claude:" + id && Prefix(Codex, id) == "codex:" + id
  {
    assert "claude" + ":" == "claude:" && "codex" + ":" == "codex:";
  }

  /** A conversation's prefix covers itself and whatever goes on after a colon. */
  lemma CoversText(prefix: string, rest: string, key: string)
    ensures Covers(prefix, prefix) && Covers(prefix, prefix + ":" + rest)
    ensures Covers(prefix, key) && key != prefix ==> |key| > |prefix| && key[|prefix|] as int == 58 && prefix <= key
  {
    assert prefix + ":" <= prefix + ":" + rest;
    if prefix + ":" <= key { assert key[|prefix|] == (prefix + ":")[|prefix|]; }
  }

  /** The sessions that stay are those that are not covered, as they were. */
  lemma UncoveredSessions(sessions: map<string, string>, prefix: string, key: string)
    ensures key in Uncovered(sessions, prefix) <==> key in sessions && !Covers(prefix, key)
    ensures key in Uncovered(sessions, prefix) ==> Uncovered(sessions, prefix)[key] == sessions[key]
  {}
}
