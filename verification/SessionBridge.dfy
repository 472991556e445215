/**
 The chat bridge of ia-bridge/server.js: per-session promise queues, the pending
 and final records of a request, and the DELETE of a conversation.

 A step is either a macrotask (a request arrives, a DELETE, a task settles) or a
 microtask (a waiting task starts, a finished promise is cleaned up, the handler
 resumes and records its final turn).  A request may arrive at any point, also
 between a settlement and its clean-up: its `end` event can come from the queue that
 is drained before promise callbacks.  A DELETE is handled when no microtask is left.
 */
module SessionBridge {
  import opened Common

  datatype Agent = Claude | Codex

  function AgentName(a: Agent): string { if a == Claude then "claude" else "codex" }

  /** A validated request; `options` is the model and effort suffix of a Codex session key. */
  datatype Chat = Chat(agent: Agent, conversation: Option<string>, options: string)

  function Prefix(a: Agent, conversation: string): string { AgentName(a) + ":" + conversation }

  /** The session key; a request without conversation has none and is not queued. */
  function SessionKey(c: Chat): Option<string> {
    match c.conversation
    case None => None
    case Some(id) => Some(if c.agent == Codex then Prefix(Codex, id) + ":" + c.options else Prefix(Claude, id))
  }

  /** The key test that DELETE and the session store use for a conversation. */
  predicate Covers(prefix: string, key: string) { key == prefix || prefix + ":" <= key }

  /** The stored sessions that a conversation does not cover. */
  function Uncovered(sessions: map<string, string>, prefix: string): map<string, string> {
    map key | key in sessions && !Covers(prefix, key) :: sessions[key]
  }

  datatype Phase = Waiting | Running | Settled(ok: bool)

  /**
   One request.  `previous` is the promise it is chained to, `pending` says that its pending
   turn was written, `cleaned` that its `finally` callback ran, `closed` that its final turn
   was recorded (or failed to be).
   */
  datatype Request = Request(
    chat: Chat, key: Option<string>, previous: Option<nat>, pending: bool, phase: Phase, cleaned: bool, closed: bool)

  /** A line of the turn log. */
  datatype Turn = Turn(request: nat, agent: Agent, conversation: Option<string>, final: bool)

  datatype State = State(requests: seq<Request>, queues: map<string, nat>, log: seq<Turn>)

  const INITIAL: State := State([], map[], [])

  datatype Event =
    | Arrive(chat: Chat, recorded: bool)
    | Delete(agent: Agent, conversation: string)
    | Settle(i: nat, ok: bool)
    | Begin(i: nat)
    | Clean(i: nat)
    | Close(i: nat, recorded: bool)

  function TurnOf(i: nat, c: Chat, final: bool): Turn { Turn(i, c.agent, c.conversation, final) }

  /**
   A waiting task may start once the promise it is chained to has settled, either way.  The
   `finally` callback was attached to that promise before the successor's `catch`, so it has run.
   */
  predicate CanBegin(s: State, i: nat) {
    && i < |s.requests|
    && s.requests[i].phase == Waiting
    && match s.requests[i].previous
       case None => true
       case Some(p) => p < |s.requests| && s.requests[p].phase.Settled? && s.requests[p].cleaned
  }

  predicate Queued(r: Request) { r.key.Some? }

  predicate CanClean(s: State, i: nat) {
    i < |s.requests| && Queued(s.requests[i]) && s.requests[i].phase.Settled? && !s.requests[i].cleaned
  }

  /** The handler resumes after the promise that the `finally` callback gives. */
  predicate CanClose(s: State, i: nat) {
    && i < |s.requests|
    && s.requests[i].phase.Settled?
    && (Queued(s.requests[i]) ==> s.requests[i].cleaned)
    && !s.requests[i].closed
  }

  /** No microtask is left to run. */
  predicate Quiet(s: State) {
    forall i :: 0 <= i < |s.requests| ==> !CanBegin(s, i) && !CanClean(s, i) && !CanClose(s, i)
  }

  predicate Enabled(s: State, e: Event) {
    match e
    case Arrive(_, _) => true
    case Delete(_, _) => Quiet(s)
    case Settle(i, _) => i < |s.requests| && s.requests[i].phase == Running
    case Begin(i) => CanBegin(s, i)
    case Clean(i) => CanClean(s, i)
    case Close(i, _) => CanClose(s, i)
  }

  // ---------------------------------------------------------------- steps

  function ArriveStep(s: State, c: Chat, recorded: bool): State {
    var i := |s.requests|;
    var log := if recorded then s.log + [TurnOf(i, c, false)] else s.log;
    match SessionKey(c)
    case None => State(s.requests + [Request(c, None, None, recorded, Running, false, false)], s.queues, log)
    case Some(key) =>
      var previous := if key in s.queues then Some(s.queues[key]) else None;
      State(s.requests + [Request(c, Some(key), previous, recorded, Waiting, false, false)], s.queues[key := i], log)
  }

  /** Is some request of the conversation still queued? */
  predicate Active(s: State, a: Agent, conversation: string) {
    exists key :: key in s.queues && Covers(Prefix(a, conversation), key)
  }

  function Without(log: seq<Turn>, a: Agent, conversation: string): seq<Turn> {
    if log == [] then []
    else
      var front, last := Without(log[..|log| - 1], a, conversation), log[|log| - 1];
      if last.agent == a && last.conversation == Some(conversation) then front else front + [last]
  }

  function DeleteStep(s: State, a: Agent, conversation: string): State {
    if Active(s, a, conversation) then s else s.(log := Without(s.log, a, conversation))
  }

  function CleanStep(s: State, i: nat): State
    requires CanClean(s, i)
  {
    var key := s.requests[i].key.value;
    State(s.requests[i := s.requests[i].(cleaned := true)],
          if key in s.queues && s.queues[key] == i then s.queues - {key} else s.queues,
          s.log)
  }

  function CloseStep(s: State, i: nat, recorded: bool): State
    requires CanClose(s, i)
  {
    State(s.requests[i := s.requests[i].(closed := true)],
          s.queues,
          if recorded then s.log + [TurnOf(i, s.requests[i].chat, true)] else s.log)
  }

  function Step(s: State, e: Event): State
    requires Enabled(s, e)
  {
    match e
    case Arrive(c, recorded) => ArriveStep(s, c, recorded)
    case Delete(a, conversation) => DeleteStep(s, a, conversation)
    case Settle(i, ok) => s.(requests := s.requests[i := s.requests[i].(phase := Settled(ok))])
    case Begin(i) => s.(requests := s.requests[i := s.requests[i].(phase := Running)])
    case Clean(i) => CleanStep(s, i)
    case Close(i, recorded) => CloseStep(s, i, recorded)
  }

  ghost predicate Reaches(s: State, events: seq<Event>, t: State)
    decreases |events|
  {
    if events == [] then s == t
    else Enabled(s, events[0]) && Reaches(Step(s, events[0]), events[1..], t)
  }

  lemma MapSize<K, V>(part: map<K, V>, whole: map<K, V>)
    requires part.Keys <= whole.Keys
    ensures |part| <= |whole|
  {
    SubsetSize(part.Keys, whole.Keys);
    assert |part| == |part.Keys| && |whole| == |whole.Keys|;
  }

  // ---------------------------------------------------------------- the bridge

  class Bridge {
    var requests: seq<Request>
    var queues: map<string, nat>
    var log: seq<Turn>
    var sessions: map<string, string>

    ghost function View(): State
      reads this`requests, this`queues, this`log
    {
      State(requests, queues, log)
    }

    constructor ()
      ensures View() == INITIAL && sessions == map[]
    {
      requests, queues, log, sessions := [], map[], [], map[];
    }

    /** The handler's span up to its `await`: the pending record and `enqueueSession`. */
    method HandleChat(c: Chat, recorded: bool) returns (i: nat)
      modifies this`requests, this`queues, this`log
      ensures View() == Step(old(View()), Arrive(c, recorded)) && i == old(|requests|)
      ensures log == old(log) + if recorded then [Turn(i, c.agent, c.conversation, false)] else []
    {
      i := |requests|;
      if recorded { log := log + [TurnOf(i, c, false)]; }
      var key := SessionKey(c);
      if key.None? {
        requests := requests + [Request(c, None, None, recorded, Running, false, false)];
      } else {
        var previous := if key.value in queues then Some(queues[key.value]) else None;
        requests := requests + [Request(c, key, previous, recorded, Waiting, false, false)];
        queues := queues[key.value := i];
      }
    }

    /** The `finally` callback: the key is dropped only if this promise is still the tail. */
    method CleanUp(i: nat)
      requires CanClean(View(), i)
      modifies this`requests, this`queues
      ensures View() == Step(old(View()), Clean(i))
    {
      var key := requests[i].key.value;
      requests := requests[i := requests[i].(cleaned := true)];
      if key in queues && queues[key] == i { queues := queues - {key}; }
    }

    /** The handler resumes and appends its final turn. */
    method Finish(i: nat, recorded: bool)
      requires CanClose(View(), i)
      modifies this`requests, this`log
      ensures View() == Step(old(View()), Close(i, recorded))
      ensures var chat := old(requests)[i].chat;
        log == old(log) + if recorded then [Turn(i, chat.agent, chat.conversation, true)] else []
    {
      if recorded { log := log + [TurnOf(i, requests[i].chat, true)]; }
      requests := requests[i := requests[i].(closed := true)];
    }

    /**
     The DELETE branch: 409 and no change while some key of the conversation is queued; otherwise
     its turns and its stored sessions go, and are counted.
     */
    method HandleDelete(a: Agent, conversation: string)
      returns (status: nat, clearedTurns: nat, clearedSessions: nat)
      requires Quiet(View())
      modifies this`log, this`sessions
      ensures View() == Step(old(View()), Delete(a, conversation))
      ensures status == if Active(old(View()), a, conversation) then 409 else 200
      ensures sessions
           == if status == 409 then old(sessions) else Uncovered(old(sessions), Prefix(a, conversation))
      ensures clearedTurns + |log| == |old(log)| && clearedSessions + |sessions| == |old(sessions)|
    {
      if exists key :: key in queues && Covers(Prefix(a, conversation), key) { return 409, 0, 0; }
      var retained: seq<Turn> := [];
      for j := 0 to |log|
        invariant retained == Without(log[..j], a, conversation) && |retained| <= j
      {
        assert log[..j + 1][..j] == log[..j];
        if !(log[j].agent == a && log[j].conversation == Some(conversation)) { retained := retained + [log[j]]; }
      }
      assert log[..|log|] == log;
      clearedTurns := |log| - |retained|;
      log := retained;
      var kept := Uncovered(sessions, Prefix(a, conversation));
      MapSize(kept, sessions);
      clearedSessions := |sessions| - |kept|;
      sessions := kept;
      status := 200;
    }
  }
}
