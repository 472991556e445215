/**
 The shared turn log of ia-bridge/history.js: one JSON record a line, read as an upsert by id,
 cleared by rewriting the file without one conversation.

 `JSON.parse` is a parameter `read`; the proofs use only that it ignores a carriage return at
 the end of a line (`ReadsJson`).
 */
module TurnLog {
  import opened Common
  import opened SessionLines
  import Bridge = SessionBridge

  const RETURN: Byte := 13

  /** A record; `id` is None when it is missing or falsy, `body` stands for the remaining members. */
  datatype Turn = Turn(id: Option<string>, agent: Option<string>, conversation: Option<string>, body: string)

  /** What a line is: nothing but space, text that is no record (JSON `null` included), or a record. */
  datatype Reading = Blank | Malformed | Record(turn: Turn)

  ghost predicate ReadsJson(read: Bytes -> Reading) {
    read([]) == Blank && forall l :: read(l + [RETURN]) == read(l)
  }

  // ---------------------------------------------------------------- lines and their records

  function Strip(line: Bytes): Bytes {
    if line != [] && line[|line| - 1] == RETURN then line[..|line| - 1] else line
  }

  /** `split(/\r?\n/)`: a carriage return belongs to the newline that follows it. */
  function SplitLines(contents: Bytes): (r: seq<Bytes>)
    ensures |r| == |Segments(contents)|
  {
    StripLines(Segments(contents))
  }

  /** The carriage returns that a newline follows go. */
  function StripLines(segments: seq<Bytes>): (r: seq<Bytes>)
    ensures |r| == |segments|
  {
    seq(|segments|, i requires 0 <= i < |segments| =>
      if i < |segments| - 1 then Strip(segments[i]) else segments[i])
  }

  function Records(read: Bytes -> Reading, lines: seq<Bytes>): seq<Turn> {
    if lines == [] then []
    else
      var front, last := Records(read, lines[..|lines| - 1]), read(lines[|lines| - 1]);
      if last.Record? then front + [last.turn] else front
  }

  /** All records of a log, in file order. */
  function Turns(read: Bytes -> Reading, contents: Bytes): seq<Turn> { Records(read, SplitLines(contents)) }

  lemma RecordsSnoc(read: Bytes -> Reading, lines: seq<Bytes>, line: Bytes)
    ensures Records(read, lines + [line]) ==
      if read(line).Record? then Records(read, lines) + [read(line).turn] else Records(read, lines)
  {
    Drop(lines, [line]);
  }

  lemma {:induction false} RecordsConcat(read: Bytes -> Reading, a: seq<Bytes>, b: seq<Bytes>)
    ensures Records(read, a + b) == Records(read, a) + Records(read, b)
  {
    if b == [] {
      EmptyConcat(a);
      EmptyConcat(Records(read, a));
    } else {
      var front, last := b[..|b| - 1], b[|b| - 1];
      RecordsConcat(read, a, front);
      assert b == front + [last];
      Assoc(a, front, [last]);
      RecordsSnoc(read, a + front, last);
      RecordsSnoc(read, front, last);
      if read(last).Record? {
        Assoc(Records(read, a), Records(read, front), [read(last).turn]);
      }
    }
  }

  lemma {:induction false} RecordsAgree(read: Bytes -> Reading, a: seq<Bytes>, b: seq<Bytes>)
    requires |a| == |b| && forall i :: 0 <= i < |a| ==> read(a[i]) == read(b[i])
    ensures Records(read, a) == Records(read, b)
  {
    if a != [] {
      RecordsAgree(read, a[..|a| - 1], b[..|b| - 1]);
    }
  }

  lemma StripReadsSame(read: Bytes -> Reading, line: Bytes)
    requires ReadsJson(read)
    ensures read(Strip(line)) == read(line)
  {
    if line != [] && line[|line| - 1] == RETURN {
      assert line == Strip(line) + [RETURN];
    }
  }

  /** The carriage returns that the split takes away make no difference to what is read. */
  lemma TurnsOfSegments(read: Bytes -> Reading, contents: Bytes)
    requires ReadsJson(read)
    ensures Turns(read, contents) == Records(read, Segments(contents))
  {
    forall i | 0 <= i < |Segments(contents)|
      ensures read(SplitLines(contents)[i]) == read(Segments(contents)[i])
    {
      StripReadsSame(read, Segments(contents)[i]);
    }
    RecordsAgree(read, SplitLines(contents), Segments(contents));
  }

  lemma {:induction false} SegmentsConcat(a: Bytes, b: Bytes)
    ensures Segments(a + [NEWLINE] + b) == Segments(a) + Segments(b)
  {
    if b == [] {
      AppendNewline(a);
      EmptyConcat(a + [NEWLINE]);
    } else {
      var front, c := b[..|b| - 1], b[|b| - 1];
      SegmentsConcat(a, front);
      assert b == front + [c];
      Assoc(a + [NEWLINE], front, [c]);
      SegmentsOneMore(a + [NEWLINE] + front, c);
      SegmentsOneMore(front, c);
      LengthenLater(Segments(a), Segments(front), c);
    }
  }

  function Lengthen(segments: seq<Bytes>, c: Byte): seq<Bytes>
    requires segments != []
  {
    if c == NEWLINE then segments + [[]]
    else segments[..|segments| - 1] + [segments[|segments| - 1] + [c]]
  }

  lemma SegmentsOneMore(s: Bytes, c: Byte)
    ensures Segments(s + [c]) == Lengthen(Segments(s), c)
  {
    Drop(s, [c]);
  }

  lemma LengthenLater(a: seq<Bytes>, b: seq<Bytes>, c: Byte)
    requires b != []
    ensures Lengthen(a + b, c) == a + Lengthen(b, c)
  {}

  /** A newline separates two logs: what is read is what is read of each. */
  lemma TurnsConcat(read: Bytes -> Reading, a: Bytes, b: Bytes)
    requires ReadsJson(read)
    ensures Turns(read, a + [NEWLINE] + b) == Turns(read, a) + Turns(read, b)
  {
    TurnsOfSegments(read, a + [NEWLINE] + b);
    TurnsOfSegments(read, a);
    TurnsOfSegments(read, b);
    SegmentsConcat(a, b);
    RecordsConcat(read, Segments(a), Segments(b));
  }

  lemma TurnsOfLine(read: Bytes -> Reading, line: Bytes)
    requires NEWLINE !in line
    ensures Turns(read, line) == if read(line).Record? then [read(line).turn] else []
  {
    SegmentsOfPlain(line);
    assert SplitLines(line) == [line];
    RecordsSnoc(read, [], line);
    EmptyConcat([line]);
  }

  /** A partly written final line leaves every earlier turn readable. */
  lemma TruncatedTailKeepsTurns(read: Bytes -> Reading, contents: Bytes, partial: Bytes)
    requires ReadsJson(read) && NEWLINE !in partial && read(partial) == Malformed
    ensures Turns(read, contents + [NEWLINE] + partial) == Turns(read, contents + [NEWLINE]) == Turns(read, contents)
  {
    TurnsConcat(read, contents, partial);
    TurnsConcat(read, contents, []);
    TurnsOfLine(read, partial);
    TurnsOfLine(read, []);
    EmptyConcat(contents + [NEWLINE]);
    EmptyConcat(Turns(read, contents));
  }

  // ---------------------------------------------------------------- readTurns

  /** A missing or empty filter lets everything through. */
  predicate Wants(filter: Option<string>, value: Option<string>) {
    filter.None? || filter.value == "" || value == filter
  }

  function Select(turns: seq<Turn>, agent: Option<string>, conversation: Option<string>): seq<Turn> {
    if turns == [] then []
    else
      var front, last := Select(turns[..|turns| - 1], agent, conversation), turns[|turns| - 1];
      if Wants(agent, last.agent) && Wants(conversation, last.conversation) then front + [last] else front
  }

  lemma SelectSnoc(turns: seq<Turn>, t: Turn, agent: Option<string>, conversation: Option<string>)
    ensures Select(turns + [t], agent, conversation) ==
      if Wants(agent, t.agent) && Wants(conversation, t.conversation)
      then Select(turns, agent, conversation) + [t] else Select(turns, agent, conversation)
  {
    Drop(turns, [t]);
  }

  /** What a read asks for: an agent or a conversation that is given and not empty must be the turn's. */
  function Asked(agent: Option<string>, conversation: Option<string>): Turn -> bool {
    (t: Turn) =>
      && (agent in {None, Some("")} || t.agent == agent)
      && (conversation in {None, Some("")} || t.conversation == conversation)
  }

  /** The selected turns are those that were asked for, each in its place. */
  lemma {:induction false} SelectKeepsAsked(turns: seq<Turn>, agent: Option<string>, conversation: Option<string>)
    returns (at: seq<int>)
    ensures Kept(Select(turns, agent, conversation), at, turns, Asked(agent, conversation))
  {
    at := [];
    if turns != [] {
      var front, last := turns[..|turns| - 1], turns[|turns| - 1];
      FrontLast(turns);
      at := SelectKeepsAsked(front, agent, conversation);
      at := KeptSnoc(Select(front, agent, conversation), at, front, Asked(agent, conversation), last, turns);
    }
  }

  /** Without a filter everything is selected. */
  lemma {:induction false} SelectAll(turns: seq<Turn>, agent: Option<string>, conversation: Option<string>)
    requires agent in {None, Some("")} && conversation in {None, Some("")}
    ensures Select(turns, agent, conversation) == turns
  {
    if turns != [] {
      SelectAll(turns[..|turns| - 1], agent, conversation);
      FrontLast(turns);
    }
  }

  /** The index of the turn that has an id. */
  function IndexOf(turns: seq<Turn>, id: string): (r: Option<nat>)
    ensures r.Some? ==> r.value < |turns| && turns[r.value].id == Some(id)
    ensures r.None? ==> forall k :: 0 <= k < |turns| ==> turns[k].id != Some(id)
  {
    if turns == [] then None
    else if turns[|turns| - 1].id == Some(id) then Some(|turns| - 1)
    else IndexOf(turns[..|turns| - 1], id)
  }

  function Upsert(turns: seq<Turn>, t: Turn): seq<Turn> {
    if t.id.Some? && IndexOf(turns, t.id.value).Some? then turns[IndexOf(turns, t.id.value).value := t]
    else turns + [t]
  }

  /** Replaying the turns into an ordered map keyed by id. */
  function Replay(turns: seq<Turn>): seq<Turn> {
    if turns == [] then [] else Upsert(Replay(turns[..|turns| - 1]), turns[|turns| - 1])
  }

  lemma ReplaySnoc(turns: seq<Turn>, t: Turn)
    ensures Replay(turns + [t]) == Upsert(Replay(turns), t)
  {
    Drop(turns, [t]);
  }

  /** `slice(-limit)`; a limit of zero takes everything, a negative one drops from the front. */
  function Latest(turns: seq<Turn>, limit: int): seq<Turn> {
    if limit <= 0 then turns[if -limit <= |turns| then -limit else |turns|..]
    else turns[if limit <= |turns| then |turns| - limit else 0..]
  }

  /**
   A positive limit gives the last turns, as many as it allows.  The limit is honoured exactly if it
   is positive or there is nothing to read: zero gives every turn.
   */
  lemma LimitHonouredExactlyWhenPositive(turns: seq<Turn>, limit: nat)
    ensures |Latest(turns, limit)| <= limit <==> limit > 0 || turns == []
    ensures limit > 0 ==>
      && |Latest(turns, limit)| == (if limit <= |turns| then limit else |turns|)
      && turns == turns[..|turns| - |Latest(turns, limit)|] + Latest(turns, limit)
    ensures Latest(turns, 0) == turns
  {
    if 0 < limit <= |turns| {
      assert turns == turns[..|turns| - limit] + turns[|turns| - limit..];
    }
  }

  ghost predicate IdsDistinct(turns: seq<Turn>) {
    forall i, j :: 0 <= i < j < |turns| && turns[i].id.Some? ==> turns[i].id != turns[j].id
  }

  lemma {:induction false} ReplayHasNoRepeatedId(turns: seq<Turn>)
    ensures IdsDistinct(Replay(turns))
  {
    if turns != [] {
      ReplayHasNoRepeatedId(turns[..|turns| - 1]);
    }
  }

  /** The indices at which a turn without id, or with an id not met before, stands. */
  function Firsts(turns: seq<Turn>): (r: seq<nat>)
    ensures forall k :: 0 <= k < |r| ==> r[k] < |turns|
  {
    if turns == [] then []
    else
      var n := |turns| - 1;
      var id := turns[n].id;
      if id.Some? && IndexOf(turns[..n], id.value).Some? then Firsts(turns[..n]) else Firsts(turns[..n]) + [n]
  }

  /** The last turn with the id of turn `i`, or turn `i` itself if it has none. */
  function LastValue(turns: seq<Turn>, i: nat): (r: Turn)
    requires i < |turns|
    ensures r.id == turns[i].id
  {
    if turns[i].id.None? then turns[i] else turns[IndexOf(turns, turns[i].id.value).value]
  }

  lemma IndexOfSnoc(turns: seq<Turn>, t: Turn, id: string)
    ensures IndexOf(turns + [t], id) == if t.id == Some(id) then Some(|turns|) else IndexOf(turns, id)
  {
    Drop(turns, [t]);
  }

  /** First position, last value: the replay lists the ids by first appearance, each with its last record. */
  lemma {:induction false} ReplayIsFirstPositionLastValue(turns: seq<Turn>)
    ensures |Replay(turns)| == |Firsts(turns)|
    ensures forall k :: 0 <= k < |Firsts(turns)| ==> Replay(turns)[k] == LastValue(turns, Firsts(turns)[k])
    ensures forall i :: 0 <= i < |turns| && turns[i].id.Some? ==> IndexOf(Replay(turns), turns[i].id.value).Some?
  {
    if turns != [] {
      var front, t := turns[..|turns| - 1], turns[|turns| - 1];
      ReplayIsFirstPositionLastValue(front);
      assert turns == front + [t];
      ReplayHasNoRepeatedId(front);
      ReplayStep(front, t, Replay(front), Firsts(front));
    }
  }

  lemma ReplayStep(front: seq<Turn>, t: Turn, view: seq<Turn>, firsts: seq<nat>)
    requires |view| == |firsts| && IdsDistinct(view)
    requires forall k :: 0 <= k < |firsts| ==> firsts[k] < |front| && view[k] == LastValue(front, firsts[k])
    requires forall i :: 0 <= i < |front| && front[i].id.Some? ==> IndexOf(view, front[i].id.value).Some?
    ensures var next := if t.id.Some? && IndexOf(front, t.id.value).Some? then firsts else firsts + [|front|];
      && |Upsert(view, t)| == |next|
      && (forall k :: 0 <= k < |next| ==>
           next[k] < |front| + 1 && Upsert(view, t)[k] == LastValue(front + [t], next[k]))
    ensures forall i :: 0 <= i <= |front| && (front + [t])[i].id.Some? ==>
      IndexOf(Upsert(view, t), (front + [t])[i].id.value).Some?
  {
    var turns, after := front + [t], Upsert(view, t);
    forall k | 0 <= k < |view| ensures view[k].id == front[firsts[k]].id {}
    if t.id.Some? {
      var id := t.id.value;
      assert IndexOf(view, id).Some? <==> IndexOf(front, id).Some? by {
        if IndexOf(view, id).Some? {
          assert front[firsts[IndexOf(view, id).value]].id == Some(id);
        }
      }
    }
    forall k | 0 <= k < |view| ensures after[k] == LastValue(turns, firsts[k]) {
      if front[firsts[k]].id.Some? {
        IndexOfSnoc(front, t, front[firsts[k]].id.value);
      }
    }
    forall i | 0 <= i < |turns| && turns[i].id.Some? ensures IndexOf(after, turns[i].id.value).Some? {
      if i == |front| {
        assert exists k :: 0 <= k < |after| && after[k].id == t.id by {
          if IndexOf(view, t.id.value).Some? { assert after[IndexOf(view, t.id.value).value] == t; }
          else { assert after[|view|] == t; }
        }
      } else {
        var k := IndexOf(view, front[i].id.value).value;
        assert after[k].id == view[k].id;
      }
    }
  }

  // ---------------------------------------------------------------- clearTurns

  predicate Concerns(t: Turn, agent: string, conversation: string) {
    t.agent == Some(agent) && t.conversation == Some(conversation)
  }

  /** The lines that the rewrite keeps: blank lines go, malformed lines stay. */
  function Retained(read: Bytes -> Reading, lines: seq<Bytes>, agent: string, conversation: string): seq<Bytes> {
    if lines == [] then []
    else
      var front := Retained(read, lines[..|lines| - 1], agent, conversation);
      var last := lines[|lines| - 1];
      match read(last)
      case Blank => front
      case Malformed => front + [last]
      case Record(t) => if Concerns(t, agent, conversation) then front else front + [last]
  }

  ghost predicate PlainLines(lines: seq<Bytes>) { forall line :: line in lines ==> NEWLINE !in line }

  function Text(lines: seq<Bytes>): Bytes {
    if lines == [] then [] else Text(lines[..|lines| - 1]) + lines[|lines| - 1] + [NEWLINE]
  }

  function Without(turns: seq<Turn>, agent: string, conversation: string): seq<Turn> {
    if turns == [] then []
    else
      var front, last := Without(turns[..|turns| - 1], agent, conversation), turns[|turns| - 1];
      if Concerns(last, agent, conversation) then front else front + [last]
  }

  /** A line of the log is a turn of the bridge, as far as agent and conversation go. */
  predicate Shows(t: Turn, b: Bridge.Turn) {
    t.agent == Some(Bridge.AgentName(b.agent)) && t.conversation == b.conversation
  }

  ghost predicate ShowsAll(turns: seq<Turn>, log: seq<Bridge.Turn>) {
    |turns| == |log| && forall i :: 0 <= i < |turns| ==> Shows(turns[i], log[i])
  }

  /** Clearing a conversation is the same in the file and in the log of the bridge's runs. */
  lemma {:induction false} ClearsAgree(
    turns: seq<Turn>, log: seq<Bridge.Turn>, agent: Bridge.Agent, conversation: string)
    requires ShowsAll(turns, log)
    ensures ShowsAll(Without(turns, Bridge.AgentName(agent), conversation), Bridge.Without(log, agent, conversation))
  {
    if turns != [] {
      var n := |turns| - 1;
      ClearsAgree(turns[..n], log[..n], agent, conversation);
      NamesDiffer(log[n].agent, agent);
      ShowsSnoc(
        Without(turns[..n], Bridge.AgentName(agent), conversation), Bridge.Without(log[..n], agent, conversation),
        turns[n], log[n]);
    }
  }

  lemma ShowsSnoc(turns: seq<Turn>, log: seq<Bridge.Turn>, t: Turn, b: Bridge.Turn)
    requires ShowsAll(turns, log) && Shows(t, b)
    ensures ShowsAll(turns + [t], log + [b])
  {}

  lemma NamesDiffer(a: Bridge.Agent, b: Bridge.Agent)
    ensures Bridge.AgentName(a) == Bridge.AgentName(b) <==> a == b
  {
    assert Bridge.AgentName(Bridge.Claude)[1] == 'l' && Bridge.AgentName(Bridge.Codex)[1] == 'o';
  }

  lemma WithoutSnoc(turns: seq<Turn>, t: Turn, agent: string, conversation: string)
    ensures Without(turns + [t], agent, conversation) ==
      if Concerns(t, agent, conversation) then Without(turns, agent, conversation)
      else Without(turns, agent, conversation) + [t]
  {
    Drop(turns, [t]);
  }

  /** Lines written out read back as those lines. */
  lemma {:induction false} TextSegments(lines: seq<Bytes>)
    requires PlainLines(lines)
    ensures Segments(Text(lines)) == lines + [[]]
  {
    if lines != [] {
      var front, last := lines[..|lines| - 1], lines[|lines| - 1];
      TextSegments(front);
      LineSegments(Text(front), front, last);
      assert front + [last] == lines;
    }
  }

  lemma LineSegments(text: Bytes, front: seq<Bytes>, last: Bytes)
    requires Segments(text) == front + [[]] && NEWLINE !in last
    ensures Segments(text + last + [NEWLINE]) == front + [last] + [[]]
  {
    AppendPlain(text, last);
    Drop(front, [[]]);
    EmptyConcat(last);
    AppendNewline(text + last);
  }

  lemma {:induction false} RetainedPlain(read: Bytes -> Reading, lines: seq<Bytes>, agent: string, conversation: string)
    requires PlainLines(lines)
    ensures PlainLines(Retained(read, lines, agent, conversation))
  {
    if lines != [] {
      RetainedPlain(read, lines[..|lines| - 1], agent, conversation);
    }
  }

  lemma {:induction false} RetainedRecords(
    read: Bytes -> Reading, lines: seq<Bytes>, agent: string, conversation: string)
    ensures Records(read, Retained(read, lines, agent, conversation))
         == Without(Records(read, lines), agent, conversation)
  {
    if lines != [] {
      var front, last := lines[..|lines| - 1], lines[|lines| - 1];
      RetainedRecords(read, front, agent, conversation);
      RecordsSnoc(read, Retained(read, front, agent, conversation), last);
      if read(last).Record? {
        WithoutSnoc(Records(read, front), read(last).turn, agent, conversation);
      }
    }
  }

  lemma SplitLinesPlain(contents: Bytes)
    ensures PlainLines(SplitLines(contents))
  {
    SegmentsPlain(contents);
  }

  function Rewritten(read: Bytes -> Reading, contents: Bytes, agent: string, conversation: string): Bytes {
    Text(Retained(read, SplitLines(contents), agent, conversation))
  }

  /** The rewritten file holds exactly the turns that are not of the conversation, in their order. */
  lemma ClearedTurns(read: Bytes -> Reading, contents: Bytes, agent: string, conversation: string)
    requires ReadsJson(read)
    ensures Turns(read, Rewritten(read, contents, agent, conversation))
         == Without(Turns(read, contents), agent, conversation)
  {
    var lines := SplitLines(contents);
    var kept := Retained(read, lines, agent, conversation);
    SplitLinesPlain(contents);
    RetainedPlain(read, lines, agent, conversation);
    TextSegments(kept);
    TurnsOfSegments(read, Text(kept));
    RecordsSnoc(read, kept, []);
    RetainedRecords(read, lines, agent, conversation);
  }

  lemma {:induction false} SelectWithout(
    turns: seq<Turn>, agent: string, conversation: string, a: Option<string>, c: Option<string>)
    ensures !(Wants(a, Some(agent)) && Wants(c, Some(conversation))) ==>
      Select(Without(turns, agent, conversation), a, c) == Select(turns, a, c)
    ensures agent != "" && conversation != "" && a == Some(agent) && c == Some(conversation) ==>
      Select(Without(turns, agent, conversation), a, c) == []
  {
    if turns != [] {
      var front, last := turns[..|turns| - 1], turns[|turns| - 1];
      SelectWithout(front, agent, conversation, a, c);
      SelectSnoc(Without(front, agent, conversation), last, a, c);
    }
  }

  /** Turns whose ids differ replay as themselves. */
  lemma {:induction false} DistinctReplay(turns: seq<Turn>)
    requires IdsDistinct(turns)
    ensures Replay(turns) == turns
  {
    if turns != [] {
      var n := |turns| - 1;
      DistinctReplay(turns[..n]);
      FrontLast(turns);
      assert forall i :: 0 <= i < n ==> turns[..n][i] == turns[i];
    }
  }

  /** A read without filters lists every record of a log without repeated ids. */
  lemma UnfilteredView(read: Bytes -> Reading, contents: Bytes, agent: Option<string>, conversation: Option<string>)
    requires agent in {None, Some("")} && conversation in {None, Some("")} && IdsDistinct(Turns(read, contents))
    ensures View(read, contents, agent, conversation) == Turns(read, contents)
  {
    SelectAll(Turns(read, contents), agent, conversation);
    DistinctReplay(Turns(read, contents));
  }

  /** What `readTurns` gives for a file. */
  function View(read: Bytes -> Reading, contents: Bytes, agent: Option<string>, conversation: Option<string>)
    : seq<Turn>
  {
    Replay(Select(Turns(read, contents), agent, conversation))
  }

  /**
   After clearing a conversation its view is empty, and every view that does not include the
   conversation is what it was.
   */
  lemma ClearedView(
    read: Bytes -> Reading, contents: Bytes, agent: string, conversation: string, a: Option<string>, c: Option<string>)
    requires ReadsJson(read) && agent != "" && conversation != ""
    ensures var after := Rewritten(read, contents, agent, conversation);
      && View(read, after, Some(agent), Some(conversation)) == []
      && (!(Wants(a, Some(agent)) && Wants(c, Some(conversation))) ==>
           View(read, after, a, c) == View(read, contents, a, c))
  {
    ClearedTurns(read, contents, agent, conversation);
    SelectWithout(Turns(read, contents), agent, conversation, Some(agent), Some(conversation));
    SelectWithout(Turns(read, contents), agent, conversation, a, c);
  }

  // ---------------------------------------------------------------- appendTurn

  predicate JsonSpace(text: Bytes) { forall i :: 0 <= i < |text| ==> text[i] in {9, 10, 13, 32} }

  /**
   A serialized record: it has no newline, reads back, and stays readable behind an unfinished
   line exactly when that line is only space.
   */
  ghost predicate Serializes(read: Bytes -> Reading, line: Bytes, t: Turn) {
    && NEWLINE !in line
    && (forall space: Bytes :: JsonSpace(space) ==> read(space) == Blank)
    && forall before: Bytes :: read(before + line) == if JsonSpace(before) then Record(t) else Malformed
  }

  /**
   Appending a turn adds exactly that turn, if and only if the file does not end in the middle
   of a line; behind an unfinished line the appended turn is lost.
   */
  lemma AppendAddsTurnExactlyAtLineStart(read: Bytes -> Reading, contents: Bytes, line: Bytes, t: Turn)
    requires ReadsJson(read) && Serializes(read, line, t)
    ensures Turns(read, contents + line + [NEWLINE]) == Turns(read, contents) + [t] <==> JsonSpace(Tail(contents))
    ensures !JsonSpace(Tail(contents)) ==>
      Turns(read, contents + line + [NEWLINE]) == Records(read, Complete(contents))
  {
    var tail, earlier := Tail(contents), Records(read, Complete(contents));
    var after := contents + line + [NEWLINE];
    TurnsOfSegments(read, contents);
    TurnsOfSegments(read, after);
    assert Segments(contents) == Complete(contents) + [tail];
    AppendPlain(contents, line);
    AppendNewline(contents + line);
    assert Segments(after) == (Complete(contents) + [tail + line]) + [[]];
    RecordsSnoc(read, Complete(contents) + [tail + line], []);
    RecordsSnoc(read, Complete(contents), tail + line);
    RecordsSnoc(read, Complete(contents), tail);
  }

  // ---------------------------------------------------------------- the store

  /** The map `indexesById` gives the place of every id in the list. */
  ghost predicate Indexed(list: seq<Turn>, indexes: map<string, int>) {
    && (forall id :: id in indexes ==> 0 <= indexes[id] < |list| && list[indexes[id]].id == Some(id))
    && (forall k :: 0 <= k < |list| && list[k].id.Some? ==>
         list[k].id.value in indexes && indexes[list[k].id.value] == k)
  }

  lemma UpsertIndexed(list: seq<Turn>, indexes: map<string, int>, t: Turn)
    requires Indexed(list, indexes)
    ensures t.id.Some? && t.id.value in indexes ==>
      Upsert(list, t) == list[indexes[t.id.value] := t] && Indexed(Upsert(list, t), indexes)
    ensures t.id.Some? && t.id.value !in indexes ==>
      Upsert(list, t) == list + [t] && Indexed(Upsert(list, t), indexes[t.id.value := |list|])
    ensures t.id.None? ==> Upsert(list, t) == list + [t] && Indexed(Upsert(list, t), indexes)
  {}

  function Listed(
    read: Bytes -> Reading, lines: seq<Bytes>, agent: Option<string>, conversation: Option<string>): seq<Turn>
  {
    Replay(Select(Records(read, lines), agent, conversation))
  }

  lemma ListedStep(
    read: Bytes -> Reading, lines: seq<Bytes>, i: nat, agent: Option<string>, conversation: Option<string>)
    requires i < |lines|
    ensures Listed(read, lines[..i + 1], agent, conversation) ==
      var list, reading := Listed(read, lines[..i], agent, conversation), read(lines[i]);
      if reading.Record? && Wants(agent, reading.turn.agent) && Wants(conversation, reading.turn.conversation)
      then Upsert(list, reading.turn) else list
  {
    assert lines[..i + 1] == lines[..i] + [lines[i]];
    RecordsSnoc(read, lines[..i], lines[i]);
    var reading := read(lines[i]);
    if reading.Record? {
      SelectSnoc(Records(read, lines[..i]), reading.turn, agent, conversation);
      ReplaySnoc(Select(Records(read, lines[..i]), agent, conversation), reading.turn);
    }
  }

  /** How many records the clear takes away. */
  function Concerned(read: Bytes -> Reading, lines: seq<Bytes>, agent: string, conversation: string): int {
    var records := Records(read, lines); |records| - |Without(records, agent, conversation)|
  }

  lemma ClearStep(read: Bytes -> Reading, lines: seq<Bytes>, i: nat, agent: string, conversation: string)
    requires i < |lines|
    ensures var reading := read(lines[i]);
      var gone := reading.Record? && Concerns(reading.turn, agent, conversation);
      && Retained(read, lines[..i + 1], agent, conversation)
         == Retained(read, lines[..i], agent, conversation) + (if gone || reading.Blank? then [] else [lines[i]])
      && Concerned(read, lines[..i + 1], agent, conversation)
         == Concerned(read, lines[..i], agent, conversation) + if gone then 1 else 0
  {
    assert lines[..i + 1] == lines[..i] + [lines[i]];
    Drop(lines[..i], [lines[i]]);
    RecordsSnoc(read, lines[..i], lines[i]);
    if read(lines[i]).Record? {
      WithoutSnoc(Records(read, lines[..i]), read(lines[i]).turn, agent, conversation);
    }
    EmptyConcat(Retained(read, lines[..i], agent, conversation));
  }

  class SharedHistoryStore {
    const read: Bytes -> Reading
    /** The file `turns.jsonl`; None when it does not exist. */
    var turns: Option<Bytes>
    var sessions: map<string, string>

    constructor (read: Bytes -> Reading)
      ensures this.read == read && turns == None && sessions == map[]
    {
      this.read := read;
      turns, sessions := None, map[];
    }

    /** The log as text; a missing file reads as an empty one. */
    function Contents(): Bytes
      reads this
    {
      if turns.Some? then turns.value else []
    }

    /** Adds exactly the turn if the file ends at the start of a line, and loses it otherwise. */
    method AppendTurn(turn: Turn, stringify: Turn -> Bytes)
      modifies this`turns
      ensures turns.Some? && Contents() == old(Contents()) + stringify(turn) + [NEWLINE]
      ensures ReadsJson(read) && Serializes(read, stringify(turn), turn) ==>
        && (Turns(read, Contents()) == Turns(read, old(Contents())) + [turn] <==> JsonSpace(Tail(old(Contents()))))
        && (!JsonSpace(Tail(old(Contents()))) ==> Turns(read, Contents()) == Records(read, Complete(old(Contents()))))
        && Tail(Contents()) == []
    {
      var line := stringify(turn);
      if ReadsJson(read) && Serializes(read, line, turn) {
        AppendAddsTurnExactlyAtLineStart(read, Contents(), line, turn);
        AppendNewline(Contents() + line);
      }
      turns := Some(Contents() + line + [NEWLINE]);
    }

    method ReadTurns(agent: Option<string>, conversation: Option<string>, limit: int) returns (r: seq<Turn>)
      ensures r == if turns.None? then [] else Latest(View(read, turns.value, agent, conversation), limit)
    {
      if turns.None? { return []; }
      var list: seq<Turn> := [];
      var indexesById: map<string, int> := map[];
      var lines := SplitLines(turns.value);
      for i := 0 to |lines|
        invariant list == Listed(read, lines[..i], agent, conversation)
        invariant Indexed(list, indexesById)
      {
        ListedStep(read, lines, i, agent, conversation);
        var reading := read(lines[i]);
        if reading.Record? && Wants(agent, reading.turn.agent) && Wants(conversation, reading.turn.conversation) {
          var turn := reading.turn;
          UpsertIndexed(list, indexesById, turn);
          if turn.id.Some? && turn.id.value in indexesById {
            list := list[indexesById[turn.id.value] := turn];
          } else {
            if turn.id.Some? { indexesById := indexesById[turn.id.value := |list|]; }
            list := list + [turn];
          }
        }
      }
      assert lines[..|lines|] == lines;
      return Latest(list, limit);
    }

    method ClearTurns(agent: string, conversation: string) returns (removed: nat)
      modifies this`turns
      ensures old(turns).None? || agent == "" || conversation == "" ==> turns == old(turns) && removed == 0
      ensures old(turns).Some? && agent != "" && conversation != "" ==>
        && turns == Some(Rewritten(read, old(turns).value, agent, conversation))
        && removed == Concerned(read, SplitLines(old(turns).value), agent, conversation)
    {
      if agent == "" || conversation == "" || turns.None? { return 0; }
      removed := 0;
      var retained: seq<Bytes> := [];
      var lines := SplitLines(turns.value);
      for i := 0 to |lines|
        invariant retained == Retained(read, lines[..i], agent, conversation)
        invariant removed == Concerned(read, lines[..i], agent, conversation)
      {
        ClearStep(read, lines, i, agent, conversation);
        var reading := read(lines[i]);
        if reading.Record? && Concerns(reading.turn, agent, conversation) {
          removed := removed + 1;
        } else if !reading.Blank? {
          retained := retained + [lines[i]];
        }
      }
      assert lines[..|lines|] == lines;
      turns := Some(Text(retained));
    }

    method DeleteSessionsForConversation(agent: string, conversation: string) returns (removed: nat)
      modifies this`sessions
      ensures agent == "" || conversation == "" ==> sessions == old(sessions) && removed == 0
      ensures agent != "" && conversation != "" ==>
        && sessions == Bridge.Uncovered(old(sessions), agent + ":" + conversation)
        && removed + |sessions| == |old(sessions)|
    {
      if agent == "" || conversation == "" { return 0; }
      var prefix := agent + ":" + conversation;
      removed := 0;
      var todo := sessions.Keys;
      while todo != {}
        invariant todo <= sessions.Keys <= old(sessions).Keys
        invariant forall key :: key in sessions ==> sessions[key] == old(sessions)[key]
        invariant forall key :: key in old(sessions) && key !in todo ==>
          (key in sessions <==> !Bridge.Covers(prefix, key))
        invariant removed + |sessions| == |old(sessions)|
        decreases todo
      {
        var key :| key in todo;
        if Bridge.Covers(prefix, key) {
          SizeWithout(sessions, key);
          sessions := sessions - {key};
          removed := removed + 1;
        }
        todo := todo - {key};
      }
    }
  }

  lemma SizeWithout(m: map<string, string>, key: string)
    requires key in m
    ensures |m - {key}| + 1 == |m|
  {
    assert m == (m - {key})[key := m[key]];
  }

  // ---------------------------------------------------------------- lines and limits spelled out

  /** A line ends at a newline, or at a carriage return in front of it. */
  lemma SplitAtLineEnd(line: Bytes, rest: Bytes)
    requires NEWLINE !in line
    ensures SplitLines(line + [13, 10] + rest) == [line] + SplitLines(rest)
    ensures (line == [] || line[|line| - 1] != 13) ==> SplitLines(line + [10] + rest) == [line] + SplitLines(rest)
  {
    SplitFirst(line + [13], rest);
    assert line + [13] + [10] == line + [13, 10];
    assert Strip(line + [13]) == line;
    SplitFirst(line, rest);
  }

  lemma SplitFirst(line: Bytes, rest: Bytes)
    requires NEWLINE !in line
    ensures SplitLines(line + [10] + rest) == [Strip(line)] + SplitLines(rest)
  {
    SegmentsConcat(line, rest);
    SegmentsOfPlain(line);
    StripFirst(line, Segments(rest));
  }

  lemma StripFirst(line: Bytes, more: seq<Bytes>)
    requires more != []
    ensures StripLines([line] + more) == [Strip(line)] + StripLines(more)
  {
    var all, stripped := [line] + more, [Strip(line)] + StripLines(more);
    forall k | 0 <= k < |all| ensures StripLines(all)[k] == stripped[k] {
      if k > 0 { assert all[k] == more[k - 1]; }
    }
  }

  /** A negative limit drops turns from the front, as `slice` does. */
  lemma NegativeLimitDrops(turns: seq<Turn>, n: nat)
    requires n <= |turns|
    ensures turns[..n] + Latest(turns, -(n as int)) == turns
  {}

  /** Space is blank, tab, line feed and carriage return. */
  lemma SpaceBytes(b: Byte)
    ensures JsonSpace([]) && (JsonSpace([b]) <==> b as int == 32 || b as int == 9 || b as int == 10 || b as int == 13)
  {
    assert [b][0] == b;
  }

  /** The lines that a clear keeps: those that hold another record or no record at all, each in its place. */
  lemma {:induction false} RetainedInOrder(
    read: Bytes -> Reading, lines: seq<Bytes>, agent: string, conversation: string) returns (at: seq<int>)
    ensures Kept(Retained(read, lines, agent, conversation), at, lines, Stays(read, agent, conversation))
  {
    at := [];
    if lines != [] {
      var front, last := lines[..|lines| - 1], lines[|lines| - 1];
      FrontLast(lines);
      at := RetainedInOrder(read, front, agent, conversation);
      at := KeptSnoc(Retained(read, front, agent, conversation), at, front, Stays(read, agent, conversation), last,
                     lines);
    }
  }

  function Stays(read: Bytes -> Reading, agent: string, conversation: string): Bytes -> bool {
    (line: Bytes) =>
      && read(line) != Blank
      && !(read(line).Record? && read(line).turn.agent == Some(agent)
           && read(line).turn.conversation == Some(conversation))
  }

  /** The turns that a clear keeps, each in its place. */
  lemma {:induction false} WithoutInOrder(turns: seq<Turn>, agent: string, conversation: string) returns (at: seq<int>)
    ensures Kept(Without(turns, agent, conversation), at, turns, Other(agent, conversation))
  {
    at := [];
    if turns != [] {
      var front, last := turns[..|turns| - 1], turns[|turns| - 1];
      FrontLast(turns);
      at := WithoutInOrder(front, agent, conversation);
      at := KeptSnoc(Without(front, agent, conversation), at, front, Other(agent, conversation), last, turns);
    }
  }

  function Other(agent: string, conversation: string): Turn -> bool {
    (t: Turn) => !(t.agent == Some(agent) && t.conversation == Some(conversation))
  }
}
