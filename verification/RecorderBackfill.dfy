/**
 Backfilling Recorder history: homeassistant/tools/backfill_public_binding_history.py.

 The database tables are sequences and maps; a timestamp is None where the column is NULL.
 SQLite's `MIN` ignores NULL, `<` is never true of NULL, and `ORDER BY` puts NULL first.
 */
module RecorderBackfill {
  import opened Common

  type Time = Option<real>

  datatype StateRow = StateRow(
    id: int, metadata: int, state: string, changed: Time, reported: Time, updated: Time,
    previous: Option<int>, attributes: Option<int>, origin: int)

  /** `target_entity_id`, `state_mode` and `preserve_attributes` of a binding. */
  datatype Binding = Binding(target: string, mode: string, preserve: bool)

  function StateValue(mode: string, state: string): string {
    if mode == "home_away" then if state == "home" then "home" else "not_home"
    else if mode == "boolean" then if state == "on" then "on" else "off"
    else state
  }

  // ---------------------------------------------------------------- queries

  /** `SELECT MIN(last_updated_ts) FROM states WHERE metadata_id = ?` */
  function MinUpdated(states: seq<StateRow>, metadata: int): (r: Time)
    ensures r.Some? ==> exists i :: 0 <= i < |states| && states[i].metadata == metadata && states[i].updated == r
    ensures forall i :: 0 <= i < |states| && states[i].metadata == metadata && states[i].updated.Some? ==>
      r.Some? && r.value <= states[i].updated.value
  {
    if states == [] then None
    else
      var front, last := MinUpdated(states[..|states| - 1], metadata), states[|states| - 1];
      if last.metadata == metadata && last.updated.Some? && (front.None? || last.updated.value < front.value)
      then last.updated else front
  }

  /** `last_updated_ts < cutoff`, or no condition at all when there is no cutoff. */
  predicate Older(t: Time, cutoff: Time) { cutoff.None? || (t.Some? && t.value < cutoff.value) }

  function Matching(states: seq<StateRow>, metadata: int, cutoff: Time): seq<StateRow> {
    if states == [] then []
    else
      var front, last := Matching(states[..|states| - 1], metadata, cutoff), states[|states| - 1];
      if last.metadata == metadata && Older(last.updated, cutoff) then front + [last] else front
  }

  /** `ORDER BY last_updated_ts, state_id` */
  predicate NotAfter(a: StateRow, b: StateRow) {
    match (a.updated, b.updated)
    case (None, None) => a.id <= b.id
    case (None, Some(_)) => true
    case (Some(_), None) => false
    case (Some(x), Some(y)) => x < y || (x == y && a.id <= b.id)
  }

  function Insert(row: StateRow, sorted: seq<StateRow>): seq<StateRow> {
    if sorted == [] || NotAfter(row, sorted[0]) then [row] + sorted
    else [sorted[0]] + Insert(row, sorted[1..])
  }

  function Sort(rows: seq<StateRow>): seq<StateRow> {
    if rows == [] then [] else Insert(rows[|rows| - 1], Sort(rows[..|rows| - 1]))
  }

  /** The rows to copy: the source's rows that are older than the destination's first, oldest first. */
  function Rows(states: seq<StateRow>, source: int, cutoff: Time): seq<StateRow> {
    Sort(Matching(states, source, cutoff))
  }

  ghost predicate Sorted(rows: seq<StateRow>) { forall i, j :: 0 <= i < j < |rows| ==> NotAfter(rows[i], rows[j]) }

  lemma {:induction false} MatchingMembers(states: seq<StateRow>, metadata: int, cutoff: Time, row: StateRow)
    ensures row in Matching(states, metadata, cutoff) <==>
      row in states && row.metadata == metadata && Older(row.updated, cutoff)
  {
    if states != [] {
      var front, last := states[..|states| - 1], states[|states| - 1];
      MatchingMembers(front, metadata, cutoff, row);
      assert states == front + [last];
    }
  }

  lemma {:induction false} InsertSorted(row: StateRow, sorted: seq<StateRow>)
    requires Sorted(sorted)
    ensures Sorted(Insert(row, sorted)) && |Insert(row, sorted)| == |sorted| + 1
    ensures multiset(Insert(row, sorted)) == multiset(sorted) + multiset{row}
  {
    if sorted != [] {
      HeadTail(sorted);
      if NotAfter(row, sorted[0]) {
        forall i | 0 <= i < |sorted| ensures NotAfter(row, sorted[i]) {
          assert i > 0 ==> NotAfter(sorted[0], sorted[i]);
        }
      } else {
        InsertSorted(row, sorted[1..]);
        var rest := Insert(row, sorted[1..]);
        forall i | 0 <= i < |rest| ensures NotAfter(sorted[0], rest[i]) {
          assert rest[i] in multiset(rest);
          assert rest[i] == row || rest[i] in sorted[1..];
        }
      }
    }
  }

  lemma {:induction false} SortSorts(rows: seq<StateRow>)
    ensures Sorted(Sort(rows)) && |Sort(rows)| == |rows| && multiset(Sort(rows)) == multiset(rows)
  {
    if rows != [] {
      var front, last := rows[..|rows| - 1], rows[|rows| - 1];
      SortSorts(front);
      InsertSorted(last, Sort(front));
      assert rows == front + [last];
    }
  }

  lemma RowsMembers(states: seq<StateRow>, source: int, cutoff: Time, row: StateRow)
    ensures row in Rows(states, source, cutoff) <==>
      row in states && row.metadata == source && Older(row.updated, cutoff)
  {
    var matching := Matching(states, source, cutoff);
    SortSorts(matching);
    MatchingMembers(states, source, cutoff, row);
    assert row in Sort(matching) <==> row in multiset(Sort(matching));
    assert row in matching <==> row in multiset(matching);
  }

  // ---------------------------------------------------------------- copies

  /**
   The inserted rows: one for each source row in order, linked to the row before it, with fresh
   ids from `first` on.  `attributes` gives the attribute row of each.
   */
  ghost predicate Copies(
    copies: seq<StateRow>, rows: seq<StateRow>, destination: int, first: int, mode: string,
    attributes: seq<Option<int>>)
  {
    && |copies| == |rows| == |attributes|
    && forall k :: 0 <= k < |rows| ==>
         copies[k] == StateRow(
           first + k, destination, StateValue(mode, rows[k].state), rows[k].changed, rows[k].reported, rows[k].updated,
           if k == 0 then None else Some(first + k - 1), attributes[k], rows[k].origin)
  }

  /** Copied states precede every state the destination had, and follow one another in time. */
  lemma CopiesComeFirst(
    states: seq<StateRow>, source: int, destination: int, copies: seq<StateRow>, first: int, mode: string,
    attributes: seq<Option<int>>)
    requires Copies(copies, Rows(states, source, MinUpdated(states, destination)), destination, first, mode, attributes)
    ensures forall k, i ::
      0 <= k < |copies| && 0 <= i < |states| && states[i].metadata == destination && states[i].updated.Some? ==>
      copies[k].updated.Some? && copies[k].updated.value < states[i].updated.value
    ensures forall k, n :: 0 <= k < n < |copies| && copies[k].updated.Some? ==>
      copies[n].updated.Some? && copies[k].updated.value <= copies[n].updated.value
    ensures forall k :: 0 < k < |copies| ==> copies[k].previous == Some(copies[k - 1].id)
  {
    var cutoff := MinUpdated(states, destination);
    var rows := Rows(states, source, cutoff);
    SortSorts(Matching(states, source, cutoff));
    forall k | 0 <= k < |rows| ensures Older(rows[k].updated, cutoff) {
      RowsMembers(states, source, cutoff, rows[k]);
    }
    forall k, n | 0 <= k < n < |copies| && copies[k].updated.Some?
      ensures copies[n].updated.Some? && copies[k].updated.value <= copies[n].updated.value
    {
      assert NotAfter(rows[k], rows[n]);
    }
  }

  lemma {:induction false} MinUpdatedConcat(a: seq<StateRow>, b: seq<StateRow>, metadata: int)
    ensures MinUpdated(a + b, metadata).None? <==> MinUpdated(a, metadata).None? && MinUpdated(b, metadata).None?
  {
    if b == [] {
      EmptyConcat(a);
    } else {
      MinUpdatedConcat(a, b[..|b| - 1], metadata);
      assert (a + b)[..|a + b| - 1] == a + b[..|b| - 1];
    }
  }

  /** Nothing was copied, or something that was copied has a timestamp. */
  ghost predicate Settles(rows: seq<StateRow>) {
    rows == [] || exists k :: 0 <= k < |rows| && rows[k].updated.Some?
  }

  /**
   A second run copies nothing, exactly when the first copied nothing or copied a row with a
   timestamp.  When no source row has one, every further run copies all of them again.
   */
  lemma SecondRunCopiesNothing(
    states: seq<StateRow>, source: int, destination: int, copies: seq<StateRow>, first: int, mode: string,
    attributes: seq<Option<int>>)
    requires source != destination
    requires Copies(copies, Rows(states, source, MinUpdated(states, destination)), destination, first, mode, attributes)
    ensures Rows(states + copies, source, MinUpdated(states + copies, destination)) == [] <==>
      Settles(Rows(states, source, MinUpdated(states, destination)))
  {
    var cutoff := MinUpdated(states, destination);
    var rows := Rows(states, source, cutoff);
    var after := states + copies;
    var next := MinUpdated(after, destination);
    var again := Rows(after, source, next);
    if Settles(rows) {
      if again != [] {
        RowsMembers(after, source, next, again[0]);
        assert again[0] in states;
        StillOlder(states, source, destination, copies, first, mode, attributes, again[0]);
      }
    } else {
      assert rows[0].updated.None?;
      RowsMembers(states, source, cutoff, rows[0]);
      MinUpdatedConcat(states, copies, destination);
      RowsMembers(after, source, next, rows[0]);
    }
  }

  /** A source row that is still older than the destination's first row was copied, and came no earlier than it. */
  lemma StillOlder(
    states: seq<StateRow>, source: int, destination: int, copies: seq<StateRow>, first: int, mode: string,
    attributes: seq<Option<int>>, row: StateRow)
    requires source != destination
    requires Copies(copies, Rows(states, source, MinUpdated(states, destination)), destination, first, mode, attributes)
    requires Settles(Rows(states, source, MinUpdated(states, destination)))
    requires row in states && row.metadata == source
    ensures !Older(row.updated, MinUpdated(states + copies, destination))
  {
    var cutoff := MinUpdated(states, destination);
    var rows := Rows(states, source, cutoff);
    var after := states + copies;
    RowsMembers(states, source, cutoff, row);
    if row in rows {
      var n :| 0 <= n < |rows| && rows[n] == row;
      var k :| 0 <= k < |rows| && rows[k].updated.Some?;
      assert after[|states| + k] == copies[k] && after[|states| + n] == copies[n];
    } else {
      var i :| 0 <= i < |states| && states[i].metadata == destination && states[i].updated == cutoff;
      assert after[i] == states[i];
    }
  }

  // ---------------------------------------------------------------- the program

  /** The attribute row of a copy: the source's own, or an added one that holds the projected attributes. */
  ghost predicate AttributeOf(
    id: Option<int>, row: StateRow, preserve: bool, before: map<int, string>, after: map<int, string>,
    project: Option<string> -> string)
  {
    if preserve then id == row.attributes
    else
      && id.Some? && id.value in after && id.value !in before
      && after[id.value] == project(Raw(before, row.attributes))
  }

  ghost predicate AttributesOf(
    attributes: seq<Option<int>>, rows: seq<StateRow>, preserve: bool,
    before: map<int, string>, after: map<int, string>,
    project: Option<string> -> string)
  {
    && |attributes| == |rows|
    && forall k :: 0 <= k < |rows| ==> AttributeOf(attributes[k], rows[k], preserve, before, after, project)
  }

  /** `LEFT JOIN state_attributes`: NULL where there is no such row. */
  function Raw(attributes: map<int, string>, id: Option<int>): Option<string> {
    if id.Some? && id.value in attributes then Some(attributes[id.value]) else None
  }

  // ---------------------------------------------------------------- what a binding waits for

  /** The tables that a backfill of states reads. */
  datatype Tables = Tables(meta: map<string, int>, states: seq<StateRow>, next: int)

  /** The metadata id of an entity; one that is not handed out yet selects no row. */
  function IdOf(t: Tables, entity: string): int { if entity in t.meta then t.meta[entity] else t.next }

  /** What there is to copy for a binding. */
  function Waiting(t: Tables, publicId: string, target: string): seq<StateRow> {
    if target !in t.meta then [] else Rows(t.states, t.meta[target], MinUpdated(t.states, IdOf(t, publicId)))
  }

  /** Ids are handed out once. */
  ghost predicate Sane(t: Tables) {
    && (forall name :: name in t.meta ==> t.meta[name] < t.next)
    && (forall a, b :: a in t.meta && b in t.meta && a != b ==> t.meta[a] != t.meta[b])
    && (forall i :: 0 <= i < |t.states| ==> t.states[i].metadata < t.next)
  }

  /** Only rows of one entity were appended, and at most its id was handed out. */
  ghost predicate GrewFor(t: Tables, u: Tables, entity: string) {
    && |t.states| <= |u.states| && u.states[..|t.states|] == t.states
    && (forall i :: |t.states| <= i < |u.states| ==> u.states[i].metadata == IdOf(t, entity))
    && t.next <= u.next
    && (u.meta == t.meta || (u.meta == t.meta[entity := IdOf(t, entity)] && IdOf(t, entity) < u.next))
    && (u.meta == t.meta && entity !in t.meta ==> u.states == t.states)
  }

  lemma {:induction false} MatchingIgnores(a: seq<StateRow>, b: seq<StateRow>, metadata: int, cutoff: Time)
    requires forall i :: 0 <= i < |b| ==> b[i].metadata != metadata
    ensures Matching(a + b, metadata, cutoff) == Matching(a, metadata, cutoff)
    ensures MinUpdated(a + b, metadata) == MinUpdated(a, metadata)
  {
    if b == [] {
      EmptyConcat(a);
    } else {
      MatchingIgnores(a, b[..|b| - 1], metadata, cutoff);
      assert (a + b)[..|a + b| - 1] == a + b[..|b| - 1];
    }
  }

  /** What a binding waits for is not touched by the backfill of another entity that is not its source. */
  lemma OthersStillWait(t: Tables, u: Tables, entity: string, publicId: string, target: string)
    requires Sane(t) && Sane(u) && GrewFor(t, u, entity) && publicId != entity && target != entity
    ensures Waiting(u, publicId, target) == Waiting(t, publicId, target)
  {
    var added := u.states[|t.states|..];
    assert u.states == t.states + added;
    assert forall i :: 0 <= i < |added| ==> added[i] == u.states[|t.states| + i];
    if target in t.meta {
      OthersMinimum(t, u, entity, publicId, added);
      MatchingIgnores(t.states, added, t.meta[target], MinUpdated(t.states, IdOf(t, publicId)));
    }
  }

  lemma OthersMinimum(t: Tables, u: Tables, entity: string, publicId: string, added: seq<StateRow>)
    requires Sane(t) && Sane(u) && GrewFor(t, u, entity) && publicId != entity
    requires u.states == t.states + added && forall i :: 0 <= i < |added| ==> added[i].metadata == IdOf(t, entity)
    ensures MinUpdated(u.states, IdOf(u, publicId)) == MinUpdated(t.states, IdOf(t, publicId))
  {
    if publicId in t.meta {
      MatchingIgnores(t.states, added, t.meta[publicId], None);
    } else {
      NoRowsNoMinimum(t.states, t.next);
      NoRowsNoMinimum(u.states, u.next);
    }
  }

  /** The tables after rows for an entity were appended. */
  function Appended(t: Tables, entity: string, copies: seq<StateRow>, next: int): Tables {
    Tables(t.meta[entity := IdOf(t, entity)], t.states + copies, next)
  }

  ghost predicate RowsFor(copies: seq<StateRow>, metadata: int) {
    forall i :: 0 <= i < |copies| ==> copies[i].metadata == metadata
  }

  lemma AppendedSane(t: Tables, entity: string, copies: seq<StateRow>, next: int)
    requires Sane(t) && RowsFor(copies, IdOf(t, entity)) && t.next <= next && IdOf(t, entity) < next
    ensures Sane(Appended(t, entity, copies, next))
  {}

  lemma AppendedGrew(t: Tables, entity: string, copies: seq<StateRow>, next: int)
    requires RowsFor(copies, IdOf(t, entity)) && t.next <= next && IdOf(t, entity) < next
    ensures GrewFor(t, Appended(t, entity, copies, next), entity)
  {
    Drop(t.states, copies);
    var u := Appended(t, entity, copies, next);
    forall i | |t.states| <= i < |u.states| ensures u.states[i].metadata == IdOf(t, entity) {
      assert u.states[i] == copies[i - |t.states|];
    }
    if u.meta == t.meta { assert entity in u.meta; }
  }

  lemma CopiesSettle(
    t: Tables, u: Tables, entity: string, target: string, copies: seq<StateRow>, first: int, mode: string,
    attributes: seq<Option<int>>)
    requires Sane(t) && target in t.meta && entity != target
    requires Copies(copies, Waiting(t, entity, target), IdOf(t, entity), first, mode, attributes)
    requires u == Appended(t, entity, copies, u.next)
    ensures Waiting(u, entity, target) == [] <==> Settles(Waiting(t, entity, target))
  {
    SecondRunCopiesNothing(t.states, t.meta[target], IdOf(t, entity), copies, first, mode, attributes);
  }

  /** The first `n` bindings are served, as far as timestamps allow; the others wait as at the start. */
  ghost predicate Served(start: Tables, now: Tables, publicIds: seq<string>, bindings: seq<Binding>, n: nat)
    requires n <= |publicIds| == |bindings|
  {
    && (forall j :: 0 <= j < n ==>
         (Waiting(now, publicIds[j], bindings[j].target) == []
          <==> Settles(Waiting(start, publicIds[j], bindings[j].target))))
    && (forall j :: n <= j < |bindings| ==>
         Waiting(now, publicIds[j], bindings[j].target) == Waiting(start, publicIds[j], bindings[j].target))
  }

  ghost predicate Apart(publicIds: seq<string>, bindings: seq<Binding>)
    requires |publicIds| == |bindings|
  {
    && (forall i, j :: 0 <= i < j < |publicIds| ==> publicIds[i] != publicIds[j])
    && (forall i, j :: 0 <= i < |publicIds| && 0 <= j < |bindings| ==> publicIds[i] != bindings[j].target)
  }

  lemma ServeNext(start: Tables, t: Tables, u: Tables, publicIds: seq<string>, bindings: seq<Binding>, n: nat)
    requires n < |publicIds| == |bindings| && Apart(publicIds, bindings) && Served(start, t, publicIds, bindings, n)
    requires Sane(t) && Sane(u) && ServedOne(t, u, publicIds[n], bindings[n])
    ensures Served(start, u, publicIds, bindings, n + 1)
  {
    forall j | 0 <= j < |bindings| && j != n
      ensures Waiting(u, publicIds[j], bindings[j].target) == Waiting(t, publicIds[j], bindings[j].target)
    {
      OthersStillWait(t, u, publicIds[n], publicIds[j], bindings[j].target);
    }
  }

  /** A row holds what another one held, for another entity. */
  ghost predicate CopyOf(copy: StateRow, row: StateRow, mode: string, destination: int) {
    && copy.metadata == destination && copy.state == StateValue(mode, row.state)
    && copy.changed == row.changed && copy.reported == row.reported && copy.updated == row.updated
    && copy.origin == row.origin
  }

  /** From a position on, the copies of some rows stand in order. */
  ghost predicate Block(states: seq<StateRow>, from: nat, rows: seq<StateRow>, mode: string, destination: int) {
    && from + |rows| <= |states|
    && forall k :: 0 <= k < |rows| ==> CopyOf(states[from + k], rows[k], mode, destination)
  }

  ghost predicate BlockFor(t: Tables, from: nat, publicId: string, binding: Binding, rows: seq<StateRow>) {
    rows != [] ==> publicId in t.meta && Block(t.states, from, rows, binding.mode, t.meta[publicId])
  }

  lemma CopiesAreBlock(
    states: seq<StateRow>, copies: seq<StateRow>, rows: seq<StateRow>, destination: int, first: int, mode: string,
    attributes: seq<Option<int>>)
    requires Copies(copies, rows, destination, first, mode, attributes)
    ensures Block(states + copies, |states|, rows, mode, destination)
  {}

  /** The copies for the i-th binding stand behind those for the bindings before it. */
  ghost predicate LaidOne(start: Tables, now: Tables, publicIds: seq<string>, bindings: seq<Binding>, i: nat)
    requires i < |publicIds| == |bindings|
  {
    BlockFor(now, |start.states| + CountWaiting(start, publicIds, bindings, i), publicIds[i], bindings[i],
             Waiting(start, publicIds[i], bindings[i].target))
  }

  ghost predicate AllLaid(start: Tables, now: Tables, publicIds: seq<string>, bindings: seq<Binding>, n: nat)
    requires n <= |publicIds| == |bindings|
  {
    forall i :: 0 <= i < n ==> LaidOne(start, now, publicIds, bindings, i)
  }

  /** The first `n` bindings have added their copies, and nothing else has changed. */
  ghost predicate Laid(start: Tables, now: Tables, publicIds: seq<string>, bindings: seq<Binding>, n: nat)
    requires n <= |publicIds| == |bindings|
  {
    && |now.states| == |start.states| + CountWaiting(start, publicIds, bindings, n)
    && now.states[..|start.states|] == start.states
    && AllLaid(start, now, publicIds, bindings, n)
  }

  lemma LaidNext(start: Tables, t: Tables, u: Tables, publicIds: seq<string>, bindings: seq<Binding>, n: nat)
    requires n < |publicIds| == |bindings| && Apart(publicIds, bindings)
    requires Laid(start, t, publicIds, bindings, n) && ServedOne(t, u, publicIds[n], bindings[n])
    requires Waiting(t, publicIds[n], bindings[n].target) == Waiting(start, publicIds[n], bindings[n].target)
    ensures Laid(start, u, publicIds, bindings, n + 1)
  {
    LaidLast(start, t, u, publicIds, bindings, n);
    PrefixStays(start.states, t.states, u.states);
    AllLaidStay(start, t, u, publicIds, bindings, n, publicIds[n]);
    OneMoreLaid(start, u, publicIds, bindings, n);
  }

  lemma OneMoreLaid(start: Tables, now: Tables, publicIds: seq<string>, bindings: seq<Binding>, n: nat)
    requires n < |publicIds| == |bindings|
    requires AllLaid(start, now, publicIds, bindings, n) && LaidOne(start, now, publicIds, bindings, n)
    ensures AllLaid(start, now, publicIds, bindings, n + 1)
  {}

  lemma AllLaidStay(
    start: Tables, t: Tables, u: Tables, publicIds: seq<string>, bindings: seq<Binding>, n: nat, entity: string)
    requires n <= |publicIds| == |bindings| && GrewFor(t, u, entity) && AllLaid(start, t, publicIds, bindings, n)
    requires forall i :: 0 <= i < n ==> publicIds[i] != entity
    ensures AllLaid(start, u, publicIds, bindings, n)
  {
    forall i | 0 <= i < n ensures LaidOne(start, u, publicIds, bindings, i) {
      LaidStays(start, t, u, publicIds, bindings, i, entity);
    }
  }

  lemma LaidLast(start: Tables, t: Tables, u: Tables, publicIds: seq<string>, bindings: seq<Binding>, n: nat)
    requires n < |publicIds| == |bindings| && ServedOne(t, u, publicIds[n], bindings[n])
    requires |t.states| == |start.states| + CountWaiting(start, publicIds, bindings, n)
    requires Waiting(t, publicIds[n], bindings[n].target) == Waiting(start, publicIds[n], bindings[n].target)
    ensures LaidOne(start, u, publicIds, bindings, n)
    ensures |u.states| == |start.states| + CountWaiting(start, publicIds, bindings, n + 1)
    ensures |t.states| <= |u.states| && u.states[..|t.states|] == t.states
  {}

  lemma PrefixStays<T>(a: seq<T>, b: seq<T>, c: seq<T>)
    requires |a| <= |b| <= |c| && b[..|a|] == a && c[..|b|] == b
    ensures c[..|a|] == a
  {
    assert c[..|a|] == c[..|b|][..|a|];
  }

  lemma LaidStays(
    start: Tables, t: Tables, u: Tables, publicIds: seq<string>, bindings: seq<Binding>, i: nat, entity: string)
    requires i < |publicIds| == |bindings| && publicIds[i] != entity
    requires LaidOne(start, t, publicIds, bindings, i) && GrewFor(t, u, entity)
    ensures LaidOne(start, u, publicIds, bindings, i)
  {
    BlockStays(t, u, |start.states| + CountWaiting(start, publicIds, bindings, i), publicIds[i], bindings[i],
               Waiting(start, publicIds[i], bindings[i].target), entity);
  }

  lemma BlockStays(
    t: Tables, u: Tables, from: nat, publicId: string, binding: Binding, rows: seq<StateRow>, entity: string)
    requires BlockFor(t, from, publicId, binding, rows) && GrewFor(t, u, entity) && publicId != entity
    ensures BlockFor(u, from, publicId, binding, rows)
  {
    assert forall k :: 0 <= k < |t.states| ==> u.states[k] == u.states[..|t.states|][k];
  }

  /** What one applied binding leaves behind. */
  ghost predicate ServedOne(t: Tables, u: Tables, publicId: string, binding: Binding) {
    && GrewFor(t, u, publicId)
    && |u.states| == |t.states| + |Waiting(t, publicId, binding.target)|
    && BlockFor(u, |t.states|, publicId, binding, Waiting(t, publicId, binding.target))
    && (Waiting(u, publicId, binding.target) == [] <==> Settles(Waiting(t, publicId, binding.target)))
  }

  /** Where the loop over the bindings stands; a dry run changes nothing. */
  ghost predicate Progress(
    apply: bool, start: Tables, now: Tables, publicIds: seq<string>, bindings: seq<Binding>, n: nat, total: nat)
    requires n <= |publicIds| == |bindings|
  {
    && Sane(now)
    && (if apply then Served(start, now, publicIds, bindings, n) && Laid(start, now, publicIds, bindings, n)
        else now == start)
    && total == CountWaiting(start, publicIds, bindings, n)
  }

  lemma ProgressStart(apply: bool, start: Tables, publicIds: seq<string>, bindings: seq<Binding>)
    requires |publicIds| == |bindings| && Sane(start)
    ensures Progress(apply, start, start, publicIds, bindings, 0, 0)
  {}

  lemma ProgressNext(
    apply: bool, start: Tables, t: Tables, u: Tables, publicIds: seq<string>, bindings: seq<Binding>,
    n: nat, total: nat)
    requires n < |publicIds| == |bindings| && Apart(publicIds, bindings)
    requires Progress(apply, start, t, publicIds, bindings, n, total) && Sane(u)
    requires if apply then ServedOne(t, u, publicIds[n], bindings[n]) else u == t
    ensures
      Progress(apply, start, u, publicIds, bindings, n + 1, total + |Waiting(t, publicIds[n], bindings[n].target)|)
  {
    if apply {
      ServeNext(start, t, u, publicIds, bindings, n);
      LaidNext(start, t, u, publicIds, bindings, n);
    }
  }

  class Recorder {
    var statesMeta: map<string, int>
    var states: seq<StateRow>
    var stateAttributes: map<int, string>
    var nextMetadata: int
    var nextState: int
    var nextAttributes: int

    ghost function View(): Tables
      reads this`statesMeta, this`states, this`nextMetadata
    {
      Tables(statesMeta, states, nextMetadata)
    }

    ghost predicate Valid()
      reads this
    {
      && Sane(View())
      && RowsValid(states, nextState, nextMetadata)
      && (forall id :: id in stateAttributes ==> id < nextAttributes)
    }

    constructor ()
      ensures Valid() && View() == Tables(map[], [], 1)
      ensures stateAttributes == map[] && nextState == nextAttributes == 1
    {
      statesMeta, states, stateAttributes := map[], [], map[];
      nextMetadata, nextState, nextAttributes := 1, 1, 1;
    }

    /** What there is to copy for a binding. */
    ghost function Pending(publicId: string, binding: Binding): seq<StateRow>
      reads this`statesMeta, this`states, this`nextMetadata
    {
      Waiting(View(), publicId, binding.target)
    }

    method EnsureMetadataId(entity: string) returns (id: int)
      requires Valid()
      modifies this`statesMeta, this`nextMetadata
      ensures Valid() && entity in statesMeta && id == statesMeta[entity] == IdOf(old(View()), entity)
      ensures statesMeta == old(statesMeta)[entity := id]
      ensures nextMetadata == old(nextMetadata) + if entity in old(statesMeta) then 0 else 1
    {
      if entity !in statesMeta {
        statesMeta := statesMeta[entity := nextMetadata];
        nextMetadata := nextMetadata + 1;
      }
      id := statesMeta[entity];
    }

    /**
     Dry runs and applied runs count the same rows; an applied one appends the copies and touches
     no row that was there.
     */
    method BackfillStates(publicId: string, binding: Binding, project: Option<string> -> string, apply: bool)
      returns (count: nat, ghost attributes: seq<Option<int>>)
      requires Valid()
      modifies this
      ensures Valid()
      ensures count == |old(Pending(publicId, binding))|
      ensures !apply || count == 0 ==> View() == old(View()) && stateAttributes == old(stateAttributes)
      ensures apply && count > 0 ==>
        && publicId in statesMeta && |states| == |old(states)| + count && Extends(old(stateAttributes), stateAttributes)
        && Copies(states[|old(states)|..], old(Pending(publicId, binding)), statesMeta[publicId], old(nextState),
                  binding.mode, attributes)
        && AttributesOf(attributes, old(Pending(publicId, binding)), binding.preserve, old(stateAttributes),
                        stateAttributes, project)
      ensures GrewFor(old(View()), View(), publicId)
      ensures apply && publicId != binding.target ==>
        (Pending(publicId, binding) == [] <==> Settles(old(Pending(publicId, binding))))
    {
      attributes := [];
      if binding.target !in statesMeta { return 0, []; }
      var source := statesMeta[binding.target];
      if publicId !in statesMeta { NoRowsNoMinimum(states, nextMetadata); }
      var cutoff := if publicId in statesMeta then MinUpdated(states, statesMeta[publicId]) else None;
      var rows := Rows(states, source, cutoff);
      count := |rows|;
      if !apply || rows == [] { return; }
      attributes := CopyRows(rows, publicId, binding, project);
    }

    /** The part of `backfill_states` that writes. */
    method CopyRows(rows: seq<StateRow>, publicId: string, binding: Binding, project: Option<string> -> string)
      returns (ghost attributes: seq<Option<int>>)
      requires Valid() && binding.target in statesMeta && rows == Pending(publicId, binding) != []
      modifies this
      ensures Valid()
      ensures publicId in statesMeta && |states| == |old(states)| + |rows|
      ensures Extends(old(stateAttributes), stateAttributes)
      ensures Copies(states[|old(states)|..], rows, statesMeta[publicId], old(nextState), binding.mode, attributes)
      ensures AttributesOf(attributes, rows, binding.preserve, old(stateAttributes), stateAttributes, project)
      ensures GrewFor(old(View()), View(), publicId)
      ensures publicId != binding.target ==> (Pending(publicId, binding) == [] <==> Settles(rows))
    {
      ghost var before, first := View(), nextState;
      var known := stateAttributes;
      var destination := EnsureMetadataId(publicId);
      ghost var copies;
      copies, attributes := InsertCopies(rows, known, destination, binding, project);
      Drop(before.states, copies);
      assert View() == Appended(before, publicId, copies, nextMetadata);
      AppendedSane(before, publicId, copies, nextMetadata);
      AppendedGrew(before, publicId, copies, nextMetadata);
      if publicId != binding.target {
        CopiesSettle(before, View(), publicId, binding.target, copies, first, binding.mode, attributes);
      }
    }

    /** One binding of the loop in `main`. */
    method BackfillBinding(publicId: string, binding: Binding, project: Option<string> -> string, apply: bool)
      returns (count: nat)
      requires Valid() && publicId != binding.target
      modifies this
      ensures Valid() && count == |Waiting(old(View()), publicId, binding.target)|
      ensures if apply then ServedOne(old(View()), View(), publicId, binding) else View() == old(View())
      ensures Extends(old(stateAttributes), stateAttributes) && (!apply ==> stateAttributes == old(stateAttributes))
    {
      ghost var before, first, rows := View(), nextState, Pending(publicId, binding);
      ghost var attributes;
      count, attributes := BackfillStates(publicId, binding, project, apply);
      if apply && count > 0 {
        assert states == before.states + states[|before.states|..];
        CopiesAreBlock(before.states, states[|before.states|..], rows, statesMeta[publicId], first, binding.mode,
                       attributes);
      }
    }

    /**
     The loop over all bindings, whose destinations are distinct and no sources: dry and applied
     runs count the same rows.  An applied one appends for each binding the copies of what waited,
     touches no row that was there, and leaves a binding with rows exactly if it had some and none
     of them had a timestamp.
     */
    method BackfillAll(
      publicIds: seq<string>, bindings: seq<Binding>, project: Binding -> Option<string> -> string, apply: bool)
      returns (total: nat)
      requires Valid() && |publicIds| == |bindings| && Apart(publicIds, bindings)
      modifies this
      ensures Valid()
      ensures Progress(apply, old(View()), View(), publicIds, bindings, |bindings|, total)
      ensures Extends(old(stateAttributes), stateAttributes) && (!apply ==> stateAttributes == old(stateAttributes))
    {
      total := 0;
      ghost var start := View();
      ProgressStart(apply, start, publicIds, bindings);
      for i := 0 to |bindings|
        invariant Valid() && Progress(apply, start, View(), publicIds, bindings, i, total)
        invariant Extends(old(stateAttributes), stateAttributes)
        invariant !apply ==> stateAttributes == old(stateAttributes)
      {
        ghost var before := View();
        var count := BackfillBinding(publicIds[i], bindings[i], project(bindings[i]), apply);
        ProgressNext(apply, start, before, View(), publicIds, bindings, i, total);
        total := total + count;
      }
    }

    /** The attribute row of a copy; projected attributes are stored once for each text. */
    method AttributeRow(
      row: StateRow, before: map<int, string>, cache: map<string, int>, preserve: bool,
      project: Option<string> -> string)
      returns (id: Option<int>, next: map<string, int>)
      requires before.Keys <= stateAttributes.Keys && Cached(cache, before, stateAttributes)
      requires forall id :: id in stateAttributes ==> id < nextAttributes
      modifies this`stateAttributes, this`nextAttributes
      ensures forall id :: id in stateAttributes ==> id < nextAttributes
      ensures Extends(old(stateAttributes), stateAttributes) && Cached(next, before, stateAttributes)
      ensures AttributeOf(id, row, preserve, before, stateAttributes, project)
    {
      next := cache;
      if preserve { return row.attributes, next; }
      var text := project(Raw(before, row.attributes));
      if text !in cache {
        stateAttributes := stateAttributes[nextAttributes := text];
        next := next[text := nextAttributes];
        nextAttributes := nextAttributes + 1;
      }
      id := Some(next[text]);
    }

    method InsertCopies(
      rows: seq<StateRow>, before: map<int, string>, destination: int, binding: Binding,
      project: Option<string> -> string)
      returns (ghost copies: seq<StateRow>, ghost attributes: seq<Option<int>>)
      requires RowsValid(states, nextState, nextMetadata) && destination < nextMetadata
      requires before == stateAttributes && forall id :: id in stateAttributes ==> id < nextAttributes
      modifies this`states, this`stateAttributes, this`nextState, this`nextAttributes
      ensures RowsValid(states, nextState, nextMetadata) && forall id :: id in stateAttributes ==> id < nextAttributes
      ensures states == old(states) + copies
      ensures Copies(copies, rows, destination, old(nextState), binding.mode, attributes)
      ensures AttributesOf(attributes, rows, binding.preserve, before, stateAttributes, project)
      ensures Extends(before, stateAttributes)
    {
      copies, attributes := [], [];
      var attributeCache: map<string, int> := map[];
      var previous: Option<int> := None;
      ghost var existing, first := states, nextState;
      EmptyConcat(existing);
      assert rows[..0] == [];
      for k := 0 to |rows|
        invariant RowsValid(states, nextState, nextMetadata)
        invariant forall id :: id in stateAttributes ==> id < nextAttributes
        invariant states == existing + copies && nextState == first + k
        invariant previous == if k == 0 then None else Some(first + k - 1)
        invariant Copies(copies, rows[..k], destination, first, binding.mode, attributes)
        invariant AttributesOf(attributes, rows[..k], binding.preserve, before, stateAttributes, project)
        invariant Extends(before, stateAttributes) && Cached(attributeCache, before, stateAttributes)
      {
        ghost var known := stateAttributes;
        var id;
        id, attributeCache := AttributeRow(rows[k], before, attributeCache, binding.preserve, project);
        var copy := StateRow(nextState, destination, StateValue(binding.mode, rows[k].state), rows[k].changed,
                             rows[k].reported, rows[k].updated, previous, id, rows[k].origin);
        TakeOneMore(rows, k);
        CopiesSnoc(copies, rows[..k], destination, first, binding.mode, attributes, rows[k], id);
        AttributesSnoc(attributes, rows[..k], binding.preserve, before, known, stateAttributes, project, rows[k], id);
        Assoc(existing, copies, [copy]);
        states := states + [copy];
        previous := Some(nextState);
        nextState := nextState + 1;
        copies := copies + [copy];
        attributes := attributes + [id];
      }
      assert rows[..|rows|] == rows;
    }
  }

  /** How many rows wait for the first `n` bindings. */
  ghost function CountWaiting(t: Tables, publicIds: seq<string>, bindings: seq<Binding>, n: nat): nat
    requires n <= |publicIds| == |bindings|
  {
    if n == 0 then 0
    else CountWaiting(t, publicIds, bindings, n - 1) + |Waiting(t, publicIds[n - 1], bindings[n - 1].target)|
  }

  ghost predicate RowsValid(states: seq<StateRow>, nextState: int, nextMetadata: int) {
    forall i :: 0 <= i < |states| ==> states[i].id < nextState && states[i].metadata < nextMetadata
  }

  ghost predicate Extends(before: map<int, string>, after: map<int, string>) {
    forall id :: id in before ==> id in after && after[id] == before[id]
  }

  /** The cache names attribute rows that were added, with their text. */
  ghost predicate Cached(cache: map<string, int>, before: map<int, string>, after: map<int, string>) {
    forall text :: text in cache ==> cache[text] in after && cache[text] !in before && after[cache[text]] == text
  }

  lemma TakeOneMore<T>(s: seq<T>, k: nat)
    requires k < |s|
    ensures s[..k + 1] == s[..k] + [s[k]]
  {}

  lemma CopiesSnoc(
    copies: seq<StateRow>, rows: seq<StateRow>, destination: int, first: int, mode: string,
    attributes: seq<Option<int>>,
    row: StateRow, id: Option<int>)
    requires Copies(copies, rows, destination, first, mode, attributes)
    ensures var k := |rows|;
      var copy := StateRow(first + k, destination, StateValue(mode, row.state), row.changed, row.reported, row.updated,
                           if k == 0 then None else Some(first + k - 1), id, row.origin);
      Copies(copies + [copy], rows + [row], destination, first, mode, attributes + [id])
  {}

  lemma AttributeStays(
    id: Option<int>, row: StateRow, preserve: bool, before: map<int, string>, known: map<int, string>,
    after: map<int, string>, project: Option<string> -> string)
    requires AttributeOf(id, row, preserve, before, known, project) && Extends(known, after)
    ensures AttributeOf(id, row, preserve, before, after, project)
  {
    if !preserve {
      var key := id.value;
      assert key in known;
      assert key in after && after[key] == known[key];
    }
  }

  lemma AttributesSnoc(
    attributes: seq<Option<int>>, rows: seq<StateRow>, preserve: bool,
    before: map<int, string>, known: map<int, string>,
    after: map<int, string>, project: Option<string> -> string, row: StateRow, id: Option<int>)
    requires AttributesOf(attributes, rows, preserve, before, known, project) && Extends(known, after)
    requires AttributeOf(id, row, preserve, before, after, project)
    ensures AttributesOf(attributes + [id], rows + [row], preserve, before, after, project)
  {
    forall k | 0 <= k < |rows| ensures AttributeOf(attributes[k], rows[k], preserve, before, after, project) {
      AttributeStays(attributes[k], rows[k], preserve, before, known, after, project);
    }
  }

  lemma {:induction false} NoRowsNoMinimum(states: seq<StateRow>, metadata: int)
    requires forall i :: 0 <= i < |states| ==> states[i].metadata != metadata
    ensures MinUpdated(states, metadata) == None
  {}

  // ---------------------------------------------------------------- statistics

  /** A row of `statistics` or `statistics_short_term`; `values` stands for the other copied columns. */
  datatype StatisticRow = StatisticRow(metadata: int, start: real, values: string)

  /** `SELECT MIN(start_ts) FROM … WHERE metadata_id = ?` */
  function MinStart(table: seq<StatisticRow>, metadata: int): (r: Time)
    ensures r.Some? ==> exists i :: 0 <= i < |table| && table[i].metadata == metadata && table[i].start == r.value
    ensures forall i :: 0 <= i < |table| && table[i].metadata == metadata ==> r.Some? && r.value <= table[i].start
  {
    if table == [] then None
    else
      var front, last := MinStart(table[..|table| - 1], metadata), table[|table| - 1];
      if last.metadata == metadata && (front.None? || last.start < front.value) then Some(last.start) else front
  }

  function StatisticCopies(table: seq<StatisticRow>, source: int, destination: int, cutoff: Time): seq<StatisticRow> {
    if table == [] then []
    else
      var front, last := StatisticCopies(table[..|table| - 1], source, destination, cutoff), table[|table| - 1];
      if last.metadata == source && Older(Some(last.start), cutoff)
      then front + [last.(metadata := destination)]
      else front
  }

  /** The table's unique index over statistic and start. */
  ghost predicate UniqueStarts(table: seq<StatisticRow>) {
    forall i, j :: 0 <= i < j < |table| && table[i].metadata == table[j].metadata ==> table[i].start != table[j].start
  }

  /** Each copy comes from a row of its own. */
  lemma {:induction false} CopiesHaveOrigins(table: seq<StatisticRow>, source: int, destination: int, cutoff: Time)
    returns (origins: seq<nat>)
    ensures var copies := StatisticCopies(table, source, destination, cutoff);
      && |origins| == |copies|
      && (forall k :: 0 <= k < |copies| ==>
           && origins[k] < |table|
           && table[origins[k]].metadata == source && Older(Some(table[origins[k]].start), cutoff)
           && copies[k] == table[origins[k]].(metadata := destination))
      && (forall k, n :: 0 <= k < n < |copies| ==> origins[k] < origins[n])
  {
    if table == [] {
      origins := [];
    } else {
      origins := CopiesHaveOrigins(table[..|table| - 1], source, destination, cutoff);
      var last := table[|table| - 1];
      if last.metadata == source && Older(Some(last.start), cutoff) {
        origins := origins + [|table| - 1];
      }
    }
  }

  lemma {:induction false} RowsAreCopied(table: seq<StatisticRow>, source: int, destination: int, cutoff: Time, i: nat)
    requires i < |table| && table[i].metadata == source && Older(Some(table[i].start), cutoff)
    ensures table[i].(metadata := destination) in StatisticCopies(table, source, destination, cutoff)
  {
    if i < |table| - 1 {
      RowsAreCopied(table[..|table| - 1], source, destination, cutoff, i);
    }
  }

  /** Copying keeps the start times of every statistic unique. */
  lemma StatisticsKeepUniqueStarts(table: seq<StatisticRow>, source: int, destination: int)
    requires UniqueStarts(table) && source != destination
    ensures UniqueStarts(table + StatisticCopies(table, source, destination, MinStart(table, destination)))
  {
    var cutoff := MinStart(table, destination);
    var copies := StatisticCopies(table, source, destination, cutoff);
    var origins := CopiesHaveOrigins(table, source, destination, cutoff);
    var after := table + copies;
    forall i, j | 0 <= i < j < |after| && after[i].metadata == after[j].metadata
      ensures after[i].start != after[j].start
    {
      if j >= |table| {
        var k := j - |table|;
        assert after[j] == copies[k];
        if i >= |table| {
          assert after[i] == copies[i - |table|] && origins[i - |table|] < origins[k];
        }
      }
    }
  }

  /** A second run over a table of statistics copies nothing. */
  lemma SecondStatisticsRunCopiesNothing(table: seq<StatisticRow>, source: int, destination: int)
    requires source != destination
    ensures var after := table + StatisticCopies(table, source, destination, MinStart(table, destination));
      StatisticCopies(after, source, destination, MinStart(after, destination)) == []
  {
    var cutoff := MinStart(table, destination);
    var copies := StatisticCopies(table, source, destination, cutoff);
    var after := table + copies;
    var origins := CopiesHaveOrigins(table, source, destination, cutoff);
    var again := CopiesHaveOrigins(after, source, destination, MinStart(after, destination));
    if again != [] {
      var i := again[0];
      assert forall k :: 0 <= k < |copies| ==> after[|table| + k] == copies[k];
      assert i < |table|;
      StatisticStillOlder(table, source, destination, i);
    }
  }

  lemma StatisticStillOlder(table: seq<StatisticRow>, source: int, destination: int, i: nat)
    requires source != destination && i < |table| && table[i].metadata == source
    ensures var after := table + StatisticCopies(table, source, destination, MinStart(table, destination));
      !Older(Some(table[i].start), MinStart(after, destination))
  {
    var cutoff := MinStart(table, destination);
    var copies := StatisticCopies(table, source, destination, cutoff);
    var after := table + copies;
    if Older(Some(table[i].start), cutoff) {
      RowsAreCopied(table, source, destination, cutoff, i);
      var k :| 0 <= k < |copies| && copies[k] == table[i].(metadata := destination);
      assert after[|table| + k] == copies[k];
    } else {
      var m :| 0 <= m < |table| && table[m].metadata == destination && table[m].start == cutoff.value;
      assert after[m] == table[m];
    }
  }

  /** How many rows are copied does not depend on where they go. */
  lemma {:induction false} CopyCountIgnoresDestination(
    table: seq<StatisticRow>, source: int, d: int, e: int, cutoff: Time)
    ensures |StatisticCopies(table, source, d, cutoff)| == |StatisticCopies(table, source, e, cutoff)|
  {
    if table != [] {
      CopyCountIgnoresDestination(table[..|table| - 1], source, d, e, cutoff);
    }
  }

  predicate Unused(table: seq<StatisticRow>, metadata: int) {
    forall i :: 0 <= i < |table| ==> table[i].metadata != metadata
  }

  lemma {:induction false} UnusedHasNoMinimum(table: seq<StatisticRow>, metadata: int)
    requires Unused(table, metadata)
    ensures MinStart(table, metadata) == None
  {
    if table != [] {
      UnusedHasNoMinimum(table[..|table| - 1], metadata);
    }
  }

  /** What one table copies to a destination. */
  function TableCopies(table: seq<StatisticRow>, source: int, destination: int): seq<StatisticRow> {
    StatisticCopies(table, source, destination, MinStart(table, destination))
  }

  /**
   One table of the loop in `backfill_statistics`.  A dry run without a destination counts what an
   applied run copies to any id that has no row yet.
   */
  method BackfillTable(table: seq<StatisticRow>, source: int, destination: Option<int>, apply: bool)
    returns (after: seq<StatisticRow>, count: nat)
    requires apply ==> destination.Some?
    ensures forall d :: destination == Some(d) || (destination.None? && Unused(table, d)) ==>
      count == |TableCopies(table, source, d)|
    ensures after == if apply then table + TableCopies(table, source, destination.value) else table
  {
    var cutoff := if destination.Some? then MinStart(table, destination.value) else None;
    var target := if destination.Some? then destination.value else source;
    var rows := SelectCopies(table, source, target, cutoff);
    forall d | destination.None? && Unused(table, d) ensures |rows| == |TableCopies(table, source, d)| {
      UnusedHasNoMinimum(table, d);
      CopyCountIgnoresDestination(table, source, target, d, None);
    }
    after, count := if apply then table + rows else table, |rows|;
  }

  method SelectCopies(table: seq<StatisticRow>, source: int, target: int, cutoff: Time)
    returns (rows: seq<StatisticRow>)
    ensures rows == StatisticCopies(table, source, target, cutoff)
  {
    rows := [];
    for i := 0 to |table|
      invariant rows == StatisticCopies(table[..i], source, target, cutoff)
    {
      TakeOneMore(table, i);
      Drop(table[..i], [table[i]]);
      if table[i].metadata == source && Older(Some(table[i].start), cutoff) {
        rows := rows + [table[i].(metadata := target)];
      }
    }
    assert table[..|table|] == table;
  }

  /** The two statistics tables and the ids of their series. */
  class Statistics {
    var meta: map<string, int>
    var next: int
    var hourly: seq<StatisticRow>
    var shortTerm: seq<StatisticRow>

    ghost predicate Valid()
      reads this
    {
      && (forall name :: name in meta ==> meta[name] < next)
      && (forall a, b :: a in meta && b in meta && a != b ==> meta[a] != meta[b])
      && TableValid(hourly, next) && TableValid(shortTerm, next)
    }

    constructor ()
      ensures Valid() && meta == map[] && next == 1 && hourly == [] && shortTerm == []
    {
      meta, next, hourly, shortTerm := map[], 1, [], [];
    }

    /** What a table has to copy for a series. */
    ghost function Pending(table: seq<StatisticRow>, publicId: string, sourceId: string): seq<StatisticRow>
      reads this`meta, this`next
    {
      if sourceId !in meta then []
      else TableCopies(table, meta[sourceId], if publicId in meta then meta[publicId] else next)
    }

    /** The series of the public id; a new one is created with the next id. */
    method EnsureSeries(publicId: string)
      requires Valid()
      modifies this`meta, this`next
      ensures Valid() && next == old(next) + if publicId in old(meta) then 0 else 1
      ensures meta == old(meta)[publicId := if publicId in old(meta) then old(meta)[publicId] else old(next)]
      ensures meta[publicId] < next
    {
      if publicId !in meta {
        meta, next := meta[publicId := next], next + 1;
      }
    }

    /**
     `backfill_statistics`: dry and applied runs count the same rows, an applied one appends them
     and keeps start times unique, and after it there is nothing left to copy.
     */
    method BackfillStatistics(publicId: string, sourceId: string, apply: bool) returns (hours: nat, short: nat)
      requires Valid() && publicId != sourceId
      modifies this
      ensures Valid()
      ensures hours == |old(Pending(hourly, publicId, sourceId))|
      ensures short == |old(Pending(shortTerm, publicId, sourceId))|
      ensures !apply ==> meta == old(meta) && hourly == old(hourly) && shortTerm == old(shortTerm)
      ensures apply ==>
        && hourly == old(hourly) + old(Pending(hourly, publicId, sourceId))
        && shortTerm == old(shortTerm) + old(Pending(shortTerm, publicId, sourceId))
        && Pending(hourly, publicId, sourceId) == [] && Pending(shortTerm, publicId, sourceId) == []
    {
      if sourceId !in meta {
        EmptyConcat(hourly);
        EmptyConcat(shortTerm);
        return 0, 0;
      }
      var source := meta[sourceId];
      ghost var d := if publicId in meta then meta[publicId] else next;
      if apply { EnsureSeries(publicId); }
      var destination := if publicId in meta then Some(meta[publicId]) else None;
      if apply {
        TableServed(hourly, source, d, old(next), next);
        TableServed(shortTerm, source, d, old(next), next);
      } else if destination.None? {
        NextUnused(hourly, next);
        NextUnused(shortTerm, next);
      }
      hourly, hours := BackfillTable(hourly, source, destination, apply);
      shortTerm, short := BackfillTable(shortTerm, source, destination, apply);
    }
  }

  /** The rows of a table belong to ids handed out, with unique start times. */
  ghost predicate TableValid(table: seq<StatisticRow>, next: int) {
    UniqueStarts(table) && forall i :: 0 <= i < |table| ==> table[i].metadata < next
  }

  lemma NextUnused(table: seq<StatisticRow>, next: int)
    requires TableValid(table, next)
    ensures Unused(table, next)
  {}

  lemma TableServed(table: seq<StatisticRow>, source: int, d: int, before: int, next: int)
    requires TableValid(table, before) && source != d && before <= next && d < next
    ensures var after := table + TableCopies(table, source, d);
      TableValid(after, next) && TableCopies(after, source, d) == []
  {
    StatisticsKeepUniqueStarts(table, source, d);
    SecondStatisticsRunCopiesNothing(table, source, d);
    var origins := CopiesHaveOrigins(table, source, d, MinStart(table, d));
  }

  // ---------------------------------------------------------------- what is copied, without the queries

  /** A presence or boolean binding publishes two words, any other one the state as it is. */
  lemma StateValues(mode: string, state: string)
    ensures StateValue("home_away", state) == (if state == "home" then "home" else "not_home")
    ensures StateValue("boolean", state) == (if state == "on" then "on" else "off")
    ensures mode != "home_away" && mode != "boolean" ==> StateValue(mode, state) == state
  {
    assert "home_away"[0] == 'h' && "boolean"[0] == 'b';
  }

  /** The row is earlier than every row of an entity that has a time, or the entity has none. */
  ghost predicate EarlierThanAll(row: StateRow, states: seq<StateRow>, metadata: int) {
    forall i :: 0 <= i < |states| && states[i].metadata == metadata && states[i].updated.Some? ==>
      row.updated.Some? && row.updated.value < states[i].updated.value
  }

  lemma OlderIsEarlier(row: StateRow, states: seq<StateRow>, metadata: int)
    ensures Older(row.updated, MinUpdated(states, metadata)) <==> EarlierThanAll(row, states, metadata)
  {}

  /** What waits for a binding: the source's rows from before the public entity's first one. */
  lemma WaitingRows(t: Tables, publicId: string, target: string, row: StateRow)
    requires Sane(t)
    ensures row in Waiting(t, publicId, target) <==>
      && target in t.meta && row in t.states && row.metadata == t.meta[target]
      && (publicId in t.meta ==> EarlierThanAll(row, t.states, t.meta[publicId]))
  {
    if target in t.meta {
      var d := IdOf(t, publicId);
      RowsMembers(t.states, t.meta[target], MinUpdated(t.states, d), row);
      OlderIsEarlier(row, t.states, d);
      if publicId !in t.meta { NoRowsNoMinimum(t.states, d); }
    }
  }

  /** They are ordered by time, rows without one first, and among equal times by id. */
  lemma WaitingOrder(t: Tables, publicId: string, target: string, i: nat, j: nat)
    requires i < j < |Waiting(t, publicId, target)|
    ensures var a, b := Waiting(t, publicId, target)[i], Waiting(t, publicId, target)[j];
      if a.updated == b.updated then a.id <= b.id
      else a.updated == None || (b.updated.Some? && a.updated.value < b.updated.value)
  {
    SortSorts(Matching(t.states, t.meta[target], MinUpdated(t.states, IdOf(t, publicId))));
  }

  /** A statistics row is copied exactly if it belongs to the source and is earlier than all of the destination's. */
  lemma StatisticsCopied(table: seq<StatisticRow>, source: int, destination: int, c: StatisticRow)
    ensures c in TableCopies(table, source, destination) <==>
      exists i :: 0 <= i < |table| && Copied(table, source, destination, i, c)
  {
    var cutoff := MinStart(table, destination);
    var origins := CopiesHaveOrigins(table, source, destination, cutoff);
    var copies := TableCopies(table, source, destination);
    if c in copies {
      var k :| 0 <= k < |copies| && copies[k] == c;
      assert Copied(table, source, destination, origins[k], c);
    }
    if i :| 0 <= i < |table| && Copied(table, source, destination, i, c) {
      RowsAreCopied(table, source, destination, cutoff, i);
    }
  }

  ghost predicate Copied(table: seq<StatisticRow>, source: int, destination: int, i: int, c: StatisticRow) {
    && 0 <= i < |table| && table[i].metadata == source
    && (forall j :: 0 <= j < |table| && table[j].metadata == destination ==> table[i].start < table[j].start)
    && c == StatisticRow(destination, table[i].start, table[i].values)
  }

  /** The joined attributes text, or none. */
  lemma RawText(attributes: map<int, string>, id: int)
    ensures Raw(attributes, None) == None
    ensures Raw(attributes, Some(id)) == if id in attributes then Some(attributes[id]) else None
  {}
}
