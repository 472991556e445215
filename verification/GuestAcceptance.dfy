/**
 Which archives `extract_inner` of restore/guest_archive.py takes: a condition on single members, on
 pairs of members and on sums, without the loop and its state.
 */
module GuestAcceptance {
  import opened Common
  import opened ArchivePaths
  import opened GuestArchive
  import opened Folds

  // ---------------------------------------------------------------- the condition

  /** The part of a name's selection that does not depend on other members. */
  function Selected(m: Member, kind: Kind): Outcome<Selection> {
    match Normalized(m.name)
    case Raise(reason) => Raise(reason)
    case Ok(name) => SelectPath(name, kind, None)
  }

  /** The staging root that a member names, if any. */
  function Root(m: Member, kind: Kind): Option<string> {
    if Skipped(m) || Selected(m, kind).Raise? then None else Selected(m, kind).value.root
  }

  /** Nothing is wrong with the member itself. */
  predicate Sane(m: Member, kind: Kind) {
    !Skipped(m) ==>
    && m.kind != Special && !m.sparse && m.size >= 0
    && Selected(m, kind).Ok?
    && (Selected(m, kind).value.relative.Some? ==> Destination(m, kind).Some? && Destination(m, kind).value != SEAL)
    && (m.kind == File && Destination(m, kind).Some? ==> m.size <= MaxFile(kind) && m.size <= |m.data|)
  }

  /** Two destinations differ, and neither is a file that the other one lies beneath. */
  predicate PathsCompatible(s: Type, p: Option<string>, t: Type, q: Option<string>) {
    p.Some? && q.Some? ==>
      && p != q
      && (s == File ==> p.value !in Ancestors(q.value))
      && (t == File ==> q.value !in Ancestors(p.value))
  }

  /** Two members get along, in either order. */
  predicate Compatible(a: Member, b: Member, kind: Kind) {
    !Skipped(a) && !Skipped(b) ==>
    && Normalized(a.name) != Normalized(b.name)
    && (Root(a, kind).Some? && Root(b, kind).Some? ==> Root(a, kind) == Root(b, kind))
    && PathsCompatible(a.kind, Destination(a, kind), b.kind, Destination(b, kind))
  }

  /** The sizes of the first `n` members that restore to a file. */
  function FileBytes(members: seq<Member>, n: nat, kind: Kind): int
    requires n <= |members|
  {
    if n == 0 then 0 else FileBytes(members, n - 1, kind) + OwnBytes(members[n - 1], kind)
  }

  function OwnBytes(m: Member, kind: Kind): int {
    if m.kind == File && Destination(m, kind).Some? then m.size else 0
  }

  /** The archive of the first `n` members can be extracted. */
  predicate Admissible(members: seq<Member>, n: nat, kind: Kind)
    requires n <= |members|
  {
    && n <= MAX_MEMBERS
    && (forall i :: 0 <= i < n ==> Sane(members[i], kind))
    && (forall i, j :: 0 <= i < j < n ==> Compatible(members[i], members[j], kind))
    && Expanded(members[..n]) <= MAX_EXPANDED
    && FileBytes(members, n, kind) <= MaxSelected(kind)
  }

  // ---------------------------------------------------------------- what the loop's sets hold

  /** What the first `n` members contribute to a set. */
  ghost function Collected(part: Member -> set<string>, members: seq<Member>, n: nat): set<string>
    requires n <= |members|
  {
    if n == 0 then {} else Collected(part, members, n - 1) + part(members[n - 1])
  }

  lemma {:induction false} CollectedFrom(part: Member -> set<string>, members: seq<Member>, n: nat, x: string)
    requires n <= |members|
    ensures x in Collected(part, members, n) <==> exists i :: 0 <= i < n && x in part(members[i])
  {
    if n > 0 {
      CollectedFrom(part, members, n - 1, x);
    }
  }

  function NameOf(m: Member): set<string> {
    if Skipped(m) || Normalized(m.name).Raise? then {} else {Normalized(m.name).value}
  }

  function PathSet(path: Option<string>): set<string> { if path.Some? then {path.value} else {} }

  /** The directories that a path brings with it. */
  function DirectorySet(t: Type, path: Option<string>): set<string> {
    (if path.Some? then Ancestors(path.value) else {}) + if t == Directory then PathSet(path) else {}
  }

  function PathOf(m: Member, kind: Kind): set<string> { PathSet(Destination(m, kind)) }

  function FileOf(m: Member, kind: Kind): set<string> { if m.kind == File then PathOf(m, kind) else {} }

  function DirectoriesOf(m: Member, kind: Kind): set<string> { DirectorySet(m.kind, Destination(m, kind)) }

  function Names(): Member -> set<string> { m => NameOf(m) }
  function Paths(kind: Kind): Member -> set<string> { m => PathOf(m, kind) }
  function Files(kind: Kind): Member -> set<string> { m => FileOf(m, kind) }
  function Directories(kind: Kind): Member -> set<string> { m => DirectoriesOf(m, kind) }
  function Roots(kind: Kind): Member -> Option<string> { m => Root(m, kind) }

  /** The root is that of all members that name one. */
  ghost predicate RootReached(root: Option<string>, of: Member -> Option<string>, members: seq<Member>, n: nat)
    requires n <= |members|
  {
    && (forall i :: 0 <= i < n && of(members[i]).Some? ==> of(members[i]) == root)
    && (root.Some? ==> exists i :: 0 <= i < n && of(members[i]) == root)
  }

  /** The state after the first `n` members. */
  ghost predicate Reached(p: Progress, members: seq<Member>, n: nat, kind: Kind)
    requires n <= |members|
  {
    && p.seen == Collected(Names(), members, n)
    && p.selected == Collected(Paths(kind), members, n)
    && p.tree.files.Keys == Collected(Files(kind), members, n)
    && p.tree.directories == Collected(Directories(kind), members, n)
    && RootReached(p.root, Roots(kind), members, n)
    && p.count == n && p.scanned == Expanded(members[..n]) && p.written == FileBytes(members, n, kind)
  }

  // ---------------------------------------------------------------- one turn

  /** What a turn asks of a member up to its selection, in terms of the state. */
  predicate Enters(p: Progress, m: Member) {
    && p.count + 1 <= MAX_MEMBERS
    && (!Skipped(m) ==>
         && Normalized(m.name).Ok? && NameOf(m) !! p.seen
         && m.kind != Special && !m.sparse && m.size >= 0 && p.scanned + m.size <= MAX_EXPANDED)
  }

  /** What it asks of the selection, where `alone` is what the name selects by itself. */
  predicate Aims(p: Progress, alone: Outcome<Selection>) {
    && alone.Ok?
    && (alone.value.root.Some? && p.root.Some? ==> alone.value.root == p.root)
    && (alone.value.relative.Some? ==>
         var path := Landing(alone.value.relative);
         path.Some? && path.value != SEAL && path.value !in p.selected)
  }

  function NextRoot(p: Progress, root: Option<string>): Option<string> { if root.Some? then root else p.root }

  predicate Joins(p: Progress, m: Member, kind: Kind) {
    && Aims(p, Selected(m, kind))
    && (Destination(m, kind).Some? ==> Fits(p, m, kind, Destination(m, kind).value))
  }

  predicate Fits(p: Progress, m: Member, kind: Kind, path: string) {
    && Ancestors(path) !! p.tree.files.Keys
    && (m.kind == File ==>
         && path !in p.tree.directories && p.written + m.size <= MaxSelected(kind)
         && m.size <= MaxFile(kind) && m.size <= |m.data|)
  }

  lemma Disjoint<T>(a: set<T>, b: set<T>)
    ensures a * b == {} <==> b !! a
  {
    assert forall x :: x in a && x in b ==> x in a * b;
  }

  lemma NotItsOwnAncestor(path: string)
    ensures path !in Ancestors(path)
  {}

  lemma AdmitEnters(p: Progress, m: Member)
    ensures Admit(p, m).raised.None? <==> Enters(p, m)
    ensures Admit(p, m).raised.None? ==>
      Admit(p, m).progress == p.(
        count := p.count + 1, seen := p.seen + NameOf(m), scanned := p.scanned + if Skipped(m) then 0 else m.size)
  {
    assert NameOf(m) == {} || Normalized(m.name).Ok?;
  }

  lemma TargetJoins(p: Progress, m: Member, kind: Kind)
    requires Normalized(m.name).Ok?
    ensures var alone := Selected(m, kind);
      && (Target(p, m, kind).Ok? <==> Aims(p, alone))
      && (Aims(p, alone) ==>
           Target(p, m, kind).value == Selection(Landing(alone.value.relative), NextRoot(p, alone.value.root)))
  {
    var name := Normalized(m.name).value;
    SelectionWithRoot(name, kind, p.root);
    AimedLands(p, SelectPath(name, kind, None), SelectPath(name, kind, p.root));
  }

  lemma AimedLands(p: Progress, alone: Outcome<Selection>, here: Outcome<Selection>)
    requires Rooted(alone, here, p.root)
    ensures Aimed(p, here).Ok? <==> Aims(p, alone)
    ensures Aims(p, alone) ==>
      Aimed(p, here).value == Selection(Landing(alone.value.relative), NextRoot(p, alone.value.root))
  {}

  /** The selection `here` is that of `alone` with a root seen before. */
  predicate Rooted(alone: Outcome<Selection>, here: Outcome<Selection>, root: Option<string>) {
    && (here.Ok? <==> alone.Ok? && (alone.value.root.Some? && root.Some? ==> alone.value.root == root))
    && (here.Ok? ==>
         && here.value.relative == alone.value.relative
         && here.value.root == if alone.value.root.Some? then alone.value.root else root)
  }

  /** The root seen so far refuses a member or is passed on. */
  lemma SelectionWithRoot(name: string, kind: Kind, root: Option<string>)
    ensures Rooted(SelectPath(name, kind, None), SelectPath(name, kind, root), root)
  {}

  lemma PlaceJoins(p: Progress, m: Member, kind: Kind, path: string)
    requires m.kind != Special && m.size >= 0 && path !in p.tree.files
    ensures Place(p, m, kind, path).raised.None? <==> Fits(p, m, kind, path)
    ensures Place(p, m, kind, path).raised.None? ==>
      var q := Place(p, m, kind, path).progress;
      && q == p.(files := q.files, written := q.written, tree := q.tree)
      && q.written == p.written + (if m.kind == File then m.size else 0)
      && q.tree.files.Keys == p.tree.files.Keys + (if m.kind == File then {path} else {})
      && q.tree.directories == p.tree.directories + Ancestors(path) + (if m.kind == Directory then {path} else {})
  {
    NotItsOwnAncestor(path);
    Disjoint(p.tree.files.Keys, Ancestors(path));
  }

  /** What a member adds that goes to a path, or nowhere. */
  ghost predicate Adds(p: Progress, m: Member, path: Option<string>, root: Option<string>, q: Progress) {
    var paths := if path.Some? then {path.value} else {};
    && q.seen == p.seen && q.count == p.count && q.scanned == p.scanned && q.root == root
    && q.selected == p.selected + paths
    && q.tree.files.Keys == p.tree.files.Keys + (if m.kind == File then paths else {})
    && q.tree.directories
       == p.tree.directories + (if path.Some? then Ancestors(path.value) else {})
        + (if m.kind == Directory then paths else {})
    && q.written == p.written + if m.kind == File && path.Some? then m.size else 0
  }

  lemma RestoreToFits(p: Progress, m: Member, kind: Kind, selection: Selection)
    requires m.kind != Special && m.size >= 0
    requires selection.relative.Some? ==> selection.relative.value !in p.tree.files
    ensures var t, path := RestoreTo(p, m, kind, selection), selection.relative;
      && (t.raised.None? <==> (path.Some? ==> Fits(p, m, kind, path.value)))
      && (t.raised.None? ==> Adds(p, m, path, selection.root, t.progress))
  {
    if selection.relative.Some? {
      var path := selection.relative.value;
      PlaceJoins(p.(root := selection.root, selected := p.selected + {path}), m, kind, path);
    }
  }

  lemma SelectedLands(m: Member, kind: Kind)
    requires !Skipped(m) && Selected(m, kind).Ok?
    ensures Destination(m, kind) == Landing(Selected(m, kind).value.relative)
    ensures Root(m, kind) == Selected(m, kind).value.root
  {}

  lemma RestoreJoins(p: Progress, m: Member, kind: Kind)
    requires !Skipped(m) && Normalized(m.name).Ok? && m.kind != Special && m.size >= 0
    requires p.tree.files.Keys <= p.selected
    ensures Restore(p, m, kind).raised.None? <==> Joins(p, m, kind)
    ensures Joins(p, m, kind) ==>
      Adds(p, m, Destination(m, kind), NextRoot(p, Root(m, kind)), Restore(p, m, kind).progress)
  {
    TargetJoins(p, m, kind);
    if Aims(p, Selected(m, kind)) {
      SelectedLands(m, kind);
      RestoreToFits(p, m, kind, Target(p, m, kind).value);
    }
  }

  /** A state has grown by a member with these names, this destination and this root. */
  ghost predicate Grows(
    p: Progress, m: Member, names: set<string>, path: Option<string>, root: Option<string>, q: Progress)
  {
    && q.seen == p.seen + names
    && q.selected == p.selected + PathSet(path)
    && q.tree.files.Keys == p.tree.files.Keys + (if m.kind == File then PathSet(path) else {})
    && q.tree.directories == p.tree.directories + DirectorySet(m.kind, path)
    && q.root == NextRoot(p, root)
    && q.count == p.count + 1
    && q.scanned == p.scanned + (if Skipped(m) then 0 else m.size)
    && q.written == p.written + if m.kind == File && path.Some? then m.size else 0
  }

  lemma AddsGrows(
    p: Progress, m: Member, names: set<string>, path: Option<string>, root: Option<string>, admitted: Progress,
    q: Progress)
    requires admitted == p.(count := p.count + 1, seen := p.seen + names, scanned := p.scanned + m.size)
    requires !Skipped(m) && Adds(admitted, m, path, NextRoot(p, root), q)
    ensures Grows(p, m, names, path, root, q)
  {}

  /** The state after a turn that does not raise. */
  ghost predicate Advanced(p: Progress, m: Member, kind: Kind, q: Progress) {
    Grows(p, m, NameOf(m), Destination(m, kind), Root(m, kind), q)
  }

  /** What the state asks of a member. */
  predicate Takes(p: Progress, m: Member, kind: Kind) { Enters(p, m) && (!Skipped(m) ==> Joins(p, m, kind)) }

  /** A turn raises exactly if the state does not take the member. */
  lemma TurnTakes(p: Progress, m: Member, kind: Kind)
    requires p.tree.files.Keys <= p.selected
    ensures ExtractMember(p, m, kind).raised.None? <==> Takes(p, m, kind)
    ensures Takes(p, m, kind) ==> Advanced(p, m, kind, ExtractMember(p, m, kind).progress)
  {
    AdmitEnters(p, m);
    if Enters(p, m) && !Skipped(m) {
      RestoredTurn(p, m, kind, Admit(p, m).progress);
    }
  }

  lemma RestoredTurn(p: Progress, m: Member, kind: Kind, q: Progress)
    requires !Skipped(m) && Normalized(m.name).Ok? && m.kind != Special && m.size >= 0
    requires p.tree.files.Keys <= p.selected
    requires q == p.(count := p.count + 1, seen := p.seen + NameOf(m), scanned := p.scanned + m.size)
    ensures Restore(q, m, kind).raised.None? <==> Joins(p, m, kind)
    ensures Joins(p, m, kind) ==> Advanced(p, m, kind, Restore(q, m, kind).progress)
  {
    RestoreJoins(q, m, kind);
    if Joins(q, m, kind) {
      AddsGrows(p, m, NameOf(m), Destination(m, kind), Root(m, kind), q, Restore(q, m, kind).progress);
    }
  }

  lemma CollectedNext(part: Member -> set<string>, members: seq<Member>, n: nat)
    requires n < |members|
    ensures Collected(part, members, n + 1) == Collected(part, members, n) + part(members[n])
  {}

  lemma RootNext(root: Option<string>, of: Member -> Option<string>, members: seq<Member>, n: nat)
    requires n < |members| && RootReached(root, of, members, n)
    requires of(members[n]).Some? && root.Some? ==> of(members[n]) == root
    ensures RootReached(if of(members[n]).Some? then of(members[n]) else root, of, members, n + 1)
  {
    if root.Some? {
      var i :| 0 <= i < n && of(members[i]) == root;
    }
  }

  lemma ReachedNext(p: Progress, members: seq<Member>, n: nat, kind: Kind, q: Progress)
    requires n < |members| && Reached(p, members, n, kind) && Advanced(p, members[n], kind, q)
    requires Root(members[n], kind).Some? && p.root.Some? ==> Root(members[n], kind) == p.root
    ensures Reached(q, members, n + 1, kind)
  {
    CollectedNext(Names(), members, n);
    CollectedNext(Paths(kind), members, n);
    CollectedNext(Files(kind), members, n);
    CollectedNext(Directories(kind), members, n);
    RootNext(p.root, Roots(kind), members, n);
    ExpandedStep(members, n);
  }

  // ---------------------------------------------------------------- from sets to pairs

  lemma CollectedApart(part: Member -> set<string>, members: seq<Member>, n: nat, xs: set<string>)
    requires n <= |members|
    ensures xs !! Collected(part, members, n) <==> forall i :: 0 <= i < n ==> xs !! part(members[i])
  {
    forall x | x in xs
      ensures x in Collected(part, members, n) <==> exists i :: 0 <= i < n && x in part(members[i])
    {
      CollectedFrom(part, members, n, x);
    }
  }

  /** What the state asks of a new path with regard to an earlier one. */
  predicate PathsApart(s: Type, p: Option<string>, t: Type, q: Option<string>) {
    && PathSet(q) !! PathSet(p)
    && (q.Some? ==>
         && Ancestors(q.value) !! (if s == File then PathSet(p) else {})
         && (t == File ==> PathSet(q) !! DirectorySet(s, p)))
  }

  lemma ApartIsCompatible(s: Type, p: Option<string>, t: Type, q: Option<string>)
    ensures PathsApart(s, p, t, q) <==> PathsCompatible(s, p, t, q)
  {}

  predicate NamesDiffer(a: Member, b: Member) { !Skipped(a) ==> Normalized(a.name) != Normalized(b.name) }

  predicate RootsAgree(a: Option<string>, b: Option<string>) { a.Some? && b.Some? ==> a == b }

  lemma PairParts(a: Member, b: Member, kind: Kind)
    requires !Skipped(b)
    ensures Compatible(a, b, kind) <==>
      && NamesDiffer(a, b) && RootsAgree(Root(a, kind), Root(b, kind))
      && PathsCompatible(a.kind, Destination(a, kind), b.kind, Destination(b, kind))
  {}

  lemma NamesPairwise(members: seq<Member>, n: nat, m: Member)
    requires n <= |members| && !Skipped(m) && Normalized(m.name).Ok?
    ensures NameOf(m) !! Collected(Names(), members, n) <==> forall i :: 0 <= i < n ==> NamesDiffer(members[i], m)
  {
    CollectedApart(Names(), members, n, NameOf(m));
    forall i | 0 <= i < n ensures NameOf(m) !! Names()(members[i]) <==> NamesDiffer(members[i], m) {}
  }

  lemma RootsPairwise(
    root: Option<string>, of: Member -> Option<string>, members: seq<Member>, n: nat, own: Option<string>)
    requires n <= |members| && RootReached(root, of, members, n)
    ensures RootsAgree(own, root) <==> forall i :: 0 <= i < n ==> RootsAgree(of(members[i]), own)
  {
    if root.Some? {
      var i :| 0 <= i < n && of(members[i]) == root;
      assert RootsAgree(of(members[i]), own) ==> RootsAgree(own, root);
    }
  }

  /** What the sets ask of a path. */
  predicate PathFits(
    selected: set<string>, files: set<string>, directories: set<string>, t: Type, path: Option<string>)
  {
    && PathSet(path) !! selected
    && (path.Some? ==> Ancestors(path.value) !! files && (t == File ==> path.value !in directories))
  }

  lemma PathsPairwise(members: seq<Member>, n: nat, kind: Kind, t: Type, path: Option<string>)
    requires n <= |members|
    ensures PathFits(Collected(Paths(kind), members, n), Collected(Files(kind), members, n),
                     Collected(Directories(kind), members, n), t, path)
       <==> forall i :: 0 <= i < n ==> PathsCompatible(members[i].kind, Destination(members[i], kind), t, path)
  {
    CollectedApart(Paths(kind), members, n, PathSet(path));
    if path.Some? {
      CollectedApart(Files(kind), members, n, Ancestors(path.value));
      CollectedApart(Directories(kind), members, n, PathSet(path));
    }
    forall i | 0 <= i < n
      ensures PathsApart(members[i].kind, Destination(members[i], kind), t, path)
         <==> PathsCompatible(members[i].kind, Destination(members[i], kind), t, path)
    {
      ApartIsCompatible(members[i].kind, Destination(members[i], kind), t, path);
    }
  }

  /** The state gets along with a member exactly if every member before it does. */
  lemma StatePairwise(p: Progress, members: seq<Member>, n: nat, kind: Kind, m: Member)
    requires n <= |members| && Reached(p, members, n, kind) && !Skipped(m) && Normalized(m.name).Ok?
    ensures NameOf(m) !! p.seen && RootsAgree(Root(m, kind), p.root)
         && PathFits(p.selected, p.tree.files.Keys, p.tree.directories, m.kind, Destination(m, kind))
       <==> forall i :: 0 <= i < n ==> Compatible(members[i], m, kind)
  {
    NamesPairwise(members, n, m);
    RootsPairwise(p.root, Roots(kind), members, n, Root(m, kind));
    PathsPairwise(members, n, kind, m.kind, Destination(m, kind));
    forall i | 0 <= i < n
      ensures Compatible(members[i], m, kind) <==>
        && NamesDiffer(members[i], m) && RootsAgree(Roots(kind)(members[i]), Root(m, kind))
        && PathsCompatible(members[i].kind, Destination(members[i], kind), m.kind, Destination(m, kind))
    {
      PairParts(members[i], m, kind);
    }
  }

  // ---------------------------------------------------------------- the loop and the condition

  lemma AimParts(
    p: Progress, m: Member, kind: Kind, alone: Outcome<Selection>, path: Option<string>, root: Option<string>)
    requires alone.Ok? && path == Landing(alone.value.relative) && root == alone.value.root
    ensures Aims(p, alone) && (path.Some? ==> Fits(p, m, kind, path.value)) <==>
      && (alone.value.relative.Some? ==> path.Some? && path.value != SEAL)
      && (m.kind == File && path.Some? ==>
           m.size <= MaxFile(kind) && m.size <= |m.data| && p.written + m.size <= MaxSelected(kind))
      && RootsAgree(root, p.root)
      && PathFits(p.selected, p.tree.files.Keys, p.tree.directories, m.kind, path)
  {}

  lemma TakesParts(p: Progress, m: Member, kind: Kind)
    requires !Skipped(m)
    ensures Takes(p, m, kind) <==>
      && p.count + 1 <= MAX_MEMBERS && Sane(m, kind) && p.scanned + m.size <= MAX_EXPANDED
      && (m.kind == File && Destination(m, kind).Some? ==> p.written + m.size <= MaxSelected(kind))
      && NameOf(m) !! p.seen && RootsAgree(Root(m, kind), p.root)
      && PathFits(p.selected, p.tree.files.Keys, p.tree.directories, m.kind, Destination(m, kind))
  {
    if Selected(m, kind).Ok? {
      SelectedLands(m, kind);
      AimParts(p, m, kind, Selected(m, kind), Destination(m, kind), Root(m, kind));
    }
  }

  lemma SaneBytes(m: Member, kind: Kind)
    requires Sane(m, kind)
    ensures OwnBytes(m, kind) >= 0 && (Skipped(m) || m.size >= 0)
  {}

  lemma AllNext(ok: Member -> bool, members: seq<Member>, n: nat)
    requires n < |members|
    ensures (forall i :: 0 <= i < n + 1 ==> ok(members[i])) <==>
      && (forall i :: 0 <= i < n ==> ok(members[i]))
      && ok(members[n])
  {}

  lemma PairsNext(ok: (Member, Member) -> bool, members: seq<Member>, n: nat)
    requires n < |members|
    ensures (forall i, j :: 0 <= i < j < n + 1 ==> ok(members[i], members[j])) <==>
      && (forall i, j :: 0 <= i < j < n ==> ok(members[i], members[j]))
      && (forall i :: 0 <= i < n ==> ok(members[i], members[n]))
  {}

  /** One member more. */
  predicate Extends(members: seq<Member>, n: nat, kind: Kind)
    requires n < |members|
  {
    var m := members[n];
    && n + 1 <= MAX_MEMBERS && Sane(m, kind)
    && (forall i :: 0 <= i < n ==> Compatible(members[i], m, kind))
    && Expanded(members[..n]) + (if Skipped(m) then 0 else m.size) <= MAX_EXPANDED
    && FileBytes(members, n, kind) + OwnBytes(m, kind) <= MaxSelected(kind)
  }

  lemma AdmissibleNext(members: seq<Member>, n: nat, kind: Kind)
    requires n < |members|
    ensures Admissible(members, n + 1, kind) <==> Admissible(members, n, kind) && Extends(members, n, kind)
  {
    ExpandedStep(members, n);
    AllNext(m => Sane(m, kind), members, n);
    PairsNext((a, b) => Compatible(a, b, kind), members, n);
    if Sane(members[n], kind) { SaneBytes(members[n], kind); }
  }

  /** The state takes the next member exactly if the archive stays admissible with it. */
  lemma TakesExactly(p: Progress, members: seq<Member>, n: nat, kind: Kind)
    requires n < |members| && Reached(p, members, n, kind) && Admissible(members, n, kind)
    ensures Takes(p, members[n], kind) <==> Admissible(members, n + 1, kind)
  {
    var m := members[n];
    AdmissibleNext(members, n, kind);
    if !Skipped(m) {
      TakesParts(p, m, kind);
      if Sane(m, kind) { StatePairwise(p, members, n, kind, m); }
    }
  }

  lemma StartReached(members: seq<Member>, kind: Kind)
    ensures Reached(START, members, 0, kind) && Admissible(members, 0, kind)
  {}

  /** The loop gets through the first `n` members exactly if they are admissible. */
  lemma {:induction false} LoopAdmits(members: seq<Member>, n: nat, kind: Kind)
    requires n <= |members|
    ensures EndsAt(ExtractAll(members, n, kind), members, n, kind)
  {
    if n == 0 {
      StartReached(members, kind);
    } else {
      LoopAdmits(members, n - 1, kind);
      ExtractionBounded(members, n - 1, kind);
      LoopStep(ExtractAll(members, n - 1, kind), members, n - 1, kind, ExtractAll(members, n, kind));
    }
  }

  /** A turn of the loop ends as the condition says. */
  ghost predicate EndsAt(t: Turn, members: seq<Member>, n: nat, kind: Kind)
    requires n <= |members|
  {
    && (t.raised.None? <==> Admissible(members, n, kind))
    && (t.raised.None? ==> Reached(t.progress, members, n, kind))
  }

  lemma LoopStep(before: Turn, members: seq<Member>, n: nat, kind: Kind, after: Turn)
    requires n < |members| && EndsAt(before, members, n, kind)
    requires before.progress.tree.files.Keys <= before.progress.selected
    requires after == if before.raised.Some? then before else ExtractMember(before.progress, members[n], kind)
    ensures EndsAt(after, members, n + 1, kind)
  {
    if before.raised.Some? {
      AdmissibleNext(members, n, kind);
    } else {
      TurnAdmits(before.progress, members, n, kind);
    }
  }

  lemma TurnAdmits(p: Progress, members: seq<Member>, n: nat, kind: Kind)
    requires n < |members| && Reached(p, members, n, kind) && Admissible(members, n, kind)
    requires p.tree.files.Keys <= p.selected
    ensures EndsAt(ExtractMember(p, members[n], kind), members, n + 1, kind)
  {
    TakesExactly(p, members, n, kind);
    TurnTakes(p, members[n], kind);
    if Takes(p, members[n], kind) {
      if !Skipped(members[n]) { TakesParts(p, members[n], kind); }
      ReachedNext(p, members, n, kind, ExtractMember(p, members[n], kind).progress);
    }
  }

  // ---------------------------------------------------------------- acceptance

  /** A member brings a required file, and a recorder database that is not empty. */
  predicate Supplies(m: Member, kind: Kind, path: string) {
    m.kind == File && Destination(m, kind) == Some(path) && (path == RECORDER ==> m.size > 0)
  }

  predicate Provides(members: seq<Member>, kind: Kind) {
    forall path :: path in Required(kind) ==> exists m :: m in members && Supplies(m, kind, path)
  }

  lemma FileRestored(members: seq<Member>, kind: Kind, path: string)
    requires Admissible(members, |members|, kind) && (path == RECORDER ==> kind == HomeAssistant)
    ensures var files := ExtractAll(members, |members|, kind).progress.tree.files;
      path in files && (path == RECORDER ==> files[path] != []) <==>
        exists m :: m in members && Supplies(m, kind, path)
  {
    LoopAdmits(members, |members|, kind);
    ExtractionRestores(members, |members|, kind, Destinations(kind));
    var where, p := Destinations(kind), ExtractAll(members, |members|, kind).progress;
    RestoredSupplies(members, where, p.selected, p.tree.files, kind, path);
  }

  lemma RestoredSupplies(
    members: seq<Member>, where: Member -> Option<string>, selected: set<string>, files: map<string, Bytes>, kind: Kind,
    path: string)
    requires forall m :: where(m) == Destination(m, kind)
    requires Restored(members, |members|, where, selected, files)
    ensures path in files && (path == RECORDER ==> files[path] != []) <==>
      exists m :: m in members && Supplies(m, kind, path)
  {
    if m :| m in members && Supplies(m, kind, path) {
      var i :| 0 <= i < |members| && members[i] == m;
      assert where(members[i]) == Some(path);
    }
    if path in files && (path == RECORDER ==> files[path] != []) {
      var i :| 0 <= i < |members| && members[i].kind == File && where(members[i]) == Some(path);
      assert files[path] == members[i].data[..members[i].size];
      assert members[i] in members && Supplies(members[i], kind, path);
    }
  }

  ghost predicate Filled(files: map<string, Bytes>, path: string) {
    path in files && (path == RECORDER ==> files[path] != [])
  }

  lemma CompleteHolds(kind: Kind, files: map<string, Bytes>)
    ensures Complete(kind, files) <==> forall path :: path in Required(kind) ==> Filled(files, path)
  {
    assert kind == HomeAssistant <==> RECORDER in Required(kind);
    if forall path :: path in Required(kind) ==> Filled(files, path) {
      assert forall path :: path in Required(kind) ==> path in files;
    }
  }

  /**
   An archive is accepted exactly if its members are sound each by itself, get along in pairs, stay
   within the limits together, and bring every required file.
   */
  lemma AcceptedExactly(members: seq<Member>, kind: Kind)
    ensures Accepted(members, kind, false) <==> Admissible(members, |members|, kind) && Provides(members, kind)
  {
    LoopAdmits(members, |members|, kind);
    if Admissible(members, |members|, kind) {
      var files := ExtractAll(members, |members|, kind).progress.tree.files;
      CompleteHolds(kind, files);
      forall path | path in Required(kind)
        ensures Filled(files, path) <==> exists m :: m in members && Supplies(m, kind, path)
      {
        FileRestored(members, kind, path);
      }
    }
  }

  // ---------------------------------------------------------------- the order does not matter

  /** An element stands twice exactly if it is counted twice. */
  lemma {:induction false} Twice<T>(s: seq<T>, x: T)
    ensures multiset(s)[x] >= 2 <==> exists i, j :: 0 <= i < j < |s| && s[i] == x && s[j] == x
  {
    if s != [] {
      var n := |s| - 1;
      var front, last := s[..n], s[n];
      assert s == front + [last];
      Twice(front, x);
      if last == x && x in multiset(front) {
        var i :| 0 <= i < n && front[i] == x;
        assert s[i] == x && s[n] == x;
      }
    }
  }

  /** A symmetric relation between all pairs, without positions. */
  ghost predicate AllPairs<T(!new)>(ok: (T, T) -> bool, s: seq<T>) {
    forall x, y :: x in s && y in s && (x != y || multiset(s)[x] >= 2) ==> ok(x, y)
  }

  lemma PairsByContent<T(!new)>(ok: (T, T) -> bool, s: seq<T>)
    requires forall x, y :: ok(x, y) == ok(y, x)
    ensures (forall i, j :: 0 <= i < j < |s| ==> ok(s[i], s[j])) <==> AllPairs(ok, s)
  {
    if forall i, j :: 0 <= i < j < |s| ==> ok(s[i], s[j]) {
      forall x, y | x in s && y in s && (x != y || multiset(s)[x] >= 2) ensures ok(x, y) {
        if x == y {
          Twice(s, x);
          var i, j :| 0 <= i < j < |s| && s[i] == x && s[j] == x;
        } else {
          var i :| 0 <= i < |s| && s[i] == x;
          var j :| 0 <= j < |s| && s[j] == y;
          assert if i < j then ok(s[i], s[j]) else ok(s[j], s[i]);
        }
      }
    }
    if AllPairs(ok, s) {
      forall i, j | 0 <= i < j < |s| ensures ok(s[i], s[j]) {
        if s[i] == s[j] { Twice(s, s[i]); }
      }
    }
  }

  lemma AllPairsPermutes<T(!new)>(ok: (T, T) -> bool, a: seq<T>, b: seq<T>)
    requires multiset(a) == multiset(b) && AllPairs(ok, a)
    ensures AllPairs(ok, b)
  {
    forall x | x in b ensures x in a { assert x in multiset(a); }
  }

  function Adding(of: Member -> int): (int, Member) -> int { (total: int, m: Member) => total + of(m) }

  function Sum(of: Member -> int, members: seq<Member>): int { FoldLeft(Adding(of), 0, members) }

  lemma SumPermutes(of: Member -> int, a: seq<Member>, b: seq<Member>)
    requires multiset(a) == multiset(b)
    ensures Sum(of, a) == Sum(of, b)
  {
    FoldPermutes(Adding(of), 0, a, b);
  }

  function OwnBytesIn(kind: Kind): Member -> int { m => OwnBytes(m, kind) }

  function ScannedBytes(): Member -> int { m => if Skipped(m) then 0 else m.size }

  lemma {:induction false} ExpandedIsSum(members: seq<Member>)
    ensures Expanded(members) == Sum(ScannedBytes(), members)
  {
    if members != [] {
      var front, last := members[..|members| - 1], members[|members| - 1];
      ExpandedIsSum(front);
      assert members == front + [last];
      FoldSnoc(Adding(ScannedBytes()), 0, front, last);
    }
  }

  lemma {:induction false} FileBytesIsSum(members: seq<Member>, n: nat, kind: Kind)
    requires n <= |members|
    ensures FileBytes(members, n, kind) == Sum(OwnBytesIn(kind), members[..n])
  {
    if n > 0 {
      FileBytesIsSum(members, n - 1, kind);
      assert members[..n] == members[..n - 1] + [members[n - 1]];
      FoldSnoc(Adding(OwnBytesIn(kind)), 0, members[..n - 1], members[n - 1]);
    }
  }

  function CompatibleIn(kind: Kind): (Member, Member) -> bool { (a, b) => Compatible(a, b, kind) }

  /** The condition without positions. */
  lemma AdmissibleByContent(members: seq<Member>, kind: Kind)
    ensures Admissible(members, |members|, kind) <==>
      && |members| <= MAX_MEMBERS
      && (forall m :: m in members ==> Sane(m, kind))
      && AllPairs(CompatibleIn(kind), members)
      && Sum(ScannedBytes(), members) <= MAX_EXPANDED
      && Sum(OwnBytesIn(kind), members) <= MaxSelected(kind)
  {
    assert members[..|members|] == members;
    ExpandedIsSum(members);
    FileBytesIsSum(members, |members|, kind);
    PairsByContent(CompatibleIn(kind), members);
  }

  /** Whether an archive is accepted does not depend on the order of its members. */
  lemma OrderIrrelevant(a: seq<Member>, b: seq<Member>, kind: Kind, destinationExists: bool)
    requires multiset(a) == multiset(b)
    ensures Accepted(a, kind, destinationExists) == Accepted(b, kind, destinationExists)
  {
    AcceptedExactly(a, kind);
    AcceptedExactly(b, kind);
    AdmissibleByContent(a, kind);
    AdmissibleByContent(b, kind);
    SumPermutes(ScannedBytes(), a, b);
    SumPermutes(OwnBytesIn(kind), a, b);
    SameContent(a, b);
    if AllPairs(CompatibleIn(kind), a) { AllPairsPermutes(CompatibleIn(kind), a, b); }
    if AllPairs(CompatibleIn(kind), b) { AllPairsPermutes(CompatibleIn(kind), b, a); }
  }

  lemma SameContent<T>(a: seq<T>, b: seq<T>)
    requires multiset(a) == multiset(b)
    ensures |a| == |b| && forall x :: x in a <==> x in b
  {
    assert |multiset(a)| == |multiset(b)|;
    forall x ensures x in a <==> x in b {
      assert x in a <==> x in multiset(a);
      assert x in b <==> x in multiset(b);
    }
  }
}
