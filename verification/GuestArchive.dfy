/**
 Bounded extraction of restore/guest_archive.py: `copy_exact`, `extract_inner`, `drain` and the
 order of drain and seal in `extract_authenticated`.

 An archive is a sequence of members with the bytes that the stream really holds for them; the
 destination is a tree of files and directories keyed by their path beneath it.
 */
module GuestArchive {
  import opened Common
  import opened ArchivePaths

  const CHUNK := 65536
  const MAX_MEMBERS := 100000
  const GIB := 1024 * 1024 * 1024
  const MAX_EXPANDED := 32 * GIB
  const SEAL := ".authenticated-archive.json"

  function MaxSelected(kind: Kind): int { if kind == Compose then 256 * 1024 * 1024 else 24 * GIB }
  function MaxFile(kind: Kind): int { if kind == Compose then 64 * 1024 * 1024 else 20 * GIB }

  datatype Type = File | Directory | Special

  /** A member; `data` is what the stream yields for it, which is shorter than `size` if it is cut off. */
  datatype Member = Member(name: string, kind: Type, sparse: bool, size: int, data: Bytes)

  // ---------------------------------------------------------------- copy_exact

  /**
   Copies exactly `size` bytes from a stream that yields `data`, or raises when it ends early.
   `step` says how much each read returns of what it may; the result does not depend on it.
   */
  method CopyExact(data: Bytes, size: nat, step: nat -> nat) returns (output: Bytes, ok: bool)
    ensures ok <==> size <= |data|
    ensures output == if ok then data[..size] else data
  {
    output := [];
    var remaining := size;
    while remaining > 0
      invariant 0 <= remaining <= size && |output| == size - remaining <= |data|
      invariant output == data[..size - remaining]
    {
      var asked := if remaining < CHUNK then remaining else CHUNK;
      var left := |data| - |output|;
      var most := if asked < left then asked else left;
      var read := step(|output|);
      read := if read < 1 then 1 else read;
      read := if read < most then read else most;
      var chunk := data[|output|..|output| + read];
      if chunk == [] {
        assert data[..|data|] == data;
        return output, false;
      }
      assert data[..|output|] + chunk == data[..|output| + read];
      output := output + chunk;
      remaining := remaining - |chunk|;
    }
    assert data[..size - remaining] == data[..size];
    return output, true;
  }

  /** What `copy_exact` leaves in the target file. */
  function Copied(m: Member): Bytes { if 0 <= m.size <= |m.data| then m.data[..m.size] else m.data }

  // ---------------------------------------------------------------- the tree

  /** The directories that a path lies in. */
  function Ancestors(path: string): set<string> { set k | 0 < k < |path| && path[k] == '/' :: path[..k] }

  datatype Tree = Tree(files: map<string, Bytes>, directories: set<string>)

  /** Files and directories are apart, and everything lies in directories of the tree. */
  ghost predicate WellFormed(t: Tree) {
    && t.files.Keys !! t.directories
    && forall path :: path in t.files || path in t.directories ==> Ancestors(path) <= t.directories
  }

  /** `mkdir(parents=True, exist_ok=True)` on the parent of a path. */
  function MakeParents(t: Tree, path: string): Tree { t.(directories := t.directories + Ancestors(path)) }

  function AddDirectory(t: Tree, path: string): Tree { t.(directories := t.directories + {path}) }

  function AddFile(t: Tree, path: string, data: Bytes): Tree { t.(files := t.files[path := data]) }

  lemma AncestorsOf(path: string, above: string)
    requires above in Ancestors(path)
    ensures Ancestors(above) <= Ancestors(path) && above != path
  {
    forall q | q in Ancestors(above) ensures q in Ancestors(path) {
      var k :| 0 < k < |above| && above[k] == '/' && q == above[..k];
      assert path[..k] == q && path[k] == '/';
    }
  }

  /** The components of an ancestor are the first components of the path. */
  lemma {:induction false} PartsOfAncestor(path: string, k: nat)
    requires k < |path| && path[k] == '/'
    ensures var above := Parts(path[..k]); |above| < |Parts(path)| && Parts(path)[..|above|] == above
  {
    var front := path[..|path| - 1];
    if k < |path| - 1 {
      PartsOfAncestor(front, k);
      assert front[..k] == path[..k];
    }
  }

  lemma AncestorsConfined(path: string)
    requires Confined(path)
    ensures forall above :: above in Ancestors(path) ==> Confined(above)
  {
    forall above | above in Ancestors(path) ensures Confined(above) {
      var k :| 0 < k < |path| && path[k] == '/' && above == path[..k];
      PartsOfAncestor(path, k);
      assert forall i :: 0 <= i < |Parts(above)| ==> Parts(above)[i] == Parts(path)[i];
    }
  }

  lemma MakeParentsKeeps(t: Tree, path: string)
    requires WellFormed(t) && t.files.Keys * Ancestors(path) == {}
    ensures WellFormed(MakeParents(t, path)) && Ancestors(path) <= MakeParents(t, path).directories
  {
    forall above | above in Ancestors(path) ensures Ancestors(above) <= Ancestors(path) {
      AncestorsOf(path, above);
    }
    assert forall q :: q in t.files ==> q !in Ancestors(path) by {
      assert forall q :: q in t.files && q in Ancestors(path) ==> q in t.files.Keys * Ancestors(path);
    }
  }

  lemma AddDirectoryKeeps(t: Tree, path: string)
    requires WellFormed(t) && Ancestors(path) <= t.directories && path !in t.files
    ensures WellFormed(AddDirectory(t, path))
  {}

  lemma AddFileKeeps(t: Tree, path: string, data: Bytes)
    requires WellFormed(t) && Ancestors(path) <= t.directories && path !in t.files && path !in t.directories
    ensures WellFormed(AddFile(t, path, data))
  {}

  // ---------------------------------------------------------------- extract_inner

  /** The variables of the loop. */
  datatype Progress = Progress(
    seen: set<string>, selected: set<string>, root: Option<string>,
    count: int, scanned: int, written: int, files: int, tree: Tree)

  const START := Progress({}, {}, None, 0, 0, 0, 0, Tree(map[], {}))

  /** One turn of the loop: the progress it reaches, and why it raised, if it did. */
  datatype Turn = Turn(progress: Progress, raised: Option<string>)

  function Stop(p: Progress, reason: string): Turn { Turn(p, Some(reason)) }

  predicate Skipped(m: Member) { m.kind == Directory && (m.name == "." || m.name == "./") }

  /** The checks on a member up to its selection. */
  function Admit(p: Progress, m: Member): Turn {
    var counted := p.(count := p.count + 1);
    if counted.count > MAX_MEMBERS then Stop(counted, "archive_member_limit")
    else if Skipped(m) then Turn(counted, None)
    else if Normalized(m.name).Raise? then Stop(counted, "unsafe_archive_path")
    else
      var name := Normalized(m.name).value;
      if name in p.seen then Stop(counted, "duplicate_archive_member")
      else
        var named := counted.(seen := p.seen + {name});
        if m.kind == Special then Stop(named, "archive_special_object")
        else if m.sparse then Stop(named, "archive_sparse_object")
        else if m.size < 0 then Stop(named, "archive_size_invalid")
        else
          var sized := named.(scanned := p.scanned + m.size);
          if sized.scanned > MAX_EXPANDED then Stop(sized, "archive_expansion_limit") else Turn(sized, None)
  }

  /** Where an admitted member goes, once its selected path is normalized again. */
  function Target(p: Progress, m: Member, kind: Kind): Outcome<Selection>
    requires Normalized(m.name).Ok?
  {
    Aimed(p, SelectPath(Normalized(m.name).value, kind, p.root))
  }

  function Aimed(p: Progress, selection: Outcome<Selection>): Outcome<Selection> {
    if selection.Raise? || selection.value.relative.None? then selection
    else
      match Normalized(selection.value.relative.value)
      case Raise(reason) => Raise(reason)
      case Ok(path) =>
        if path in p.selected || path == SEAL then Raise("duplicate_or_reserved_selected_member")
        else Ok(Selection(Some(path), selection.value.root))
  }

  /** Creating the directories of a path and then the path; an entry of the wrong sort in the way raises. */
  function Place(p: Progress, m: Member, kind: Kind, path: string): Turn {
    if p.tree.files.Keys * Ancestors(path) != {} then Stop(p, "os_error")
    else
      var inside := p.(tree := MakeParents(p.tree, path));
      if m.kind == Directory then
        if path in p.tree.files then Stop(inside, "os_error")
        else Turn(inside.(tree := AddDirectory(inside.tree, path)), None)
      else PlaceFile(inside, m, kind, path)
  }

  function PlaceFile(p: Progress, m: Member, kind: Kind, path: string): Turn {
    var grown := p.(files := p.files + 1, written := p.written + m.size);
    if m.size > MaxFile(kind) || grown.written > MaxSelected(kind) then Stop(grown, "selected_archive_size_limit")
    else if path in p.tree.files || path in p.tree.directories then Stop(grown, "os_error")
    else
      var filled := grown.(tree := AddFile(p.tree, path, Copied(m)));
      if |m.data| < m.size then Stop(filled, "archive_member_truncated") else Turn(filled, None)
  }

  /** What happens to an admitted member. */
  function Restore(q: Progress, m: Member, kind: Kind): Turn
    requires Normalized(m.name).Ok?
  {
    match Target(q, m, kind)
    case Raise(reason) => Stop(q, reason)
    case Ok(selection) => RestoreTo(q, m, kind, selection)
  }

  function RestoreTo(q: Progress, m: Member, kind: Kind, selection: Selection): Turn {
    var rooted := q.(root := selection.root);
    match selection.relative
    case None => Turn(rooted, None)
    case Some(path) => Place(rooted.(selected := q.selected + {path}), m, kind, path)
  }

  function ExtractMember(p: Progress, m: Member, kind: Kind): Turn {
    var admitted := Admit(p, m);
    if admitted.raised.Some? || Skipped(m) then admitted else Restore(admitted.progress, m, kind)
  }

  // ---------------------------------------------------------------- what the loop keeps

  /** The size of the bytes in the files. */
  ghost function Total(files: map<string, Bytes>): nat
    decreases files.Keys
  {
    if files == map[] then 0
    else
      var path :| path in files;
      |files[path]| + Total(files - {path})
  }

  lemma {:induction false} TotalWithout(files: map<string, Bytes>, path: string)
    requires path in files
    ensures Total(files) == |files[path]| + Total(files - {path})
    decreases files.Keys
  {
    var first :| first in files && Total(files) == |files[first]| + Total(files - {first});
    if first != path {
      TotalWithout(files - {first}, path);
      TotalWithout(files - {path}, first);
      assert files - {first} - {path} == files - {path} - {first};
    }
  }

  lemma TotalWith(files: map<string, Bytes>, path: string, data: Bytes)
    requires path !in files
    ensures Total(files[path := data]) == Total(files) + |data|
  {
    TotalWithout(files[path := data], path);
    assert files[path := data] - {path} == files;
  }

  /** What the destination may hold at any time, also after a raise. */
  ghost predicate Held(t: Tree, selected: set<string>, kind: Kind) {
    && WellFormed(t)
    && t.files.Keys <= selected && (forall path :: path in t.directories ==> Confined(path))
    && Total(t.files) <= MaxSelected(kind)
    && forall path :: path in t.files ==> |t.files[path]| <= MaxFile(kind)
  }

  ghost predicate AllConfined(selected: set<string>) {
    forall path :: path in selected ==> Confined(path) && path != SEAL
  }

  /** The loop's counters are the true sums. */
  ghost predicate Counted(files: int, written: int, t: Tree) { files == |t.files| && written == Total(t.files) }

  ghost predicate Limited(count: int, scanned: int, written: int, kind: Kind) {
    0 <= count <= MAX_MEMBERS && 0 <= scanned <= MAX_EXPANDED && 0 <= written <= MaxSelected(kind)
  }

  lemma AdmitKeeps(p: Progress, m: Member, kind: Kind)
    requires Limited(p.count, p.scanned, p.written, kind)
    ensures var t := Admit(p, m);
      && t.progress == p.(count := p.count + 1, seen := t.progress.seen, scanned := t.progress.scanned)
      && (t.raised.None? ==> Limited(t.progress.count, t.progress.scanned, p.written, kind))
      && (t.raised.None? && !Skipped(m) ==> Normalized(m.name).Ok? && m.size >= 0 && m.kind != Special)
      && (t.raised.None? ==> t.progress.scanned == p.scanned + if Skipped(m) then 0 else m.size)
  {}

  /** What a placement keeps and counts. */
  ghost predicate Placed(p: Progress, t: Turn, kind: Kind) {
    && Held(t.progress.tree, p.selected, kind)
    && t.progress == p.(files := t.progress.files, written := t.progress.written, tree := t.progress.tree)
    && (t.raised.None? ==> Counted(t.progress.files, t.progress.written, t.progress.tree))
    && (t.raised.None? ==> 0 <= t.progress.written <= MaxSelected(kind))
  }

  lemma FileHeld(t: Tree, selected: set<string>, kind: Kind, path: string, data: Bytes)
    requires Held(t, selected, kind) && path in selected && path !in t.files && path !in t.directories
    requires Ancestors(path) <= t.directories && Total(t.files) + |data| <= MaxSelected(kind) && |data| <= MaxFile(kind)
    ensures Held(AddFile(t, path, data), selected, kind)
    ensures Total(AddFile(t, path, data).files) == Total(t.files) + |data|
    ensures |AddFile(t, path, data).files| == |t.files| + 1
  {
    AddFileKeeps(t, path, data);
    TotalWith(t.files, path, data);
  }

  lemma PlaceFileKeeps(p: Progress, m: Member, kind: Kind, path: string)
    requires Held(p.tree, p.selected, kind) && Counted(p.files, p.written, p.tree) && path in p.selected && m.size >= 0
    requires Ancestors(path) <= p.tree.directories
    ensures Placed(p, PlaceFile(p, m, kind, path), kind)
  {
    if
      && m.size <= MaxFile(kind) && p.written + m.size <= MaxSelected(kind)
      && path !in p.tree.files && path !in p.tree.directories
    {
      FileHeld(p.tree, p.selected, kind, path, Copied(m));
    }
  }

  lemma PlaceKeeps(p: Progress, m: Member, kind: Kind, path: string)
    requires Held(p.tree, p.selected, kind) && Counted(p.files, p.written, p.tree) && path in p.selected && m.size >= 0
    requires Confined(path) && 0 <= p.written <= MaxSelected(kind)
    ensures Placed(p, Place(p, m, kind, path), kind)
  {
    if p.tree.files.Keys * Ancestors(path) == {} {
      var inside := p.(tree := MakeParents(p.tree, path));
      MakeParentsKeeps(p.tree, path);
      AncestorsConfined(path);
      if m.kind != Directory {
        PlaceFileKeeps(inside, m, kind, path);
      } else if path !in p.tree.files {
        AddDirectoryKeeps(inside.tree, path);
      }
    }
  }

  lemma SelectMore(t: Tree, selected: set<string>, kind: Kind, path: string)
    requires Held(t, selected, kind) && AllConfined(selected) && Confined(path) && path != SEAL
    ensures Held(t, selected + {path}, kind) && AllConfined(selected + {path})
  {}

  /** After `n` members of `expanded` bytes: bounds also after a raise, true counters without one. */
  ghost predicate Sound(t: Turn, n: int, expanded: int, kind: Kind) {
    && Held(t.progress.tree, t.progress.selected, kind) && AllConfined(t.progress.selected)
    && (t.raised.None? ==>
         && Counted(t.progress.files, t.progress.written, t.progress.tree)
         && Limited(t.progress.count, t.progress.scanned, t.progress.written, kind)
         && t.progress.count == n && t.progress.scanned == expanded)
  }

  lemma ExtractKeeps(p: Progress, m: Member, kind: Kind, n: int, expanded: int)
    requires Sound(Turn(p, None), n, expanded, kind)
    ensures Sound(ExtractMember(p, m, kind), n + 1, expanded + if Skipped(m) then 0 else m.size, kind)
  {
    AdmitKeeps(p, m, kind);
    var q := Admit(p, m).progress;
    if Admit(p, m).raised.None? && !Skipped(m) {
      var target := Target(q, m, kind);
      if target.Ok? && target.value.relative.Some? {
        var path := target.value.relative.value;
        NormalizedIsConfinedAndStable(SelectPath(Normalized(m.name).value, kind, q.root).value.relative.value);
        SelectMore(q.tree, q.selected, kind, path);
        PlaceKeeps(q.(root := target.value.root, selected := q.selected + {path}), m, kind, path);
      }
    }
  }

  // ---------------------------------------------------------------- what is restored

  /** Where a member restores to, whatever else the archive holds. */
  function Destination(m: Member, kind: Kind): Option<string> {
    if Skipped(m) || Normalized(m.name).Raise? then None
    else
      match SelectPath(Normalized(m.name).value, kind, None)
      case Raise(_) => None
      case Ok(selection) => Landing(selection.relative)
  }

  function Landing(relative: Option<string>): Option<string> {
    if relative.None? then None
    else
      match Normalized(relative.value)
      case Raise(_) => None
      case Ok(path) => Some(path)
  }

  /** A member that is no skipped directory restores to a path exactly if its name says so. */
  lemma DestinationExactly(m: Member, kind: Kind, path: string)
    requires !Skipped(m)
    ensures Destination(m, kind) == Some(path) <==>
      Normalized(m.name).Ok? && path != "" && NamesPath(Normalized(m.name).value, kind, path)
  {
    if Normalized(m.name).Ok? {
      var name := Normalized(m.name).value;
      NormalizedIsConfinedAndStable(m.name);
      LandingExactly(name, kind, path);
    }
  }

  lemma LandingExactly(name: string, kind: Kind, path: string)
    requires Normalized(name) == Ok(name)
    ensures (match SelectPath(name, kind, None)
             case Raise(_) => None
             case Ok(selection) => Landing(selection.relative)) == Some(path)
       <==> path != "" && NamesPath(name, kind, path)
  {
    var selection := SelectPath(name, kind, None);
    SelectsExactly(name, kind, path);
    if NamesPath(name, kind, path) && path != "" { SelectedNormalizes(name, kind, path); }
    if selection.Ok? && selection.value.relative.Some? {
      var relative := selection.value.relative.value;
      SelectsExactly(name, kind, relative);
      SelectedNormalizes(name, kind, relative);
      NormalizedIsConfinedAndStable(relative);
    }
  }

  lemma TargetIsDestination(p: Progress, m: Member, kind: Kind)
    requires Normalized(m.name).Ok? && !Skipped(m) && Target(p, m, kind).Ok?
    ensures Target(p, m, kind).value.relative == Destination(m, kind)
  {
    SelectionIgnoresRoot(Normalized(m.name).value, kind, p.root);
  }

  /** What a turn adds: the member's file, whole, under a path that was not taken. */
  ghost predicate Wrote(
    m: Member, path: Option<string>, selected: set<string>, files: map<string, Bytes>, nextSelected: set<string>,
    nextFiles: map<string, Bytes>)
  {
    && nextSelected == selected + (if path.Some? then {path.value} else {})
    && (path.Some? ==> path.value !in selected)
    && if path.Some? && m.kind == File then
         0 <= m.size <= |m.data| && nextFiles == files[path.value := m.data[..m.size]]
       else nextFiles == files
  }

  lemma PlaceWrites(p: Progress, m: Member, kind: Kind, path: string)
    requires m.kind != Special && m.size >= 0
    ensures var t := Place(p, m, kind, path);
      t.raised.None? ==>
        && t.progress.selected == p.selected
        && if m.kind == File
           then 0 <= m.size <= |m.data| && t.progress.tree.files == p.tree.files[path := m.data[..m.size]]
           else t.progress.tree.files == p.tree.files
  {}

  /** A member whose turn does not raise is written to its destination. */
  lemma ExtractWrites(p: Progress, m: Member, kind: Kind)
    requires Limited(p.count, p.scanned, p.written, kind)
    ensures var t := ExtractMember(p, m, kind);
      t.raised.None? ==>
        Wrote(m, Destination(m, kind), p.selected, p.tree.files, t.progress.selected, t.progress.tree.files)
  {
    AdmitKeeps(p, m, kind);
    var q := Admit(p, m).progress;
    if Admit(p, m).raised.None? && !Skipped(m) {
      var target := Target(q, m, kind);
      if target.Ok? {
        TargetIsDestination(q, m, kind);
        if target.value.relative.Some? {
          var path := target.value.relative.value;
          PlaceWrites(q.(root := target.value.root, selected := q.selected + {path}), m, kind, path);
        }
      }
    }
  }

  /**
   Of the first `n` members exactly those files that have a destination are in the tree, each with
   its bytes and none over another; `where` gives the destinations.
   */
  ghost predicate Restored(
    members: seq<Member>, n: nat, where: Member -> Option<string>, selected: set<string>, files: map<string, Bytes>)
    requires n <= |members|
  {
    && (forall i :: 0 <= i < n && where(members[i]).Some? ==> where(members[i]).value in selected)
    && (forall i, j :: 0 <= i < j < n && where(members[i]).Some? ==> where(members[i]) != where(members[j]))
    && (forall path :: path in files ==>
         exists i :: 0 <= i < n && members[i].kind == File && where(members[i]) == Some(path))
    && (forall i :: 0 <= i < n && members[i].kind == File && where(members[i]).Some? ==>
         var m, path := members[i], where(members[i]).value;
         path in files && 0 <= m.size <= |m.data| && files[path] == m.data[..m.size])
  }

  lemma RestoredStep(
    members: seq<Member>, n: nat, where: Member -> Option<string>, selected: set<string>, files: map<string, Bytes>,
    nextSelected: set<string>, nextFiles: map<string, Bytes>)
    requires n < |members| && Restored(members, n, where, selected, files)
    requires Wrote(members[n], where(members[n]), selected, files, nextSelected, nextFiles)
    ensures Restored(members, n + 1, where, nextSelected, nextFiles)
  {
    forall path | path in nextFiles
      ensures exists i :: 0 <= i < n + 1 && members[i].kind == File && where(members[i]) == Some(path)
    {
      if path in files && where(members[n]) != Some(path) {
        var i :| 0 <= i < n && members[i].kind == File && where(members[i]) == Some(path);
      }
    }
  }

  function Expanded(members: seq<Member>): int {
    if members == [] then 0
    else
      var last := members[|members| - 1];
      Expanded(members[..|members| - 1]) + if Skipped(last) then 0 else last.size
  }

  // ---------------------------------------------------------------- the program

  const RECORDER := "home-assistant_v2.db"

  function Required(kind: Kind): set<string> {
    if kind == Compose then {"bundle.json", "manifest.yaml", "checksums.json"}
    else {"configuration.yaml", ".storage/auth", ".storage/core.config_entries", ".storage/core.entity_registry",
          ".storage/core.device_registry", RECORDER}
  }

  predicate Complete(kind: Kind, files: map<string, Bytes>) {
    Required(kind) <= files.Keys && (kind == HomeAssistant ==> RECORDER in files && files[RECORDER] != [])
  }

  datatype Proof = Proof(kind: Kind, members: int, expanded: int, files: int, bytes: int)

  /** What a returned proof says about the archive and the tree. */
  ghost predicate Proves(proof: Proof, members: seq<Member>, kind: Kind, tree: Tree) {
    && proof == Proof(kind, |members|, Expanded(members), |tree.files|, Total(tree.files))
    && proof.members <= MAX_MEMBERS && proof.expanded <= MAX_EXPANDED && proof.bytes <= MaxSelected(kind)
  }

  /** The member is a file of that path. */
  ghost predicate Brings(m: Member, kind: Kind, path: string) {
    m.kind == File && Normalized(m.name).Ok? && path != "" && NamesPath(Normalized(m.name).value, kind, path)
  }

  /** The files are those that some member brings, each with that member's bytes. */
  ghost predicate Lands(members: seq<Member>, brings: (Member, string) -> bool, files: map<string, Bytes>) {
    && (forall path :: path in files <==> exists i :: 0 <= i < |members| && brings(members[i], path))
    && (forall i, path :: 0 <= i < |members| && brings(members[i], path) ==>
          var m := members[i];
          path in files && 0 <= m.size <= |m.data| && files[path] == m.data[..m.size])
  }

  ghost function Bringing(kind: Kind): (Member, string) -> bool { (m, path) => Brings(m, kind, path) }

  lemma RestoredLands(
    members: seq<Member>, where: Member -> Option<string>, brings: (Member, string) -> bool, selected: set<string>,
    files: map<string, Bytes>)
    requires forall m, path :: brings(m, path) <==> m.kind == File && where(m) == Some(path)
    requires Restored(members, |members|, where, selected, files)
    ensures Lands(members, brings, files)
  {
    forall path | path in files ensures exists i :: 0 <= i < |members| && brings(members[i], path) {
      var i :| 0 <= i < |members| && members[i].kind == File && where(members[i]) == Some(path);
      assert brings(members[i], path);
    }
  }

  lemma BroughtIsDestination(kind: Kind)
    ensures forall m, path :: Bringing(kind)(m, path) <==> m.kind == File && Destinations(kind)(m) == Some(path)
  {
    forall m, path ensures Bringing(kind)(m, path) <==> m.kind == File && Destinations(kind)(m) == Some(path) {
      if m.kind == File { DestinationExactly(m, kind, path); }
    }
  }

  function Destinations(kind: Kind): Member -> Option<string> { m => Destination(m, kind) }

  /** The loop over the first `n` members, as far as it gets. */
  function ExtractAll(members: seq<Member>, n: nat, kind: Kind): Turn
    requires n <= |members|
  {
    if n == 0 then Turn(START, None)
    else
      var before := ExtractAll(members, n - 1, kind);
      if before.raised.Some? then before else ExtractMember(before.progress, members[n - 1], kind)
  }

  /** What was created lies within bounds, also after a raise; without one the counters are the true sums. */
  lemma {:induction false} ExtractionBounded(members: seq<Member>, n: nat, kind: Kind)
    requires n <= |members|
    ensures Sound(ExtractAll(members, n, kind), n, Expanded(members[..n]), kind)
  {
    if n == 0 {
      StartHolds(members, kind);
    } else {
      ExtractionBounded(members, n - 1, kind);
      var before := ExtractAll(members, n - 1, kind);
      if before.raised.None? {
        ExpandedStep(members, n - 1);
        ExtractKeeps(before.progress, members[n - 1], kind, n - 1, Expanded(members[..n - 1]));
      }
    }
  }

  /** Without a raise exactly the selected files are restored. */
  lemma {:induction false} ExtractionRestores(members: seq<Member>, n: nat, kind: Kind, where: Member -> Option<string>)
    requires n <= |members| && ExtractAll(members, n, kind).raised.None?
    requires forall m :: where(m) == Destination(m, kind)
    ensures var p := ExtractAll(members, n, kind).progress; Restored(members, n, where, p.selected, p.tree.files)
  {
    if n > 0 {
      var p := ExtractAll(members, n - 1, kind).progress;
      var t := ExtractMember(p, members[n - 1], kind);
      ExtractionRestores(members, n - 1, kind, where);
      ExtractionBounded(members, n - 1, kind);
      ExtractWrites(p, members[n - 1], kind);
      RestoredStep(members, n - 1, where, p.selected, p.tree.files, t.progress.selected, t.progress.tree.files);
    }
  }

  lemma StartHolds(members: seq<Member>, kind: Kind)
    ensures Sound(Turn(START, None), 0, Expanded(members[..0]), kind)
  {}

  lemma ExpandedStep(members: seq<Member>, n: nat)
    requires n < |members|
    ensures Expanded(members[..n + 1]) == Expanded(members[..n]) + if Skipped(members[n]) then 0 else members[n].size
  {
    assert members[..n + 1][..n] == members[..n];
  }

  /** The extraction that the loop and the checks after it describe. */
  function Extraction(members: seq<Member>, kind: Kind, destinationExists: bool): Turn {
    if destinationExists then Turn(START, Some("destination_exists")) else ExtractAll(members, |members|, kind)
  }

  /** The archive is accepted: the loop does not raise, and what must be there is there. */
  predicate Accepted(members: seq<Member>, kind: Kind, destinationExists: bool) {
    var turn := Extraction(members, kind, destinationExists);
    turn.raised.None? && Complete(kind, turn.progress.tree.files)
  }

  /**
   Restores every selected file and returns a proof exactly if the archive is accepted, and raises
   otherwise; in both cases all that was created lies beneath the destination and within the limits.
   */
  method ExtractInner(members: seq<Member>, kind: Kind, destinationExists: bool)
    returns (outcome: Outcome<Proof>, tree: Tree, ghost selected: set<string>)
    ensures Held(tree, selected, kind) && AllConfined(selected)
    ensures tree == Extraction(members, kind, destinationExists).progress.tree
    ensures outcome.Ok? <==> Accepted(members, kind, destinationExists)
    ensures outcome.Raise? ==>
      var raised := Extraction(members, kind, destinationExists).raised;
      outcome.reason
        == if raised.Some? then raised.value
           else if Required(kind) <= tree.files.Keys then "restored_recorder_empty"
           else "required_restored_state_missing"
    ensures outcome.Ok? ==>
      && Restored(members, |members|, Destinations(kind), selected, tree.files)
      && Lands(members, Bringing(kind), tree.files)
      && Complete(kind, tree.files)
      && Proves(outcome.value, members, kind, tree)
  {
    StartHolds(members, kind);
    if destinationExists { return Raise("destination_exists"), START.tree, {}; }
    var turn := ExtractMembers(members, kind);
    ExtractionBounded(members, |members|, kind);
    assert members[..|members|] == members;
    tree, selected := turn.progress.tree, turn.progress.selected;
    if turn.raised.Some? { return Raise(turn.raised.value), tree, selected; }
    ExtractionRestores(members, |members|, kind, Destinations(kind));
    BroughtIsDestination(kind);
    RestoredLands(members, Destinations(kind), Bringing(kind), selected, tree.files);
    var p := turn.progress;
    if !(Required(kind) <= tree.files.Keys) {
      outcome := Raise("required_restored_state_missing");
    } else if kind == HomeAssistant && tree.files[RECORDER] == [] {
      outcome := Raise("restored_recorder_empty");
    } else {
      outcome := Ok(Proof(kind, p.count, p.scanned, p.files, p.written));
    }
  }

  /** The loop over the members. */
  method ExtractMembers(members: seq<Member>, kind: Kind) returns (turn: Turn)
    ensures turn == ExtractAll(members, |members|, kind)
  {
    turn := Turn(START, None);
    for n := 0 to |members|
      invariant turn == ExtractAll(members, n, kind) && turn.raised.None?
    {
      turn := ExtractMember(turn.progress, members[n], kind);
      if turn.raised.Some? {
        RaiseStays(members, n + 1, |members|, kind);
        return;
      }
    }
  }

  lemma {:induction false} RaiseStays(members: seq<Member>, k: nat, n: nat, kind: Kind)
    requires k <= n <= |members| && ExtractAll(members, k, kind).raised.Some?
    ensures ExtractAll(members, n, kind) == ExtractAll(members, k, kind)
  {
    if k < n {
      RaiseStays(members, k, n - 1, kind);
    }
  }

  // ---------------------------------------------------------------- drain, then seal

  /** A stream being read: how far, and how long it is. */
  class Stream {
    var position: nat
    const length: nat

    constructor (length: nat)
      ensures position == 0 && this.length == length
    {
      this.length := length;
      position := 0;
    }

    /** Up to `most` bytes; none only at the end. */
    method Read(most: nat) returns (n: nat)
      requires position <= length && most > 0
      modifies this
      ensures position == old(position) + n <= length && n <= most && (n == 0 <==> old(position) == length)
    {
      n := if length - position < most then length - position else most;
      position := position + n;
    }
  }

  /** `drain`: reads to the end, unless more than the limit is left. */
  method Drain(stream: Stream) returns (ok: bool)
    requires stream.position <= stream.length
    modifies stream
    ensures stream.position <= stream.length
    ensures ok <==> stream.length - old(stream.position) <= MAX_EXPANDED
    ensures ok ==> stream.position == stream.length
  {
    var trailing := 0;
    var n := stream.Read(CHUNK);
    while n > 0
      invariant 0 <= n && stream.position <= stream.length && trailing + n == stream.position - old(stream.position)
      invariant trailing <= MAX_EXPANDED && (n == 0 ==> stream.position == stream.length)
      decreases stream.length - stream.position, n
    {
      trailing := trailing + n;
      if trailing > MAX_EXPANDED { return false; }
      n := stream.Read(CHUNK);
    }
    return true;
  }

  /**
   The inner archive of `extract_authenticated`: `consumed` is how far the tar reader had read when
   it met the end of the archive.  The seal is written exactly if the archive was accepted, the rest
   of the stream was read to its end within the limit, and no directory has the seal's name; it is
   then all that is added to the extracted tree, and the returned proof is that of the archive.
   */
  method ExtractAndSeal(stream: Stream, consumed: nat, members: seq<Member>, kind: Kind, destinationExists: bool)
    returns (outcome: Outcome<Proof>, tree: Tree, isSealed: bool)
    requires stream.position == 0 && consumed <= stream.length
    modifies stream
    ensures isSealed <==> outcome.Ok?
    ensures var inner := Extraction(members, kind, destinationExists).progress.tree;
      && (isSealed <==>
           && Accepted(members, kind, destinationExists)
           && stream.length - consumed <= MAX_EXPANDED && SEAL !in inner.directories)
      && SEAL !in inner.files
      && tree == (if isSealed then AddFile(inner, SEAL, []) else inner)
      && (isSealed ==> Proves(outcome.value, members, kind, inner) && Complete(kind, inner.files))
      && (isSealed ==> exists selected :: Restored(members, |members|, Destinations(kind), selected, inner.files))
    ensures isSealed ==> stream.position == stream.length
    ensures !isSealed && Accepted(members, kind, destinationExists) ==>
      outcome == Raise(if stream.length - consumed > MAX_EXPANDED then "decrypted_tail_limit" else "os_error")
  {
    var inner;
    ghost var selected;
    inner, tree, selected := ExtractInner(members, kind, destinationExists);
    stream.position := consumed;
    if inner.Raise? { return inner, tree, false; }
    var drained := Drain(stream);
    if !drained { return Raise("decrypted_tail_limit"), tree, false; }
    if SEAL in tree.directories { return Raise("os_error"), tree, false; }
    return inner, AddFile(tree, SEAL, []), true;
  }
}
