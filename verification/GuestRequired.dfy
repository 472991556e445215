/**
 The smallest archives that `extract_inner` of restore/guest_archive.py takes: exactly the required
 files, of either kind, and the limits they must keep.
 */
module GuestRequired {
  import opened Common
  import opened ArchivePaths
  import opened GuestArchive
  import opened GuestAcceptance

  /** The limits in bytes and members. */
  lemma Limits()
    ensures MAX_MEMBERS == 100_000 && MAX_EXPANDED == 34_359_738_368 && MAX_NAME == 1_024
    ensures MaxSelected(Compose) == 268_435_456 && MaxSelected(HomeAssistant) == 25_769_803_776
    ensures MaxFile(Compose) == 67_108_864 && MaxFile(HomeAssistant) == 21_474_836_480
  {}

  /** Files under a common prefix. */
  function Packed(prefix: string, paths: seq<string>, contents: seq<Bytes>): seq<Member>
    requires |paths| == |contents|
  {
    seq(|paths|, i requires 0 <= i < |paths| =>
      Member(prefix + paths[i], File, false, |contents[i]|, contents[i]))
  }

  function Size(contents: seq<Bytes>, n: nat): nat
    requires n <= |contents|
  {
    if n == 0 then 0 else Size(contents, n - 1) + |contents[n - 1]|
  }

  /** Paths of which none is another one or lies beneath it. */
  ghost predicate Separate(paths: seq<string>) {
    forall i, j :: 0 <= i < |paths| && 0 <= j < |paths| && i != j ==>
      paths[i] != paths[j] && paths[i] !in Ancestors(paths[j])
  }

  /** Behind the prefix every path is a normalized name that restores to it. */
  ghost predicate Restorable(prefix: string, paths: seq<string>, kind: Kind, root: Option<string>) {
    forall i :: 0 <= i < |paths| ==>
      && Normalized(prefix + paths[i]) == Ok(prefix + paths[i])
      && SelectPath(prefix + paths[i], kind, None) == Ok(Selection(Some(paths[i]), root))
      && Normalized(paths[i]) == Ok(paths[i]) && paths[i] != SEAL
  }

  ghost predicate Small(contents: seq<Bytes>, kind: Kind) {
    && Size(contents, |contents|) <= MaxSelected(kind)
    && forall i :: 0 <= i < |contents| ==> |contents[i]| <= MaxFile(kind)
  }

  lemma MemberLands(prefix: string, paths: seq<string>, contents: seq<Bytes>, kind: Kind, root: Option<string>, i: nat)
    requires |paths| == |contents| && i < |paths| && Restorable(prefix, paths, kind, root) && Small(contents, kind)
    ensures var m := Packed(prefix, paths, contents)[i];
      && !Skipped(m) && Normalized(m.name) == Ok(prefix + paths[i])
      && Destination(m, kind) == Some(paths[i]) && Root(m, kind) == root && Sane(m, kind)
      && OwnBytes(m, kind) == |contents[i]|
  {}

  /** The member holds exactly some bytes, and all of them count. */
  ghost predicate Holds(m: Member, kind: Kind, content: Bytes) {
    !Skipped(m) && m.size == |content| && OwnBytes(m, kind) == |content|
  }

  lemma {:induction false} SizesAdd(members: seq<Member>, contents: seq<Bytes>, kind: Kind, n: nat)
    requires |members| == |contents| && n <= |members|
    requires forall i :: 0 <= i < n ==> Holds(members[i], kind, contents[i])
    ensures Expanded(members[..n]) == FileBytes(members, n, kind) == Size(contents, n)
  {
    if n > 0 {
      SizesAdd(members, contents, kind, n - 1);
      ExpandedStep(members, n - 1);
      SizeStep(members[n - 1], kind, contents[n - 1]);
    } else {
      assert members[..0] == [];
    }
  }

  lemma SizeStep(m: Member, kind: Kind, content: Bytes)
    requires Holds(m, kind, content)
    ensures (if Skipped(m) then 0 else m.size) == |content| == OwnBytes(m, kind)
  {}

  lemma PackedAdmissible(prefix: string, paths: seq<string>, contents: seq<Bytes>, kind: Kind, root: Option<string>)
    requires |paths| == |contents| <= MAX_MEMBERS && Separate(paths)
    requires Restorable(prefix, paths, kind, root) && Small(contents, kind)
    ensures Admissible(Packed(prefix, paths, contents), |paths|, kind)
  {
    var members := Packed(prefix, paths, contents);
    forall i | 0 <= i < |members| ensures Holds(members[i], kind, contents[i]) {
      MemberLands(prefix, paths, contents, kind, root, i);
    }
    SizesAdd(members, contents, kind, |paths|);
    forall i | 0 <= i < |members| ensures Sane(members[i], kind) {
      MemberLands(prefix, paths, contents, kind, root, i);
    }
    forall i, j | 0 <= i < j < |members| ensures Compatible(members[i], members[j], kind) {
      MemberLands(prefix, paths, contents, kind, root, i);
      MemberLands(prefix, paths, contents, kind, root, j);
      Drop(prefix, paths[i]);
      Drop(prefix, paths[j]);
    }
  }

  /** An archive of separate files is accepted if they are small and every required path is among them. */
  lemma PackedAccepted(prefix: string, paths: seq<string>, contents: seq<Bytes>, kind: Kind, root: Option<string>)
    requires |paths| == |contents| <= MAX_MEMBERS && Separate(paths)
    requires Restorable(prefix, paths, kind, root) && Small(contents, kind)
    requires forall path :: path in Required(kind) ==>
      exists i :: 0 <= i < |paths| && paths[i] == path && (path == RECORDER ==> contents[i] != [])
    ensures Accepted(Packed(prefix, paths, contents), kind, false)
  {
    var members := Packed(prefix, paths, contents);
    PackedAdmissible(prefix, paths, contents, kind, root);
    forall path | path in Required(kind) ensures exists m :: m in members && Supplies(m, kind, path) {
      var i :| 0 <= i < |paths| && paths[i] == path && (path == RECORDER ==> contents[i] != []);
      MemberLands(prefix, paths, contents, kind, root, i);
      assert members[i] in members && Supplies(members[i], kind, path);
    }
    AcceptedExactly(members, kind);
  }

  // ---------------------------------------------------------------- names

  /** A component of ordinary characters. */
  ghost predicate Component(part: string) {
    part !in {"", ".", ".."} && forall i :: 0 <= i < |part| ==> part[i] as int !in {0, 47, 92}
  }

  lemma ComponentConfined(part: string)
    requires Component(part)
    ensures Confined(part) && Ancestors(part) == {}
  {
    PlainPart(part);
  }

  lemma ConcatConfined(a: string, b: string)
    requires Confined(a) && Confined(b)
    ensures Confined(a + "/" + b)
  {
    PartsConcat(a, b);
  }

  lemma AncestorOfTwo(a: string, b: string)
    requires Component(a) && Component(b)
    ensures Ancestors(a + "/" + b) == {a}
  {
    var path := a + "/" + b;
    assert forall i :: 0 <= i < |a| ==> path[i] == a[i];
    assert forall k :: |a| < k < |path| ==> path[k] == b[k - |a| - 1];
    assert path[..|a|] == a && path[|a|] == '/';
  }

  predicate Clean(text: string) { forall i :: 0 <= i < |text| ==> text[i] as int != 92 && text[i] as int != 0 }

  lemma CleanNormalizes(path: string)
    requires Confined(path) && Clean(path) && |path| <= 1024
    ensures Normalized(path) == Ok(path)
  {
    assert Parts("") == [""] && !Plain(Parts("")[0]);
    assert Nameable(path);
    ConfinedIsAccepted(path);
  }

  /** A path beneath "data" that is not a nested backup. */
  lemma NativeRestorable(path: string)
    requires Confined(path) && Clean(path) && |path| <= 1000 && path != "backups" && !("backups/" <= path)
    ensures Normalized("data/" + path) == Ok("data/" + path) && Normalized(path) == Ok(path)
    ensures SelectPath("data/" + path, HomeAssistant, None) == Ok(Selection(Some(path), None))
  {
    ComponentConfined("data");
    ConcatConfined("data", path);
    assert "data" + "/" + path == "data/" + path;
    CleanNormalizes("data/" + path);
    CleanNormalizes(path);
    NativeSelects(path, None);
  }

  lemma StagingRestorable(root: string, path: string)
    requires Bundle(root) && |root| <= 500 && Component(path) && '\n' !in path && |path| <= 500
    ensures var name := "backups/" + root + "/" + path;
      && Normalized(name) == Ok(name) && Normalized(path) == Ok(path)
      && SelectPath(name, Compose, None) == Ok(Selection(Some(path), Some(root)))
  {
    var above := "backups" + "/" + root;
    ComponentConfined("backups");
    ComponentConfined(path);
    BundleComponent(root);
    ComponentConfined(root);
    ConcatConfined("backups", root);
    ConcatConfined(above, path);
    assert above + "/" + path == "backups/" + root + "/" + path == StagingName("", root, Some(path));
    CleanNormalizes(above + "/" + path);
    CleanNormalizes(path);
    StagingSelects("", root, Some(path), None);
  }

  lemma BundleComponent(root: string)
    requires Bundle(root)
    ensures Component(root)
  {
    var start := "offsite-staging-";
    assert root[..16] == start;
    forall i | 0 <= i < |root| ensures root[i] as int !in {0, 47, 92} {
      if i < 16 { assert root[i] == start[i]; }
    }
  }

  // ---------------------------------------------------------------- the two smallest archives

  const COMPOSE_FILES := ["bundle.json", "manifest.yaml", "checksums.json"]

  lemma ComposeNames(i: nat)
    requires i < 3
    ensures Component(COMPOSE_FILES[i]) && '\n' !in COMPOSE_FILES[i] && |COMPOSE_FILES[i]| <= 500
    ensures COMPOSE_FILES[i] != SEAL
    ensures COMPOSE_FILES[i][0] as int == if i == 0 then 98 else if i == 1 then 109 else 99
  {
    assert SEAL[0] == '.';
  }

  lemma ComposeSeparate()
    ensures Separate(COMPOSE_FILES)
  {
    forall i, j | 0 <= i < 3 && 0 <= j < 3 && i != j
      ensures COMPOSE_FILES[i] != COMPOSE_FILES[j] && COMPOSE_FILES[i] !in Ancestors(COMPOSE_FILES[j])
    {
      ComposeNames(i);
      ComposeNames(j);
      ComponentConfined(COMPOSE_FILES[j]);
    }
  }

  lemma ComposeRestorable(root: string, i: nat)
    requires Bundle(root) && |root| <= 500 && i < 3
    ensures var name, path := "backups/" + root + "/" + COMPOSE_FILES[i], COMPOSE_FILES[i];
      && Normalized(name) == Ok(name) && SelectPath(name, Compose, None) == Ok(Selection(Some(path), Some(root)))
      && Normalized(path) == Ok(path) && path != SEAL
  {
    ComposeNames(i);
    StagingRestorable(root, COMPOSE_FILES[i]);
  }

  /** A compose archive of its three required files under one staging bundle is accepted. */
  lemma ComposeArchiveAccepted(root: string, contents: seq<Bytes>)
    requires Bundle(root) && |root| <= 500 && |contents| == 3 && Small(contents, Compose)
    ensures Accepted(Packed("backups/" + root + "/", COMPOSE_FILES, contents), Compose, false)
  {
    var prefix := "backups/" + root + "/";
    assert Restorable(prefix, COMPOSE_FILES, Compose, Some(root)) by {
      forall i | 0 <= i < 3
        ensures Normalized(prefix + COMPOSE_FILES[i]) == Ok(prefix + COMPOSE_FILES[i])
        ensures SelectPath(prefix + COMPOSE_FILES[i], Compose, None)
             == Ok(Selection(Some(COMPOSE_FILES[i]), Some(root)))
        ensures Normalized(COMPOSE_FILES[i]) == Ok(COMPOSE_FILES[i]) && COMPOSE_FILES[i] != SEAL
      {
        ComposeRestorable(root, i);
      }
    }
    ComposeSeparate();
    ComposeRequired(contents);
    PackedAccepted(prefix, COMPOSE_FILES, contents, Compose, Some(root));
  }

  lemma ComposeRequired(contents: seq<Bytes>)
    requires |contents| == 3
    ensures forall path :: path in Required(Compose) ==>
      exists i :: 0 <= i < 3 && COMPOSE_FILES[i] == path && (path == RECORDER ==> contents[i] != [])
  {
    forall i | 0 <= i < 3 ensures COMPOSE_FILES[i] != RECORDER {
      ComposeNames(i);
      assert RECORDER[0] == 'h';
    }
    forall path | path in Required(Compose)
      ensures exists i :: 0 <= i < 3 && COMPOSE_FILES[i] == path && (path == RECORDER ==> contents[i] != [])
    {
      var i := if path == "bundle.json" then 0 else if path == "manifest.yaml" then 1 else 2;
      assert COMPOSE_FILES[i] == path;
    }
  }

  const STORAGE := ".storage"
  const LEAVES := ["auth", "core.config_entries", "core.entity_registry", "core.device_registry"]

  const HOME_FILES := [
    "configuration.yaml", ".storage/auth", ".storage/core.config_entries", ".storage/core.entity_registry",
    ".storage/core.device_registry", "home-assistant_v2.db"]

  lemma LeafNames(k: nat)
    requires k < 4
    ensures Component(STORAGE) && Component(LEAVES[k]) && HOME_FILES[k + 1] == STORAGE + "/" + LEAVES[k]
    ensures |LEAVES[k]| == if k == 0 then 4 else if k == 1 then 19 else 20
    ensures k >= 2 ==> LEAVES[k][5] as int == if k == 2 then 101 else 100
  {
    LeafComponent(k);
    LeafPath(k);
  }

  lemma LeafComponent(k: nat)
    requires k < 4
    ensures Component(STORAGE) && Component(LEAVES[k])
  {}

  lemma LeafPath(k: nat)
    requires k < 4
    ensures HOME_FILES[k + 1] == STORAGE + "/" + LEAVES[k]
  {
    if k == 0 {
      LeafText(".storage/auth", "auth");
    } else if k == 1 {
      LeafText(".storage/core.config_entries", "core.config_entries");
    } else if k == 2 {
      LeafText(".storage/core.entity_registry", "core.entity_registry");
    } else {
      LeafText(".storage/core.device_registry", "core.device_registry");
    }
  }

  lemma LeafText(path: string, leaf: string)
    requires |path| == |leaf| + 9 && path[..8] == STORAGE && path[8] == '/' && path[9..] == leaf
    ensures path == STORAGE + "/" + leaf
  {}

  lemma HomeNames(i: nat)
    requires i < 6
    ensures var path := HOME_FILES[i];
      && Confined(path) && Clean(path) && |path| <= 1000 && path[0] != 'b' && path != SEAL
      && (1 <= i <= 4 ==> path[0] == '.') && (i == 0 ==> path[0] == 'c') && (i == 5 ==> path[0] == 'h')
      && (forall above :: above in Ancestors(path) ==> above == STORAGE)
  {
    if i == 0 || i == 5 {
      RootFileNames(i);
      ComponentConfined(HOME_FILES[i]);
    } else {
      LeafNames(i - 1);
      ComponentConfined(STORAGE);
      ComponentConfined(LEAVES[i - 1]);
      ConcatConfined(STORAGE, LEAVES[i - 1]);
      AncestorOfTwo(STORAGE, LEAVES[i - 1]);
      var path := HOME_FILES[i];
      assert forall j :: 0 <= j < |path| ==>
        path[j] == if j < 8 then STORAGE[j] else if j == 8 then '/' else LEAVES[i - 1][j - 9];
      assert SEAL[1] == 'a' && path[1] == 's';
    }
  }

  lemma RootFileNames(i: nat)
    requires i == 0 || i == 5
    ensures Component(HOME_FILES[i]) && Clean(HOME_FILES[i])
    ensures HOME_FILES[i][0] == (if i == 0 then 'c' else 'h') && |HOME_FILES[i]| <= 1000 && SEAL[0] == '.'
  {}

  lemma HomeSeparate()
    ensures Separate(HOME_FILES)
  {
    forall i, j | 0 <= i < 6 && 0 <= j < 6 && i != j
      ensures HOME_FILES[i] != HOME_FILES[j] && HOME_FILES[i] !in Ancestors(HOME_FILES[j])
    {
      HomeNames(i);
      HomeNames(j);
      HomeDiffer(i, j);
    }
  }

  lemma HomeDiffer(i: nat, j: nat)
    requires i < 6 && j < 6 && i != j
    ensures HOME_FILES[i] != HOME_FILES[j] && HOME_FILES[i] != STORAGE
  {
    HomeNames(i);
    HomeNames(j);
    if 1 <= i <= 4 { LeafNames(i - 1); }
    if 1 <= j <= 4 { LeafNames(j - 1); }
    if 3 <= i <= 4 { assert HOME_FILES[i][14] == LEAVES[i - 1][5]; }
    if 3 <= j <= 4 { assert HOME_FILES[j][14] == LEAVES[j - 1][5]; }
  }

  lemma HomeRestorable(i: nat)
    requires i < 6
    ensures var path := HOME_FILES[i];
      && Normalized("data/" + path) == Ok("data/" + path)
      && SelectPath("data/" + path, HomeAssistant, None) == Ok(Selection(Some(path), None))
      && Normalized(path) == Ok(path) && path != SEAL
  {
    HomeNames(i);
    NativeRestorable(HOME_FILES[i]);
  }

  /** A Home Assistant archive of its six required files under "data" is accepted, if the recorder is not empty. */
  lemma HomeArchiveAccepted(contents: seq<Bytes>)
    requires |contents| == 6 && Small(contents, HomeAssistant) && contents[5] != []
    ensures Accepted(Packed("data/", HOME_FILES, contents), HomeAssistant, false)
  {
    assert Restorable("data/", HOME_FILES, HomeAssistant, None) by {
      forall i | 0 <= i < 6
        ensures Normalized("data/" + HOME_FILES[i]) == Ok("data/" + HOME_FILES[i])
        ensures SelectPath("data/" + HOME_FILES[i], HomeAssistant, None) == Ok(Selection(Some(HOME_FILES[i]), None))
        ensures Normalized(HOME_FILES[i]) == Ok(HOME_FILES[i]) && HOME_FILES[i] != SEAL
      {
        HomeRestorable(i);
      }
    }
    HomeSeparate();
    HomeRequired(contents);
    PackedAccepted("data/", HOME_FILES, contents, HomeAssistant, None);
  }

  lemma HomeRequired(contents: seq<Bytes>)
    requires |contents| == 6 && contents[5] != []
    ensures forall path :: path in Required(HomeAssistant) ==>
      exists i :: 0 <= i < 6 && HOME_FILES[i] == path && (path == RECORDER ==> contents[i] != [])
  {
    forall path | path in Required(HomeAssistant)
      ensures exists i :: 0 <= i < 6 && HOME_FILES[i] == path && (path == RECORDER ==> contents[i] != [])
    {
      var i := HomeIndex(path);
      if path == RECORDER { HomeDiffer(5, if i == 5 then 0 else i); }
    }
  }

  lemma HomeIndex(path: string) returns (i: nat)
    requires path in Required(HomeAssistant)
    ensures i < 6 && HOME_FILES[i] == path
  {
    i := if path == "configuration.yaml" then 0 else if path == ".storage/auth" then 1
         else if path == ".storage/core.config_entries" then 2
         else if path == ".storage/core.entity_registry" then 3
         else if path == ".storage/core.device_registry" then 4 else 5;
  }

  /** Each of the required files is needed. */
  lemma RequiredFilesNeeded(members: seq<Member>, i: nat)
    ensures i < 3 && Accepted(members, Compose, false) ==>
      COMPOSE_FILES[i] in ExtractAll(members, |members|, Compose).progress.tree.files
    ensures i < 6 && Accepted(members, HomeAssistant, false) ==>
      HOME_FILES[i] in ExtractAll(members, |members|, HomeAssistant).progress.tree.files
    ensures Accepted(members, HomeAssistant, false) ==>
      ExtractAll(members, |members|, HomeAssistant).progress.tree.files[HOME_FILES[5]] != []
  {
    assert i < 3 ==> COMPOSE_FILES[i] in Required(Compose);
    assert i < 6 ==> HOME_FILES[i] in Required(HomeAssistant);
    assert HOME_FILES[5] == RECORDER;
  }

  // ---------------------------------------------------------------- small tests spelled out

  /** Only the archive's own directory entry is skipped. */
  lemma SkippedNames(m: Member)
    ensures Skipped(m) <==> m.kind == Directory && m.name in {".", "./"}
  {}

  /** What a path lies in: every non-empty path that a slash follows. */
  lemma AncestorText(path: string, above: string)
    ensures above in Ancestors(path) <==> above != "" && above + ['/'] <= path
  {
    if above + ['/'] <= path && above != "" {
      assert (above + ['/'])[|above|] == '/' && path[..|above|] == above;
    }
  }

  lemma SealName()
    ensures SEAL == ".authenticated-archive.json"
  {}

  /** The reason of a raise before the selection tells which check failed first. */
  lemma AdmitReasons(p: Progress, m: Member)
    ensures var t, named, n := Admit(p, m), Normalized(m.name), p.count + 1;
      if n > 100_000 then t.raised == Some("archive_member_limit")
      else if Skipped(m) then t.raised == None
      else if named.Raise? then t.raised == Some("unsafe_archive_path")
      else if named.value in p.seen then t.raised == Some("duplicate_archive_member")
      else if m.kind != File && m.kind != Directory then t.raised == Some("archive_special_object")
      else if m.sparse then t.raised == Some("archive_sparse_object")
      else if m.size < 0 then t.raised == Some("archive_size_invalid")
      else t.raised == if p.scanned + m.size > 34_359_738_368 then Some("archive_expansion_limit") else None
  {
    Limits();
  }

  /** An existing destination is refused before anything is read. */
  lemma DestinationReason(members: seq<Member>, kind: Kind)
    ensures Extraction(members, kind, true) == GuestArchive.Turn(START, Some("destination_exists"))
  {}

  /** So does the reason of a raise at its selected path. */
  lemma PathReasons(p: Progress, m: Member, kind: Kind, path: string, reason: string)
    ensures Normalized(path) == Ok(path) ==>
      Aimed(p, Ok(Selection(Some(path), p.root)))
        == if path in p.selected || path == SEAL then Raise("duplicate_or_reserved_selected_member")
           else Ok(Selection(Some(path), p.root))
    ensures Place(p, m, kind, path).raised == Some(reason) ==>
      reason in {"os_error", "selected_archive_size_limit", "archive_member_truncated"}
    ensures m.kind == File && p.tree.files.Keys * Ancestors(path) == {} ==>
      (Place(p, m, kind, path).raised == Some("selected_archive_size_limit") <==>
         m.size > MaxFile(kind) || p.written + m.size > MaxSelected(kind))
    ensures m.kind == File && Place(p, m, kind, path).raised == Some("archive_member_truncated") ==> |m.data| < m.size
  {
    NormalizedNotEmpty(path);
  }

  lemma NormalizedNotEmpty(path: string)
    ensures Normalized(path).Raise? ==> Normalized(path).reason == "unsafe_archive_path"
  {}
}
