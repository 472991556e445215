/** Member names of restore/guest_archive.py: `normalized` and `select_path`. */
module ArchivePaths {
  import opened Common

  datatype Outcome<T> = Ok(value: T) | Raise(reason: string)

  const MAX_NAME := 1024

  // ---------------------------------------------------------------- components

  /** `path.split("/")` */
  function Parts(path: string): (r: seq<string>)
    ensures |r| > 0
  {
    if path == "" then [""]
    else
      var before, c := Parts(path[..|path| - 1]), path[|path| - 1];
      if c == '/' then before + [""] else before[..|before| - 1] + [before[|before| - 1] + [c]]
  }

  /** `"/".join(parts)` */
  function Join(parts: seq<string>): string
    requires parts != []
  {
    if |parts| == 1 then parts[0] else Join(parts[..|parts| - 1]) + "/" + parts[|parts| - 1]
  }

  lemma {:induction false} JoinParts(path: string)
    ensures Join(Parts(path)) == path
  {
    if path != "" {
      var front, c := path[..|path| - 1], path[|path| - 1];
      JoinParts(front);
      FrontLast(path);
      JoinNext(Parts(front), front, c);
    }
  }

  lemma JoinNext(before: seq<string>, front: string, c: char)
    requires before != [] && Join(before) == front
    ensures Join(if c == '/' then before + [""] else before[..|before| - 1] + [before[|before| - 1] + [c]])
         == front + [c]
  {
    FrontLast(before);
    JoinLonger(before[..|before| - 1], before[|before| - 1], [c]);
    Drop(before, [""]);
    EmptyConcat(front + "/");
  }

  lemma JoinLonger(front: seq<string>, last: string, more: string)
    ensures Join(front + [last + more]) == Join(front + [last]) + more
  {}

  /** A path that goes on after a slash has the text before its first slash as first component. */
  lemma {:induction false} FirstPart(path: string, first: string)
    requires '/' !in first && first + "/" <= path
    ensures Parts(path)[0] == first && |Parts(path)| > 1
  {
    var front := path[..|path| - 1];
    if |path| == |first| + 1 {
      assert front == first;
      PlainPart(first);
      assert path[|first|] == '/';
    } else {
      assert first + "/" <= front;
      FirstPart(front, first);
    }
  }

  lemma {:induction false} PlainPart(text: string)
    requires '/' !in text
    ensures Parts(text) == [text]
  {
    if text != "" {
      PlainPart(text[..|text| - 1]);
      assert text == text[..|text| - 1] + [text[|text| - 1]];
    }
  }

  /** A slash separates the components. */
  lemma {:induction false} PartsConcat(a: string, b: string)
    ensures Parts(a + "/" + b) == Parts(a) + Parts(b)
  {
    if b == "" {
      EmptyConcat(a + "/");
      Drop(a, "/");
    } else {
      var front, c := b[..|b| - 1], b[|b| - 1];
      PartsConcat(a, front);
      FrontLast(b);
      Assoc(a + "/", front, [c]);
      Drop(a + "/" + front, [c]);
      PartsNext(Parts(a), Parts(front), c);
    }
  }

  lemma PartsNext(p: seq<string>, q: seq<string>, c: char)
    requires q != []
    ensures var r := p + q;
      && r + [""] == p + (q + [""])
      && r[..|r| - 1] + [r[|r| - 1] + [c]] == p + (q[..|q| - 1] + [q[|q| - 1] + [c]])
  {}

  // ---------------------------------------------------------------- normalized

  /** The loop that drops leading "./". */
  function StripDots(name: string): string {
    if "./" <= name then StripDots(name[2..]) else name
  }

  /** `rstrip("/")` */
  function StripSlashes(name: string): string {
    if name != "" && name[|name| - 1] == '/' then StripSlashes(name[..|name| - 1]) else name
  }

  predicate Plain(part: string) { part != "" && part != "." && part != ".." }

  /** Every component is a proper name, so the path stays beneath whatever it is appended to. */
  predicate Confined(path: string) { forall i :: 0 <= i < |Parts(path)| ==> Plain(Parts(path)[i]) }

  predicate Nameable(name: string) { 0 < |name| <= MAX_NAME && '\\' !in name && '\0' !in name }

  function Normalized(name: string): Outcome<string> {
    if !Nameable(name) then Raise("unsafe_archive_path")
    else
      var rest := StripDots(name);
      var parts := Parts(StripSlashes(rest));
      if (forall i :: 0 <= i < |parts| ==> Plain(parts[i])) && !("/" <= rest) then Ok(Join(parts))
      else Raise("unsafe_archive_path")
  }

  lemma {:induction false} StripDotsShortens(name: string)
    ensures |StripDots(name)| <= |name| && forall c :: c in StripDots(name) ==> c in name
  {
    if "./" <= name {
      StripDotsShortens(name[2..]);
    }
  }

  lemma {:induction false} StripSlashesShortens(name: string)
    ensures |StripSlashes(name)| <= |name| && forall c :: c in StripSlashes(name) ==> c in name
  {
    if name != "" && name[|name| - 1] == '/' {
      StripSlashesShortens(name[..|name| - 1]);
    }
  }

  predicate RaggedEnds(path: string) {
    path == "" || "./" <= path || "/" <= path || path[|path| - 1] == '/'
  }

  /** A confined path neither starts nor ends in what `normalized` strips. */
  lemma RaggedIsNotConfined(path: string)
    requires RaggedEnds(path)
    ensures !Confined(path)
  {
    if "./" <= path {
      FirstPart(path, ".");
      assert !Plain(Parts(path)[0]);
    } else if "/" <= path {
      FirstPart(path, "");
      assert !Plain(Parts(path)[0]);
    } else {
      assert !Plain(Parts(path)[|Parts(path)| - 1]);
    }
  }

  /**
   A normalized name has no empty, "." or ".." component, is within the length limit, and
   normalizes to itself.
   */
  lemma NormalizedIsConfinedAndStable(name: string)
    ensures var r := Normalized(name);
      r.Ok? ==> Confined(r.value) && Nameable(r.value) && Normalized(r.value) == r
  {
    var r := Normalized(name);
    if r.Ok? {
      var bare := StripSlashes(StripDots(name));
      JoinParts(bare);
      StripDotsShortens(name);
      StripSlashesShortens(StripDots(name));
      if RaggedEnds(bare) { RaggedIsNotConfined(bare); }
    }
  }

  /** A confined name of the right characters is accepted unchanged: nothing else is normalized to it first. */
  lemma ConfinedIsAccepted(path: string)
    requires Confined(path) && Nameable(path)
    ensures Normalized(path) == Ok(path)
  {
    if RaggedEnds(path) { RaggedIsNotConfined(path); }
    JoinParts(path);
  }

  // ---------------------------------------------------------------- select_path

  datatype Kind = Compose | HomeAssistant

  /** Which relative path a member restores to, if any, and the staging root seen so far. */
  datatype Selection = Selection(relative: Option<string>, root: Option<string>)

  predicate RootChar(c: char) { 'A' <= c <= 'Z' || 'a' <= c <= 'z' || '0' <= c <= '9' || c == '_' || c == '-' }

  /** The longest run of root characters at the start. */
  function RootRun(text: string): (n: nat)
    ensures n <= |text|
  {
    if text != "" && RootChar(text[0]) then 1 + RootRun(text[1..]) else 0
  }

  function Without(prefix: string, text: string): string {
    if prefix <= text then text[|prefix|..] else text
  }

  const BACKUPS := "backups/"
  const STAGING := "offsite-staging-"

  /** `STAGING.fullmatch`: an optional "data/", then "backups/", the bundle, and what follows its slash. */
  function StagingMatch(name: string): Option<(string, string)> {
    var text := Without("data/", name);
    if BACKUPS <= text && STAGING <= text[|BACKUPS|..] then BundleMatch(text[|BACKUPS|..]) else None
  }

  function BundleMatch(bundle: string): Option<(string, string)>
    requires STAGING <= bundle
  {
    var n := RootRun(bundle[|STAGING|..]);
    var root, rest := bundle[..|STAGING| + n], bundle[|STAGING| + n..];
    if n == 0 then None
    else if rest == "" then Some((root, ""))
    else if rest[0] == '/' && '\n' !in rest then Some((root, rest[1..]))
    else None
  }

  function SelectPath(name: string, kind: Kind, root: Option<string>): Outcome<Selection> {
    if kind == Compose then
      match StagingMatch(name)
      case None => Ok(Selection(None, root))
      case Some((found, relative)) =>
        if root.Some? && root.value != found then Raise("multiple_staging_bundles")
        else Ok(Selection(if relative == "" then None else Some(relative), Some(found)))
    else if name != "data" && !("data/" <= name) then Raise("native_root_unexpected")
    else
      var relative := if "data/" <= name then Some(name[5..]) else None;
      if relative == Some("backups") || (relative.Some? && "backups/" <= relative.value) then Ok(Selection(None, root))
      else Ok(Selection(relative, root))
  }

  /** The root seen so far decides only whether a member is refused, not where it goes. */
  lemma SelectionIgnoresRoot(name: string, kind: Kind, root: Option<string>)
    requires SelectPath(name, kind, root).Ok?
    ensures SelectPath(name, kind, None).Ok?
    ensures SelectPath(name, kind, None).value.relative == SelectPath(name, kind, root).value.relative
  {}

  // ---------------------------------------------------------------- what is normalized to what

  function Dots(n: nat): string { if n == 0 then "" else "./" + Dots(n - 1) }
  function Slashes(n: nat): string { if n == 0 then "" else Slashes(n - 1) + "/" }

  lemma {:induction false} DotsStripped(n: nat, rest: string)
    requires !("./" <= rest)
    ensures StripDots(Dots(n) + rest) == rest
  {
    if n == 0 {
      EmptyConcat(rest);
    } else {
      DotsStripped(n - 1, rest);
      Assoc("./", Dots(n - 1), rest);
      Drop("./", Dots(n - 1) + rest);
      assert "./" <= "./" + (Dots(n - 1) + rest);
    }
  }

  lemma {:induction false} StripDotsSplits(name: string) returns (n: nat)
    ensures name == Dots(n) + StripDots(name) && !("./" <= StripDots(name))
  {
    n := 0;
    EmptyConcat(name);
    if "./" <= name {
      n := StripDotsSplits(name[2..]);
      Assoc("./", Dots(n), StripDots(name[2..]));
      assert name == "./" + name[2..];
      n := n + 1;
    }
  }

  lemma {:induction false} SlashesStripped(rest: string, n: nat)
    requires rest != "" && rest[|rest| - 1] != '/'
    ensures StripSlashes(rest + Slashes(n)) == rest
  {
    if n == 0 {
      EmptyConcat(rest);
    } else {
      SlashesStripped(rest, n - 1);
      Assoc(rest, Slashes(n - 1), "/");
      OneSlash(rest + Slashes(n - 1));
    }
  }

  lemma OneSlash(name: string)
    ensures StripSlashes(name + "/") == StripSlashes(name)
  {
    Drop(name, "/");
  }

  lemma {:induction false} StripSlashesSplits(name: string) returns (n: nat)
    ensures name == StripSlashes(name) + Slashes(n)
  {
    n := 0;
    EmptyConcat(name);
    if name != "" && name[|name| - 1] == '/' {
      n := StripSlashesSplits(name[..|name| - 1]);
      Assoc(StripSlashes(name[..|name| - 1]), Slashes(n), "/");
      FrontLast(name);
      n := n + 1;
    }
  }

  /** No component is empty, "." or "..", and the path does not start at the root. */
  ghost predicate Inside(path: string) {
    && path != "" && path[0] != '/'
    && forall i :: 0 <= i < |Parts(path)| ==> Parts(path)[i] !in {"", ".", ".."}
  }

  /** The names a path may have: 1 to 1024 characters without a backslash or a NUL. */
  predicate Allowed(name: string) {
    1 <= |name| < 1025 && forall i :: 0 <= i < |name| ==> name[i] as int != 92 && name[i] as int != 0
  }

  /**
   Exactly the names of allowed characters and length that are a path inside, between any number of
   leading "./" and of trailing slashes, are accepted, as that path.
   */
  lemma NormalizedExactly(name: string, path: string)
    ensures Normalized(name) == Ok(path) <==> Allowed(name) && Inside(path) && Wrapped(name, path)
  {
    if Normalized(name) == Ok(path) { NormalizedInside(name, path); }
    if Allowed(name) && Inside(path) && Wrapped(name, path) {
      var n: nat, m: nat :| name == Dots(n) + (path + Slashes(m));
      InsideNormalizes(name, path, n, m);
    }
  }

  ghost predicate Wrapped(name: string, path: string) {
    exists n: nat, m: nat :: name == Dots(n) + (path + Slashes(m))
  }

  lemma NormalizedInside(name: string, path: string)
    requires Normalized(name) == Ok(path)
    ensures Allowed(name) && Inside(path) && Wrapped(name, path)
  {
    NormalizedIsConfinedAndStable(name);
    ConfinedInside(path);
    JoinParts(StripSlashes(StripDots(name)));
    StripsWrap(name);
  }

  lemma ConfinedInside(path: string)
    requires Confined(path)
    ensures Inside(path)
  {
    if RaggedEnds(path) { RaggedIsNotConfined(path); }
  }

  lemma StripsWrap(name: string)
    ensures Wrapped(name, StripSlashes(StripDots(name)))
  {
    var n := StripDotsSplits(name);
    var m := StripSlashesSplits(StripDots(name));
    assert name == Dots(n) + (StripSlashes(StripDots(name)) + Slashes(m));
  }

  lemma InsideNormalizes(name: string, path: string, n: nat, m: nat)
    requires Allowed(name) && Inside(path) && name == Dots(n) + (path + Slashes(m))
    ensures Normalized(name) == Ok(path)
  {
    assert Confined(path);
    if RaggedEnds(path) { RaggedIsNotConfined(path); }
    var rest := path + Slashes(m);
    if "./" <= rest {
      OneDot(path, m);
    }
    DotsStripped(n, rest);
    SlashesStripped(path, m);
    assert rest[0] == path[0];
    JoinParts(path);
  }

  lemma StartsAlike(path: string, more: string)
    requires |path| >= 2 && "./" <= path + more
    ensures "./" <= path
  {
    assert (path + more)[0] == path[0] && (path + more)[1] == path[1];
  }

  /** A path that only the slashes after it would make start with "./" is "." itself. */
  lemma OneDot(path: string, m: nat)
    requires path != "" && "./" <= path + Slashes(m) && !("./" <= path)
    ensures !Confined(path)
  {
    var rest := path + Slashes(m);
    assert rest[0] == '.' && rest[1] == '/';
    if |path| >= 2 {
      StartsAlike(path, Slashes(m));
      assert false;
    }
    assert path == ".";
    PlainPart(".");
    assert !Plain(Parts(path)[0]);
  }

  // ---------------------------------------------------------------- what is selected where

  /** In a Home Assistant archive what lies under "data/" restores beneath the destination, but for nested backups. */
  lemma NativeSelects(path: string, root: Option<string>)
    ensures SelectPath("data/" + path, HomeAssistant, root)
         == Ok(Selection(if path == "backups" || "backups/" <= path then None else Some(path), root))
  {
    Drop("data/", path);
    assert "data/" <= "data/" + path;
  }

  /** The directory itself restores nowhere, and any other name is refused. */
  lemma NativeRefuses(name: string, root: Option<string>)
    requires !("data/" <= name)
    ensures SelectPath(name, HomeAssistant, root)
         == if name == "data" then Ok(Selection(None, root)) else Raise("native_root_unexpected")
  {}

  lemma RootChars(c: char)
    ensures RootChar(c) <==> WordCode(c as int)
  {}

  /** A staging bundle: the fixed prefix and at least one word character. */
  ghost predicate Bundle(root: string) {
    "offsite-staging-" <= root && |root| > 16 && forall i :: 16 <= i < |root| ==> WordCode(root[i] as int)
  }

  lemma {:induction false} RootRunExact(chars: string, rest: string)
    requires (forall i :: 0 <= i < |chars| ==> RootChar(chars[i])) && (rest == "" || !RootChar(rest[0]))
    ensures RootRun(chars + rest) == |chars|
  {
    if chars == "" {
      EmptyConcat(rest);
    } else {
      RootRunExact(chars[1..], rest);
      assert (chars + rest)[1..] == chars[1..] + rest;
    }
  }

  lemma {:induction false} RootRunTakes(text: string)
    ensures forall i :: 0 <= i < RootRun(text) ==> RootChar(text[i])
  {
    if text != "" && RootChar(text[0]) {
      RootRunTakes(text[1..]);
      assert forall i :: 0 < i < RootRun(text) ==> text[i] == text[1..][i - 1];
    }
  }

  function Below(below: Option<string>): string { if below.None? then "" else "/" + below.value }

  /** A staging name: an optional "data/", "backups/", the bundle, and what lies below it, if anything. */
  function StagingName(prefix: string, root: string, below: Option<string>): string {
    prefix + ("backups/" + (root + Below(below)))
  }

  ghost predicate StagingParts(prefix: string, root: string, below: Option<string>) {
    prefix in {"", "data/"} && Bundle(root) && (below.Some? ==> '\n' !in below.value)
  }

  /** `StagingMatch` behind the optional "data/". */
  lemma PrefixDropped(prefix: string, text: string)
    requires prefix in {"", "data/"} && "backups/" <= text
    ensures Without("data/", prefix + text) == text
  {
    if prefix == "" {
      assert prefix + text == text && text[0] == 'b' && "data/"[0] == 'd';
    } else {
      Drop(prefix, text);
    }
  }

  lemma BundleSplits(root: string, below: Option<string>)
    requires Bundle(root) && (below.Some? ==> '\n' !in below.value)
    ensures STAGING <= root + Below(below)
    ensures BundleMatch(root + Below(below)) == Some((root, if below.None? then "" else below.value))
  {
    var rest := Below(below);
    var bundle := root + rest;
    forall i | 0 <= i < |root[16..]| ensures RootChar(root[16..][i]) { RootChars(root[16 + i]); }
    RootRunExact(root[16..], rest);
    assert bundle[16..] == root[16..] + rest;
    Drop(root, rest);
  }

  lemma StagingFound(prefix: string, root: string, below: Option<string>)
    requires StagingParts(prefix, root, below)
    ensures StagingMatch(StagingName(prefix, root, below))
         == Some((root, if below.None? then "" else below.value))
  {
    var bundle := root + Below(below);
    PrefixDropped(prefix, "backups/" + bundle);
    BundleSplits(root, below);
    Drop("backups/", bundle);
  }

  lemma BundleFound(bundle: string) returns (root: string, below: Option<string>)
    requires STAGING <= bundle && BundleMatch(bundle).Some?
    ensures Bundle(root) && (below.Some? ==> '\n' !in below.value) && bundle == root + Below(below)
  {
    var n := RootRun(bundle[16..]);
    RootRunTakes(bundle[16..]);
    root := bundle[..16 + n];
    var rest := bundle[16 + n..];
    below := if rest == "" then None else Some(rest[1..]);
    forall i | 16 <= i < |root| ensures WordCode(root[i] as int) {
      assert root[i] == bundle[16..][i - 16];
      RootChars(root[i]);
    }
    assert rest != "" ==> rest == "/" + rest[1..];
    assert bundle == root + rest;
  }

  /** In a compose archive a staging name restores to what lies below the bundle, of which there may be one. */
  lemma StagingSelects(prefix: string, root: string, below: Option<string>, seen: Option<string>)
    requires StagingParts(prefix, root, below)
    ensures SelectPath(StagingName(prefix, root, below), Compose, seen)
         == if seen.Some? && seen.value != root then Raise("multiple_staging_bundles")
            else Ok(Selection(if below == Some("") then None else below, Some(root)))
  {
    StagingFound(prefix, root, below);
  }

  /** Every other name restores nowhere, and names no bundle. */
  lemma StagingOthers(name: string, seen: Option<string>) returns (prefix: string, root: string, below: Option<string>)
    requires SelectPath(name, Compose, seen) != Ok(Selection(None, seen))
    ensures StagingParts(prefix, root, below) && name == StagingName(prefix, root, below)
  {
    var text := Without("data/", name);
    prefix := if "data/" <= name then "data/" else "";
    root, below := BundleFound(text[8..]);
    assert name == prefix + text && text == "backups/" + text[8..];
  }

  // ---------------------------------------------------------------- which path a name restores to

  /** What follows a slash in a normalized name is a normalized name. */
  lemma BelowNormalizes(above: string, path: string)
    requires Normalized(above + "/" + path) == Ok(above + "/" + path)
    ensures Normalized(path) == Ok(path)
  {
    var name := above + "/" + path;
    NormalizedIsConfinedAndStable(name);
    PartsConcat(above, path);
    ConfinedBelow(name, path, Parts(above));
    NameableBelow(above + "/", path);
    ConfinedIsAccepted(path);
  }

  lemma ConfinedBelow(name: string, path: string, front: seq<string>)
    requires Confined(name) && Parts(name) == front + Parts(path)
    ensures Confined(path)
  {
    forall i | 0 <= i < |Parts(path)| ensures Plain(Parts(path)[i]) {
      assert Parts(path)[i] == Parts(name)[|front| + i];
    }
  }

  lemma NameableBelow(above: string, path: string)
    requires Nameable(above + path) && Confined(path)
    ensures Nameable(path)
  {
    assert Parts("") == [""] && !Plain(Parts("")[0]);
    forall i | 0 <= i < |path| ensures path[i] != '\\' && path[i] != '\0' {
      assert path[i] == (above + path)[|above| + i];
    }
  }

  /** The name of a member that restores to a path, by the kind of archive. */
  ghost predicate NamesPath(name: string, kind: Kind, path: string) {
    match kind
    case HomeAssistant => name == "data/" + path && path != "backups" && !("backups/" <= path)
    case Compose =>
      path != "" && exists prefix, root ::
        StagingParts(prefix, root, Some(path)) && name == StagingName(prefix, root, Some(path))
  }

  /** Without a root seen before, exactly these names select a path. */
  lemma SelectsExactly(name: string, kind: Kind, path: string)
    ensures SelectPath(name, kind, None).Ok? && SelectPath(name, kind, None).value.relative == Some(path) <==>
      NamesPath(name, kind, path)
  {
    if kind == HomeAssistant {
      NativeSelectsExactly(name, path);
    } else {
      StagingSelectsExactly(name, path);
    }
  }

  lemma NativeSelectsExactly(name: string, path: string)
    ensures var r := SelectPath(name, HomeAssistant, None);
      r.Ok? && r.value.relative == Some(path) <==> NamesPath(name, HomeAssistant, path)
  {
    NativeSelects(path, None);
    if "data/" <= name {
      NativeSelects(name[5..], None);
      assert name == "data/" + name[5..];
    } else {
      NativeRefuses(name, None);
      assert "data/" <= "data/" + path;
    }
  }

  lemma StagingSelectsExactly(name: string, path: string)
    ensures var r := SelectPath(name, Compose, None);
      r.Ok? && r.value.relative == Some(path) <==> NamesPath(name, Compose, path)
  {
    if NamesPath(name, Compose, path) {
      var prefix, root :| StagingParts(prefix, root, Some(path)) && name == StagingName(prefix, root, Some(path));
      StagingSelects(prefix, root, Some(path), None);
    }
    if SelectPath(name, Compose, None).Ok? && SelectPath(name, Compose, None).value.relative == Some(path) {
      var prefix, root, below := StagingOthers(name, None);
      StagingSelects(prefix, root, below, None);
    }
  }

  /** The selected path of a normalized name is normalized itself. */
  lemma SelectedNormalizes(name: string, kind: Kind, path: string)
    requires Normalized(name) == Ok(name) && NamesPath(name, kind, path)
    ensures Normalized(path) == Ok(path)
  {
    if kind == HomeAssistant {
      assert "data/" + path == "data" + "/" + path;
      BelowNormalizes("data", path);
    } else {
      var prefix, root :| StagingParts(prefix, root, Some(path)) && name == StagingName(prefix, root, Some(path));
      StagingAbove(prefix, root, path);
      BelowNormalizes(prefix + ("backups/" + root), path);
    }
  }

  lemma StagingAbove(prefix: string, root: string, path: string)
    ensures StagingName(prefix, root, Some(path)) == prefix + ("backups/" + root) + "/" + path
  {}
}
