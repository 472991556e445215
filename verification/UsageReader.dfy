/**
 Resuming a session file from a cached entry, and the fingerprint cache over
 all session files (`updateCodexUsageFile` and `CodexUsageReader` in
 ia-bridge/usage.js).
 */
module UsageReader {
  import opened Common
  import opened SessionLines
  import opened UsageIndex
  import F = UsageFold

  /** What `fstat` reports; the fingerprint is the whole record. */
  datatype Stat = Stat(dev: int, ino: int, size: nat, mtime: int, ctime: int)

  /** SHA-256 is an opaque function of the bytes. */
  type Hasher = Bytes -> string

  datatype Anchors = Anchors(prefix: string, suffix: string)

  const ANCHOR_BYTES: nat := 512
  const CHUNK_BYTES: nat := 64 * 1024

  function AnchorsOf(bytes: Bytes, size: nat, hash: Hasher): Anchors
    requires size <= |bytes|
  {
    var length := if size < ANCHOR_BYTES then size else ANCHOR_BYTES;
    Anchors(hash(bytes[..length]), hash(bytes[size - length..size]))
  }

  /**
   What one attempt to open and read a file meets.  `bytes` are the bytes below `stat.size`,
   `opening` and `closing` the anchors read before and after the scan, `after` what `fstat` says
   then and `named` what the path names then, if anything.
   */
  datatype Attempt =
    | Missing
    | NotRegular
    | Refused
    | Shrunk
    | Opened(stat: Stat, bytes: Bytes, opening: Anchors, after: Stat, named: Option<Stat>, closing: Anchors)
  {
    /** The scan sees the bytes that the first anchors were taken of: writers only append meanwhile. */
    ghost predicate WellFormed(hash: Hasher) {
      Opened? ==> |bytes| == stat.size && opening == AnchorsOf(bytes, |bytes|, hash)
    }

    /** The comparisons after the scan: size, identity, times and anchors. */
    predicate Shifted()
      requires Opened? && named.Some?
    {
      || after.size < stat.size
      || named.value.dev != stat.dev || named.value.ino != stat.ino
      || (after.size == stat.size && (after.mtime != stat.mtime || after.ctime != stat.ctime))
      || closing != opening
    }
  }

  datatype Entry = Entry(stat: Stat, anchors: Anchors, state: UsageState, pending: Bytes, summary: UsageSummary)

  /** An entry is a complete snapshot of some content. */
  ghost predicate Snapshots(e: Entry, content: Bytes, parse: F.Parser, hash: Hasher)
    reads e.state, e.state.totals, e.state.daily, e.state.rateEvents, e.state.daily.days.Values
    reads e.summary, e.summary.totals, e.summary.daily, e.summary.rateEvents, e.summary.daily.days.Values
  {
    && e.stat.size == |content|
    && e.anchors == AnchorsOf(content, |content|, hash)
    && ScannedTo(e.state, e.pending, content, |content|, parse)
    && F.FullScan(content, parse) == Some(e.summary.Value())
  }

  datatype Verdict = Absent | Denied | Changed | Threw | Complete

  datatype Result = Failed(verdict: Verdict) | Indexed(entry: Entry)

  /** The outcome of one attempt if it scanned from scratch. */
  function VerdictOf(a: Attempt, parse: F.Parser): Verdict {
    match a
    case Missing => Absent
    case NotRegular => Absent
    case Refused => Denied
    case Shrunk => Changed
    case Opened(_, bytes, _, _, named, _) =>
      if F.Committed(bytes, parse).None? then Threw
      else if named.None? then Absent
      else if a.Shifted() then Changed
      else if F.FullScan(bytes, parse).None? then Threw
      else Complete
  }

  // ---------------------------------------------------------------- what an attempt notices

  /** The anchors: digests of the first and of the last 512 bytes of the old extent, or of all of it. */
  lemma AnchorsAre(bytes: Bytes, size: nat, hash: Hasher)
    requires size <= |bytes|
    ensures var n := if size < 512 then size else 512;
      AnchorsOf(bytes, size, hash) == Anchors(hash(bytes[..n]), hash(bytes[size - n..size]))
  {}

  /** A file that only grew while it was read is no change. */
  lemma GrownIsStable(a: Attempt, later: Bytes, hash: Hasher)
    requires a.Opened? && a.named.Some? && a.WellFormed(hash)
    requires a.bytes <= later && a.after.size == |later| && a.closing == AnchorsOf(later, |a.bytes|, hash)
    requires a.named.value.dev == a.stat.dev && a.named.value.ino == a.stat.ino
    requires later == a.bytes ==> a.after == a.stat
    ensures !a.Shifted()
  {
    var n := if |a.bytes| < 512 then |a.bytes| else 512;
    assert later[..|a.bytes|] == a.bytes;
    assert later[..n] == a.bytes[..n] && later[|a.bytes| - n..|a.bytes|] == a.bytes[|a.bytes| - n..|a.bytes|];
    assert |later| == |a.bytes| ==> later == a.bytes;
  }

  /** A file cut short, put in the place of another one, or touched at the same size is a change. */
  lemma ChangeIsNoticed(a: Attempt)
    requires a.Opened? && a.named.Some?
    requires
      || a.after.size < |a.bytes| == a.stat.size
      || a.named.value.ino != a.stat.ino || a.named.value.dev != a.stat.dev
      || (a.after.size == a.stat.size && (a.after.mtime != a.stat.mtime || a.after.ctime != a.stat.ctime))
    ensures a.Shifted()
  {}

  /** So is a rewrite of the first or last 512 bytes of what was there, under a digest without collisions. */
  lemma RewriteIsNoticed(a: Attempt, later: Bytes, hash: Hasher)
    requires a.Opened? && a.named.Some? && a.WellFormed(hash)
    requires |a.bytes| <= |later| && a.closing == AnchorsOf(later, |a.bytes|, hash)
    requires forall x, y :: hash(x) == hash(y) ==> x == y
    requires var n := if |a.bytes| < 512 then |a.bytes| else 512;
      later[..n] != a.bytes[..n] || later[|a.bytes| - n..|a.bytes|] != a.bytes[|a.bytes| - n..|a.bytes|]
    ensures a.Shifted()
  {
    AnchorsAre(later, |a.bytes|, hash);
    AnchorsAre(a.bytes, |a.bytes|, hash);
  }

  /** How an attempt ends: what could not be opened or changed, a line that throws, or a complete scan. */
  lemma VerdictMeans(a: Attempt, parse: F.Parser)
    ensures VerdictOf(Missing, parse) == VerdictOf(NotRegular, parse) == Absent
    ensures VerdictOf(Refused, parse) == Denied && VerdictOf(Shrunk, parse) == Changed
    ensures VerdictOf(a, parse) == Complete <==>
      a.Opened? && a.named.Some? && !a.Shifted() && F.FullScan(a.bytes, parse).Some?
    ensures a.Opened? && F.Committed(a.bytes, parse).Some? ==>
      && (VerdictOf(a, parse) == Absent <==> a.named.None?)
      && (VerdictOf(a, parse) == Changed <==> a.named.Some? && a.Shifted())
    ensures a.Opened? && F.Committed(a.bytes, parse).None? ==> VerdictOf(a, parse) == Threw
  {}

  /** The guard under which a cached entry is resumed instead of rebuilt. */
  predicate Resumes(previous: Option<Entry>, appendOnly: bool, a: Attempt, hash: Hasher)
    requires a.Opened? && a.WellFormed(hash)
  {
    && appendOnly
    && previous.Some?
    && previous.value.stat.dev == a.stat.dev
    && previous.value.stat.ino == a.stat.ino
    && a.stat.size > previous.value.stat.size
    && previous.value.anchors == AnchorsOf(a.bytes, previous.value.stat.size, hash)
  }

  /** The append-only contract, needed only where a cached entry is resumed. */
  ghost predicate ExtendsWhenResumed(
    previous: Option<Entry>, content: Bytes, appendOnly: bool, a: Attempt, hash: Hasher)
    requires a.WellFormed(hash)
  {
    a.Opened? && Resumes(previous, appendOnly, a, hash) ==> content <= a.bytes
  }

  /** A file that really grew by appending passes the anchor comparison, so it is resumed. */
  lemma GrowthResumes(previous: Entry, content: Bytes, a: Attempt, hash: Hasher)
    requires a.Opened? && a.WellFormed(hash)
    requires previous.stat.size == |content| && previous.anchors == AnchorsOf(content, |content|, hash)
    requires content <= a.bytes && |content| < |a.bytes|
    requires previous.stat.dev == a.stat.dev && previous.stat.ino == a.stat.ino
    ensures Resumes(Some(previous), true, a, hash)
  {
    var size := |content|;
    var length := if size < ANCHOR_BYTES then size else ANCHOR_BYTES;
    assert content == a.bytes[..size];
    assert content[..length] == a.bytes[..length];
    assert content[size - length..size] == a.bytes[size - length..size];
  }

  /** A cached entry is not resumed without the contract, of another file, or of one that did not grow. */
  lemma ResumesOnlyGrowth(previous: Option<Entry>, appendOnly: bool, a: Attempt, hash: Hasher)
    requires a.Opened? && a.WellFormed(hash)
    requires
      || !appendOnly || previous.None?
      || previous.value.stat.dev != a.stat.dev || previous.value.stat.ino != a.stat.ino
      || a.stat.size <= previous.value.stat.size
    ensures !Resumes(previous, appendOnly, a, hash)
  {}

  /** Nor of one whose first or last 512 bytes were rewritten, under a digest without collisions. */
  lemma RewrittenIsRescanned(previous: Entry, content: Bytes, a: Attempt, hash: Hasher)
    requires a.Opened? && a.WellFormed(hash) && |content| <= |a.bytes|
    requires previous.stat.size == |content| && previous.anchors == AnchorsOf(content, |content|, hash)
    requires forall x, y :: hash(x) == hash(y) ==> x == y
    requires var n := if |content| < 512 then |content| else 512;
      content[..n] != a.bytes[..n] || content[|content| - n..|content|] != a.bytes[|content| - n..|content|]
    ensures !Resumes(Some(previous), true, a, hash)
  {
    AnchorsAre(content, |content|, hash);
    AnchorsAre(a.bytes, |content|, hash);
  }

  /** One pass of the retry loop of `updateCodexUsageFile`. */
  method TryOnce(
    a: Attempt, previous: Option<Entry>, ghost content: Bytes, appendOnly: bool, parse: F.Parser, hash: Hasher)
    returns (r: Result)
    requires a.WellFormed(hash)
    requires previous.Some? ==> Snapshots(previous.value, content, parse, hash)
    requires ExtendsWhenResumed(previous, content, appendOnly, a, hash)
    ensures r.Failed? ==> r.verdict == VerdictOf(a, parse) != Complete
    ensures r.Indexed? ==>
      && VerdictOf(a, parse) == Complete
      && r.entry.stat == a.stat
      && Snapshots(r.entry, a.bytes, parse, hash)
  {
    if a.Missing? || a.NotRegular? { return Failed(Absent); }
    if a.Refused? { return Failed(Denied); }
    if a.Shrunk? { return Failed(Changed); }
    var bytes := a.bytes;
    assert bytes[..0] == [] && bytes[..|bytes|] == bytes;
    var state, carried, from;
    if Resumes(previous, appendOnly, a, hash) {
      assert content[..|content|] == content;
      assert bytes[..previous.value.stat.size] == content;
      state := new UsageState.Copy(previous.value.state);
      carried, from := previous.value.pending, previous.value.stat.size;
    } else {
      state := new UsageState.Empty();
      carried, from := [], 0;
    }
    var ok, pending := Scan(state, carried, from, bytes, CHUNK_BYTES, parse);
    if !ok { return Failed(Threw); }
    if a.named.None? { return Failed(Absent); }
    if a.Shifted() { return Failed(Changed); }
    var summary := Summarize(state, pending, parse);
    if summary == null { return Failed(Threw); }
    return Indexed(Entry(a.stat, a.opening, state, pending, summary));
  }

  /** The attempt that decides: the second one only after the first met a change. */
  function Deciding(first: Attempt, second: Attempt, parse: F.Parser): Attempt {
    if VerdictOf(first, parse) == Changed then second else first
  }

  /** Only a change is tried again. */
  lemma RetriesOnlyChange(first: Attempt, second: Attempt, parse: F.Parser)
    ensures Deciding(first, second, parse) == if VerdictOf(first, parse) == Changed then second else first
  {}

  /**
   `updateCodexUsageFile`.  Whatever was cached, the entry it returns is the one a
   scan from scratch of the same content gives, and nothing that existed before
   the call is written.
   */
  method UpdateFile(
    first: Attempt, second: Attempt, previous: Option<Entry>, ghost content: Bytes,
    appendOnly: bool, parse: F.Parser, hash: Hasher)
    returns (r: Result)
    requires first.WellFormed(hash) && second.WellFormed(hash)
    requires previous.Some? ==> Snapshots(previous.value, content, parse, hash)
    requires ExtendsWhenResumed(previous, content, appendOnly, first, hash)
    ensures r.Failed? ==> r.verdict == VerdictOf(Deciding(first, second, parse), parse) != Complete
    ensures r.Indexed? ==>
      var a := Deciding(first, second, parse);
      && VerdictOf(a, parse) == Complete
      && r.entry.stat == a.stat
      && Snapshots(r.entry, a.bytes, parse, hash)
  {
    r := TryOnce(first, previous, content, appendOnly, parse, hash);
    if r == Failed(Changed) {
      r := TryOnce(second, None, [], appendOnly, parse, hash);
    }
  }

  // ---------------------------------------------------------------- the cache

  datatype StatOutcome = StatMissing | StatDenied | StatOk(stat: Stat)

  /** What one refresh meets: the listed files and, for each, its `stat` and two attempts to read it. */
  datatype Sources = Sources(
    listed: seq<string>,
    stats: string -> StatOutcome,
    first: string -> Attempt,
    second: string -> Attempt)

  /** The content that a fingerprint stands for. */
  type World = Stat -> Bytes

  /** Equal fingerprints mean equal content: every read agrees with the world. */
  ghost predicate Coherent(sources: Sources, world: World, hash: Hasher) {
    forall p: string ::
      && sources.first(p).WellFormed(hash) && sources.second(p).WellFormed(hash)
      && (sources.first(p).Opened? ==> sources.first(p).bytes == world(sources.first(p).stat))
      && (sources.second(p).Opened? ==> sources.second(p).bytes == world(sources.second(p).stat))
  }

  /** The producer's contract: a later, larger version of a file extends the earlier one. */
  ghost predicate AppendOnly(world: World) {
    forall s: Stat, t: Stat :: s.dev == t.dev && s.ino == t.ino && s.size < t.size ==> world(s) <= world(t)
  }

  type Index = map<string, Entry>

  /** An entry is a complete snapshot of the content its fingerprint stands for. */
  ghost predicate EntrySound(e: Entry, world: World, parse: F.Parser, hash: Hasher)
    reads e.state, e.state.totals, e.state.daily, e.state.rateEvents, e.state.daily.days.Values
    reads e.summary, e.summary.totals, e.summary.daily, e.summary.rateEvents, e.summary.daily.days.Values
  {
    Snapshots(e, world(e.stat), parse, hash)
  }

  ghost predicate IndexSound(files: Index, world: World, parse: F.Parser, hash: Hasher)
    reads *
  {
    forall p :: p in files ==> EntrySound(files[p], world, parse, hash)
  }

  predicate Cached(files: Index, p: string, stat: Stat) { p in files && files[p].stat == stat }

  /** The verdict on a listed file: what its own refresh ends in, given the cache. */
  function FileVerdict(files: Index, p: string, sources: Sources, parse: F.Parser): Verdict {
    match sources.stats(p)
    case StatMissing => Absent
    case StatDenied => Denied
    case StatOk(stat) =>
      if Cached(files, p, stat) then Complete
      else VerdictOf(Deciding(sources.first(p), sources.second(p), parse), parse)
  }

  /** The version of a file that a complete refresh leaves in the index. */
  function Version(files: Index, p: string, sources: Sources, parse: F.Parser): Stat
    requires FileVerdict(files, p, sources, parse) == Complete
  {
    var stat := sources.stats(p).stat;
    if Cached(files, p, stat) then stat else Deciding(sources.first(p), sources.second(p), parse).stat
  }

  /** A file with an unchanged fingerprint is left alone; any other one ends as its attempts do. */
  lemma FileVerdictMeans(files: Index, p: string, sources: Sources, parse: F.Parser)
    ensures sources.stats(p) == StatMissing ==> FileVerdict(files, p, sources, parse) == Absent
    ensures sources.stats(p) == StatDenied ==> FileVerdict(files, p, sources, parse) == Denied
    ensures sources.stats(p).StatOk? ==>
      FileVerdict(files, p, sources, parse)
        == if p in files && files[p].stat == sources.stats(p).stat then Complete
           else VerdictOf(Deciding(sources.first(p), sources.second(p), parse), parse)
  {}

  /** The effect of one iteration. */
  ghost predicate FileStep(before: Index, after: Index, p: string, sources: Sources, parse: F.Parser) {
    match FileVerdict(before, p, sources, parse)
    case Complete =>
      && after.Keys == before.Keys + {p}
      && after[p].stat == Version(before, p, sources, parse)
      && forall q :: q in before && q != p ==> after[q] == before[q]
    case Absent => after == before - {p}
    case _ => after == before
  }

  lemma StepStores(files: Index, p: string, entry: Entry, sources: Sources, parse: F.Parser)
    requires FileVerdict(files, p, sources, parse) == Complete
    requires entry.stat == Version(files, p, sources, parse)
    ensures FileStep(files, files[p := entry], p, sources, parse)
  {}

  /** The branch of the loop for a file whose fingerprint is new. */
  method Reindex(
    files: Index, p: string, sources: Sources, ghost world: World, appendOnly: bool, parse: F.Parser, hash: Hasher)
    returns (verdict: Verdict, files': Index)
    requires sources.stats(p).StatOk? && !Cached(files, p, sources.stats(p).stat)
    requires IndexSound(files, world, parse, hash) && Coherent(sources, world, hash)
    requires appendOnly ==> AppendOnly(world)
    ensures IndexSound(files', world, parse, hash)
    ensures verdict == FileVerdict(files, p, sources, parse)
    ensures FileStep(files, files', p, sources, parse)
  {
    var previous: Option<Entry> := None;
    ghost var content := [];
    if p in files {
      previous := Some(files[p]);
      content := world(files[p].stat);
      assert EntrySound(files[p], world, parse, hash);
    }
    var r := UpdateFile(sources.first(p), sources.second(p), previous, content, appendOnly, parse, hash);
    assert IndexSound(files, world, parse, hash);
    if r.Indexed? {
      assert EntrySound(r.entry, world, parse, hash);
      StepStores(files, p, r.entry, sources, parse);
      return Complete, files[p := r.entry];
    }
    return r.verdict, if r.verdict == Absent then files - {p} else files;
  }

  /**
   One iteration of the loop of `refreshSessionIndex`: this file's entry becomes
   present exactly when the file could be snapshotted, and no other entry moves.
   */
  method RefreshFile(
    files: Index, p: string, sources: Sources, ghost world: World, appendOnly: bool, parse: F.Parser, hash: Hasher)
    returns (verdict: Verdict, files': Index)
    requires IndexSound(files, world, parse, hash) && Coherent(sources, world, hash)
    requires appendOnly ==> AppendOnly(world)
    ensures IndexSound(files', world, parse, hash)
    ensures verdict == FileVerdict(files, p, sources, parse)
    ensures FileStep(files, files', p, sources, parse)
  {
    var s := sources.stats(p);
    if s.StatDenied? { return Denied, files; }
    if s.StatMissing? { return Absent, files - {p}; }
    if Cached(files, p, s.stat) {
      StepStores(files, p, files[p], sources, parse);
      assert files[p := files[p]] == files;
      return Complete, files;
    }
    verdict, files' := Reindex(files, p, sources, world, appendOnly, parse, hash);
  }

  /** A listed file that a refresh can settle: it can be snapshotted or is gone. */
  predicate Settleable(files: Index, p: string, sources: Sources, parse: F.Parser) {
    FileVerdict(files, p, sources, parse) in {Complete, Absent}
  }

  /** What the loop has settled about one listed file. */
  ghost predicate Settled(files: Index, files': Index, p: string, sources: Sources, parse: F.Parser) {
    && Settleable(files, p, sources, parse)
    && (p in files' <==> FileVerdict(files, p, sources, parse) == Complete)
    && (p in files' ==> files'[p].stat == Version(files, p, sources, parse))
  }

  /** The loop over `listed` has settled the first `n` files and left all others alone. */
  ghost predicate SettledUpTo(
    files: Index, files': Index, listed: seq<string>, n: nat, sources: Sources, parse: F.Parser)
    requires n <= |listed|
  {
    && (forall j :: n <= j < |listed| ==>
          && (listed[j] in files' <==> listed[j] in files)
          && (listed[j] in files' ==> files'[listed[j]] == files[listed[j]]))
    && (forall j :: 0 <= j < n ==> Settled(files, files', listed[j], sources, parse))
    && (forall p :: p !in listed ==>
          && (p in files' <==> p in files)
          && (p in files' ==> files'[p] == files[p]))
  }

  /** The loop stopped with this verdict at the first file that cannot be settled. */
  ghost predicate StoppedAt(
    files: Index, files': Index, listed: seq<string>, n: nat, verdict: Verdict, sources: Sources, parse: F.Parser)
  {
    && n < |listed|
    && SettledUpTo(files, files', listed, n, sources, parse)
    && FileVerdict(files, listed[n], sources, parse) == verdict
    && !Settleable(files, listed[n], sources, parse)
  }

  lemma SettleNext(
    files: Index, before: Index, after: Index, listed: seq<string>, n: nat, sources: Sources, parse: F.Parser)
    requires n < |listed|
    requires forall i, j :: 0 <= i < j < |listed| ==> listed[i] != listed[j]
    requires SettledUpTo(files, before, listed, n, sources, parse)
    requires FileStep(before, after, listed[n], sources, parse)
    ensures FileVerdict(before, listed[n], sources, parse) == FileVerdict(files, listed[n], sources, parse)
    ensures Settleable(files, listed[n], sources, parse)
       ==> SettledUpTo(files, after, listed, n + 1, sources, parse)
  {
    var p := listed[n];
    if Settleable(files, p, sources, parse) {
      assert Settled(files, after, p, sources, parse);
      forall j | 0 <= j < n ensures Settled(files, after, listed[j], sources, parse) {
        assert Settled(files, before, listed[j], sources, parse);
        assert listed[j] != p;
      }
    }
  }

  /** The loop over the listed files; it stops at the first file that cannot be settled. */
  method RefreshListed(
    files: Index, listed: seq<string>, sources: Sources, ghost world: World,
    appendOnly: bool, parse: F.Parser, hash: Hasher)
    returns (verdict: Verdict, files': Index)
    requires forall i, j :: 0 <= i < j < |listed| ==> listed[i] != listed[j]
    requires IndexSound(files, world, parse, hash) && Coherent(sources, world, hash)
    requires appendOnly ==> AppendOnly(world)
    ensures IndexSound(files', world, parse, hash)
    ensures verdict == Complete ==> SettledUpTo(files, files', listed, |listed|, sources, parse)
    ensures verdict != Complete ==>
      exists n :: StoppedAt(files, files', listed, n, verdict, sources, parse)
  {
    files' := files;
    var i := 0;
    while i < |listed|
      invariant 0 <= i <= |listed|
      invariant IndexSound(files', world, parse, hash)
      invariant SettledUpTo(files, files', listed, i, sources, parse)
    {
      ghost var before := files';
      verdict, files' := RefreshFile(files', listed[i], sources, world, appendOnly, parse, hash);
      SettleNext(files, before, files', listed, i, sources, parse);
      if verdict != Complete && verdict != Absent {
        assert StoppedAt(files, files', listed, i, verdict, sources, parse);
        return;
      }
      i := i + 1;
    }
    verdict := Complete;
  }

  /**
   The index after a complete refresh: exactly the listed files that could be
   settled as present, each at the version this refresh saw.
   */
  ghost predicate Current(files: Index, files': Index, sources: Sources, parse: F.Parser) {
    && (forall p :: p in files' <==> p in sources.listed && FileVerdict(files, p, sources, parse) == Complete)
    && (forall p :: p in files' ==> files'[p].stat == Version(files, p, sources, parse))
    && (forall p :: p in sources.listed ==> Settleable(files, p, sources, parse))
  }

  /**
   How a refresh ends: it succeeds exactly if every listed file can be settled; otherwise its error
   is that of the first one that cannot, and the files before it are settled all the same.
   */
  ghost predicate RefreshEnds(
    files: Index, files': Index, sources: Sources, parse: F.Parser, error: Option<Verdict>)
  {
    && (error.None? <==> forall p :: p in sources.listed ==> Settleable(files, p, sources, parse))
    && match error
       case None => Current(files, files', sources, parse)
       case Some(verdict) =>
         exists n :: StoppedAt(files, files', Distinct(sources.listed), n, verdict, sources, parse)
  }

  lemma StopEnds(
    files: Index, files': Index, listed: seq<string>, n: nat, verdict: Verdict, sources: Sources, parse: F.Parser)
    requires listed == Distinct(sources.listed) && StoppedAt(files, files', listed, n, verdict, sources, parse)
    ensures RefreshEnds(files, files', sources, parse, Some(verdict))
  {
    assert listed[n] in sources.listed;
  }

  /** The second loop: entries of files that are not listed go. */
  function Pruned(files: Index, listed: seq<string>): Index { map p | p in files && p in listed :: files[p] }

  lemma PruneIsCurrent(files: Index, files': Index, listed: seq<string>, sources: Sources, parse: F.Parser)
    requires forall p :: p in listed <==> p in sources.listed
    requires SettledUpTo(files, files', listed, |listed|, sources, parse)
    ensures RefreshEnds(files, Pruned(files', listed), sources, parse, None)
  {
    assert Current(files, Pruned(files', listed), sources, parse);
  }

  function Summaries(files: Index): map<string, UsageSummary> {
    map p | p in files :: files[p].summary
  }

  /** Every published summary is what a scan from scratch of that version gives. */
  ghost predicate AllScanned(summaries: map<string, UsageSummary>, files: Index, world: World, parse: F.Parser)
    reads *
  {
    && summaries.Keys == files.Keys
    && forall p :: p in files ==> F.FullScan(world(files[p].stat), parse) == Some(summaries[p].Value())
  }

  lemma SoundWithin(files: Index, part: Index, world: World, parse: F.Parser, hash: Hasher)
    requires IndexSound(files, world, parse, hash)
    requires forall p :: p in part ==> p in files && part[p] == files[p]
    ensures IndexSound(part, world, parse, hash)
  {
    forall p | p in part ensures EntrySound(part[p], world, parse, hash) {
      assert EntrySound(files[p], world, parse, hash);
    }
  }

  lemma SummariesScanned(files: Index, world: World, parse: F.Parser, hash: Hasher)
    requires IndexSound(files, world, parse, hash)
    ensures AllScanned(Summaries(files), files, world, parse)
  {
    forall p | p in files ensures F.FullScan(world(files[p].stat), parse) == Some(Summaries(files)[p].Value()) {
      assert EntrySound(files[p], world, parse, hash);
    }
  }

  ghost predicate CollectionSound(summaries: map<string, UsageSummary>, world: World, parse: F.Parser)
    reads *
  {
    forall p :: p in summaries ==> ScannedOnce(summaries[p], world, parse)
  }

  ghost predicate ScannedOnce(summary: UsageSummary, world: World, parse: F.Parser)
    reads summary, summary.totals, summary.daily, summary.rateEvents, summary.daily.days.Values
  {
    exists version: Stat :: F.FullScan(world(version), parse) == Some(summary.Value())
  }

  lemma ScannedIsSound(summaries: map<string, UsageSummary>, files: Index, world: World, parse: F.Parser)
    requires AllScanned(summaries, files, world, parse)
    ensures CollectionSound(summaries, world, parse)
  {}

  datatype Refresh = Refreshed(summaries: map<string, UsageSummary>) | Interrupted(verdict: Verdict) {
    function Error(): Option<Verdict> { if Interrupted? then Some(verdict) else None }
  }

  class CodexUsageReader {
    const appendOnlySessionFiles: bool
    const historicalRefreshMs: nat
    const parse: F.Parser
    const hash: Hasher
    var usageFiles: Index
    var historicalCollectedAt: Option<int>
    var historicalSummaries: Option<map<string, UsageSummary>>

    constructor (appendOnly: bool, refreshMs: int, parse: F.Parser, hash: Hasher)
      ensures usageFiles == map[] && historicalSummaries == None && historicalCollectedAt == None
      ensures appendOnlySessionFiles == appendOnly && this.parse == parse && this.hash == hash
      ensures 0 <= refreshMs <= 30_000 ==> historicalRefreshMs == refreshMs
      ensures (refreshMs < 0 ==> historicalRefreshMs == 0) && (refreshMs > 30_000 ==> historicalRefreshMs == 30_000)
    {
      appendOnlySessionFiles, this.parse, this.hash := appendOnly, parse, hash;
      historicalRefreshMs := if refreshMs < 0 then 0 else if refreshMs > 30_000 then 30_000 else refreshMs;
      usageFiles, historicalCollectedAt, historicalSummaries := map[], None, None;
    }

    method Install(files: Index, ghost world: World)
      requires IndexSound(files, world, parse, hash)
      modifies this`usageFiles
      ensures usageFiles == files
      ensures IndexSound(usageFiles, world, parse, hash)
    {
      assert forall p :: p in files ==> EntrySound(files[p], world, parse, hash);
      usageFiles := files;
    }

    /**
     `refreshSessionIndex`.  On success the index holds exactly the listed files
     that are still there, each equal to a scan from scratch of its current
     version.  It succeeds exactly if every listed file can be settled; otherwise it
     stops at the first one that cannot, and every entry is still a complete snapshot.
     */
    method RefreshSessionIndex(sources: Sources, ghost world: World) returns (r: Refresh)
      requires IndexSound(usageFiles, world, parse, hash) && Coherent(sources, world, hash)
      requires appendOnlySessionFiles ==> AppendOnly(world)
      modifies this`usageFiles
      ensures IndexSound(usageFiles, world, parse, hash)
      ensures RefreshEnds(old(usageFiles), usageFiles, sources, parse, r.Error())
      ensures r.Refreshed? ==>
        && r.summaries == Summaries(usageFiles)
        && AllScanned(r.summaries, usageFiles, world, parse)
    {
      var listed := Distinct(sources.listed);
      var verdict, files' := RefreshListed(
        usageFiles, listed, sources, world, appendOnlySessionFiles, parse, hash);
      if verdict != Complete {
        ghost var n :| StoppedAt(usageFiles, files', listed, n, verdict, sources, parse);
        StopEnds(usageFiles, files', listed, n, verdict, sources, parse);
        Install(files', world);
        return Interrupted(verdict);
      }
      var kept := Pruned(files', listed);
      PruneIsCurrent(usageFiles, files', listed, sources, parse);
      SoundWithin(files', kept, world, parse, hash);
      Install(kept, world);
      SummariesScanned(kept, world, parse, hash);
      return Refreshed(Summaries(kept));
    }

    /** The published collection is what scans from scratch of some versions of its files give. */
    ghost predicate PublishedSound(world: World)
      reads *
    {
      && (historicalSummaries.Some? <==> historicalCollectedAt.Some?)
      && (historicalSummaries.Some? ==> CollectionSound(historicalSummaries.value, world, parse))
    }

    method Publish(summaries: map<string, UsageSummary>, now: int, ghost files: Index, ghost world: World)
      requires IndexSound(files, world, parse, hash)
      modifies this`historicalSummaries, this`historicalCollectedAt
      ensures historicalSummaries == Some(summaries) && historicalCollectedAt == Some(now)
      ensures IndexSound(files, world, parse, hash)
    {
      assert forall p :: p in files ==> EntrySound(files[p], world, parse, hash);
      historicalSummaries, historicalCollectedAt := Some(summaries), Some(now);
    }

    /** Is it time for a new collection? */
    predicate Due(now: int)
      reads this`historicalSummaries, this`historicalCollectedAt
    {
      || historicalSummaries.None? || historicalCollectedAt.None?
      || now < historicalCollectedAt.value || now - historicalCollectedAt.value >= historicalRefreshMs
    }

    /** A collection that is due. */
    method Collect(now: int, sources: Sources, ghost world: World) returns (error: Option<Verdict>)
      requires IndexSound(usageFiles, world, parse, hash) && PublishedSound(world) && Coherent(sources, world, hash)
      requires appendOnlySessionFiles ==> AppendOnly(world)
      modifies this`usageFiles, this`historicalSummaries, this`historicalCollectedAt
      ensures IndexSound(usageFiles, world, parse, hash) && PublishedSound(world)
      ensures RefreshEnds(old(usageFiles), usageFiles, sources, parse, error)
      ensures error.None? ==> historicalSummaries == Some(Summaries(usageFiles)) && historicalCollectedAt == Some(now)
      ensures error.Some? ==>
        historicalSummaries == old(historicalSummaries) && historicalCollectedAt == old(historicalCollectedAt)
    {
      var r := RefreshSessionIndex(sources, world);
      if r.Interrupted? { return Some(r.verdict); }
      Publish(r.summaries, now, usageFiles, world);
      SummariesScanned(usageFiles, world, parse, hash);
      ScannedIsSound(r.summaries, usageFiles, world, parse);
      return None;
    }

    /**
     The collection part of `readCodexUsage`.  What is not due changes nothing.  What is due succeeds
     exactly if the refresh does, and then publishes the summaries of the refreshed index.
     */
    method ReadCollection(now: int, sources: Sources, ghost world: World) returns (error: Option<Verdict>)
      requires IndexSound(usageFiles, world, parse, hash) && PublishedSound(world) && Coherent(sources, world, hash)
      requires appendOnlySessionFiles ==> AppendOnly(world)
      modifies this`usageFiles, this`historicalSummaries, this`historicalCollectedAt
      ensures IndexSound(usageFiles, world, parse, hash) && PublishedSound(world)
      ensures old(Due(now)) ==> RefreshEnds(old(usageFiles), usageFiles, sources, parse, error)
      ensures old(Due(now)) && error.None? ==>
        historicalSummaries == Some(Summaries(usageFiles)) && historicalCollectedAt == Some(now)
      ensures !old(Due(now)) ==> error.None? && usageFiles == old(usageFiles)
      ensures !old(Due(now)) || error.Some? ==>
        historicalSummaries == old(historicalSummaries) && historicalCollectedAt == old(historicalCollectedAt)
      ensures error.None? ==>
        && historicalSummaries.Some?
        && (historicalCollectedAt.value == now || 0 <= now - historicalCollectedAt.value < historicalRefreshMs)
    {
      if !Due(now) { return None; }
      error := Collect(now, sources, world);
    }
  }
}
