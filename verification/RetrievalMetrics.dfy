/**
 Ranking metrics of local-ai-research/pivot_benchmark.py over exact reals.

 The discount 1 / log2(index + 1) is a parameter of which the proofs use only that it is
 positive and never grows with the index (`Discount`).
 */
module RetrievalMetrics {
  import opened Common

  /** The judged files of a case. */
  datatype Judged = Judged(critical: set<string>, supporting: set<string>)

  function Relevant(j: Judged): set<string> { j.critical + j.supporting }

  ghost predicate Discount(d: nat -> real) { forall i, j :: 1 <= i <= j ==> 0.0 < d(j) <= d(i) }

  ghost predicate NoRepeats(paths: seq<string>) { forall i, j :: 0 <= i < j < |paths| ==> paths[i] != paths[j] }

  /** `paths[:k]` */
  function Top(paths: seq<string>, k: nat): seq<string> { if k <= |paths| then paths[..k] else paths }

  /** Two to the relevance (2 critical, 1 supporting, 0 otherwise), minus one. */
  function Gain(path: string, j: Judged): int {
    if path in j.critical then 3 else if path in j.supporting then 1 else 0
  }

  /** The gain at one-based position `k`; nothing past the end. */
  function GainAt(ranked: seq<string>, j: Judged, k: nat): int {
    if 1 <= k <= |ranked| then Gain(ranked[k - 1], j) else 0
  }

  function Dcg(d: nat -> real, ranked: seq<string>, j: Judged, k: nat): real {
    if k == 0 then 0.0 else Dcg(d, ranked, j, k - 1) + GainAt(ranked, j, k) as real * d(k)
  }

  /** The undiscounted gain of the first `k` files. */
  function Gains(ranked: seq<string>, j: Judged, k: nat): int {
    if k == 0 then 0 else Gains(ranked, j, k - 1) + GainAt(ranked, j, k)
  }

  /** How many of the first `k` files are in a set. */
  function Hits(ranked: seq<string>, among: set<string>, k: nat): (r: int)
    ensures 0 <= r <= k && r <= |ranked|
  {
    if k == 0 then 0
    else Hits(ranked, among, k - 1) + if k <= |ranked| && ranked[k - 1] in among then 1 else 0
  }

  // ---------------------------------------------------------------- counting

  lemma {:induction false} HitsGrow(ranked: seq<string>, among: set<string>, k: nat, n: nat)
    requires k <= n
    ensures Hits(ranked, among, k) <= Hits(ranked, among, n)
  {
    if k < n {
      HitsGrow(ranked, among, k, n - 1);
    }
  }

  ghost function Shown(ranked: seq<string>, among: set<string>, k: nat): set<string> {
    set p | p in Top(ranked, k) && p in among
  }

  /** Without repeats the hits are the files of the set that `Top` holds: the source's set intersections. */
  lemma {:induction false} HitsCountIntersection(ranked: seq<string>, among: set<string>, k: nat)
    requires NoRepeats(ranked)
    ensures Hits(ranked, among, k) == |Shown(ranked, among, k)|
    ensures Hits(ranked, among, k) <= |among|
  {
    if k == 0 {
      assert Shown(ranked, among, 0) == {};
    } else {
      HitsCountIntersection(ranked, among, k - 1);
      ShownStep(ranked, among, k);
    }
    SubsetSize(Shown(ranked, among, k), among);
  }

  lemma ShownStep(ranked: seq<string>, among: set<string>, k: nat)
    requires NoRepeats(ranked) && k > 0
    ensures |Shown(ranked, among, k)| ==
      |Shown(ranked, among, k - 1)| + if k <= |ranked| && ranked[k - 1] in among then 1 else 0
  {
    var before, now := Shown(ranked, among, k - 1), Shown(ranked, among, k);
    if k <= |ranked| {
      assert Top(ranked, k) == Top(ranked, k - 1) + [ranked[k - 1]];
      if ranked[k - 1] in among {
        assert now == before + {ranked[k - 1]};
      } else {
        assert now == before;
      }
    } else {
      assert Top(ranked, k) == Top(ranked, k - 1);
    }
  }

  lemma {:induction false} AllHits(ranked: seq<string>, among: set<string>, k: nat)
    ensures Hits(ranked, among, k) == k <==> k <= |ranked| && forall i :: 0 <= i < k ==> ranked[i] in among
  {
    if k > 0 {
      AllHits(ranked, among, k - 1);
    }
  }

  lemma {:induction false} GainsAreHits(ranked: seq<string>, j: Judged, k: nat)
    ensures Gains(ranked, j, k) == 3 * Hits(ranked, j.critical, k) + Hits(ranked, j.supporting - j.critical, k)
    ensures Hits(ranked, j.critical, k) + Hits(ranked, j.supporting - j.critical, k) <= k
  {
    if k > 0 {
      GainsAreHits(ranked, j, k - 1);
    }
  }

  // ---------------------------------------------------------------- nDCG

  ghost predicate Enumerates(paths: seq<string>, s: set<string>) {
    NoRepeats(paths) && forall p :: p in paths <==> p in s
  }

  lemma EnumerationSize(paths: seq<string>, s: set<string>)
    requires Enumerates(paths, s)
    ensures |paths| == |s|
  {
    HitsCountIntersection(paths, s, |paths|);
    AllHits(paths, s, |paths|);
    assert Shown(paths, s, |paths|) == s;
  }

  /** The ideal ranking: the critical files in some order, then the supporting files in some order. */
  ghost predicate Ideal(ideal: seq<string>, j: Judged) {
    && |j.critical| <= |ideal|
    && Enumerates(ideal[..|j.critical|], j.critical)
    && Enumerates(ideal[|j.critical|..], j.supporting)
  }

  lemma IdealShape(ideal: seq<string>, j: Judged)
    requires Ideal(ideal, j)
    ensures |ideal| == |j.critical| + |j.supporting| && Tiered(ideal, j, |j.critical|)
  {
    var n := |j.critical|;
    EnumerationSize(ideal[n..], j.supporting);
    forall i | 0 <= i < n ensures ideal[i] in j.critical {
      assert ideal[..n][i] in ideal[..n];
    }
    forall i | n <= i < |ideal| ensures ideal[i] in j.supporting {
      assert ideal[n..][i - n] in ideal[n..];
    }
  }

  /** What the first `k` places gain when `c` of them hold 3 and then `s` of them hold 1. */
  function Staircase(c: nat, s: nat, k: nat): int {
    if k <= c then 3 * k else 3 * c + if k - c <= s then k - c else s
  }

  lemma GainsAtMost(ranked: seq<string>, j: Judged, k: nat)
    requires NoRepeats(ranked)
    ensures Gains(ranked, j, k) <= Staircase(|j.critical|, |j.supporting - j.critical|, k)
  {
    GainsAreHits(ranked, j, k);
    HitsCountIntersection(ranked, j.critical, k);
    HitsCountIntersection(ranked, j.supporting - j.critical, k);
  }

  /** Critical files first, then supporting ones. */
  ghost predicate Tiered(ranked: seq<string>, j: Judged, c: nat) {
    && c <= |ranked|
    && (forall i :: 0 <= i < c ==> ranked[i] in j.critical)
    && (forall i :: c <= i < |ranked| ==> ranked[i] in j.supporting)
  }

  lemma {:induction false} TieredGainsAtLeast(ideal: seq<string>, j: Judged, c: nat, k: nat)
    requires Tiered(ideal, j, c)
    ensures Gains(ideal, j, k) >= Staircase(c, |ideal| - c, k)
  {
    if k > 0 {
      TieredGainsAtLeast(ideal, j, c, k - 1);
    }
  }

  /** A critical file that is listed a second time, as a supporting one, is gained twice. */
  lemma {:induction false} RepeatGainsMore(ideal: seq<string>, j: Judged, c: nat, b: nat, k: nat)
    requires Tiered(ideal, j, c) && c <= b < |ideal| && ideal[b] in j.critical && b < k
    ensures Gains(ideal, j, k) >= Staircase(c, |ideal| - c, k) + 2
  {
    if k == b + 1 {
      TieredGainsAtLeast(ideal, j, c, b);
    } else {
      RepeatGainsMore(ideal, j, c, b, k - 1);
    }
  }

  lemma IdealDominates(ranked: seq<string>, ideal: seq<string>, j: Judged, k: nat)
    requires NoRepeats(ranked) && Ideal(ideal, j)
    ensures Gains(ranked, j, k) <= Gains(ideal, j, k)
  {
    GainsAtMost(ranked, j, k);
    IdealShape(ideal, j);
    TieredGainsAtLeast(ideal, j, |j.critical|, k);
    SubsetSize(j.supporting - j.critical, j.supporting);
  }

  /** The score of one ranking less that of another, and the same for the undiscounted gains. */
  function Lead(d: nat -> real, high: seq<string>, low: seq<string>, j: Judged, k: nat): real {
    Dcg(d, high, j, k) - Dcg(d, low, j, k)
  }

  function GainLead(high: seq<string>, low: seq<string>, j: Judged, k: nat): int {
    Gains(high, j, k) - Gains(low, j, k)
  }

  lemma LeadStep(d: nat -> real, high: seq<string>, low: seq<string>, j: Judged, k: nat) returns (more: int)
    ensures GainLead(high, low, j, k + 1) == GainLead(high, low, j, k) + more
    ensures Lead(d, high, low, j, k + 1) == Lead(d, high, low, j, k) + more as real * d(k + 1)
  {
    var h, l := GainAt(high, j, k + 1), GainAt(low, j, k + 1);
    more := h - l;
    Distribute(h, l, d(k + 1));
  }

  lemma Distribute(h: int, l: int, x: real)
    ensures (h - l) as real * x == h as real * x - l as real * x
  {}

  lemma DiscountStep(lead: real, gained: int, more: int, before: real, now: real)
    requires gained >= 0 && now <= before && lead >= gained as real * before
    ensures lead + more as real * now >= (gained + more) as real * now
  {}

  /**
   Abel summation: if one ranking gains at least as much as another on every prefix, a discount
   that never grows keeps the last of these differences.
   */
  lemma {:induction false} DominanceSurvivesDiscount(
    d: nat -> real, low: seq<string>, high: seq<string>, j: Judged, k: nat)
    requires Discount(d) && k >= 1
    requires forall m :: 0 <= m <= k ==> GainLead(high, low, j, m) >= 0
    ensures Lead(d, high, low, j, k) >= GainLead(high, low, j, k) as real * d(k)
  {
    var more := LeadStep(d, high, low, j, k - 1);
    if k > 1 {
      DominanceSurvivesDiscount(d, low, high, j, k - 1);
      DiscountStep(Lead(d, high, low, j, k - 1), GainLead(high, low, j, k - 1), more, d(k - 1), d(k));
    }
  }

  lemma DominatedScoresLess(d: nat -> real, low: seq<string>, high: seq<string>, j: Judged, k: nat)
    requires Discount(d)
    requires forall m :: 0 <= m <= k ==> Gains(low, j, m) <= Gains(high, j, m)
    ensures Dcg(d, low, j, k) <= Dcg(d, high, j, k)
    ensures Gains(low, j, k) < Gains(high, j, k) ==> Dcg(d, low, j, k) < Dcg(d, high, j, k)
  {
    if k >= 1 {
      DominanceSurvivesDiscount(d, low, high, j, k);
      ProductNotNegative(GainLead(high, low, j, k), d(k));
    }
  }

  /** nDCG never exceeds 1: no ranking without repeats beats the ideal one. */
  lemma NdcgAtMostOne(d: nat -> real, ranked: seq<string>, ideal: seq<string>, j: Judged, k: nat)
    requires Discount(d) && NoRepeats(ranked) && Ideal(ideal, j)
    ensures 0.0 <= Dcg(d, ranked, j, k) <= Dcg(d, ideal, j, k)
    ensures 0.0 <= Ratio(Dcg(d, ranked, j, k), Dcg(d, ideal, j, k)) <= 1.0
  {
    DcgNotNegative(d, ranked, j, k);
    forall m | 0 <= m <= k ensures Gains(ranked, j, m) <= Gains(ideal, j, m) {
      IdealDominates(ranked, ideal, j, m);
    }
    DominatedScoresLess(d, ranked, ideal, j, k);
    RatioInUnit(Dcg(d, ranked, j, k), Dcg(d, ideal, j, k));
  }

  lemma ProductNotNegative(n: int, x: real)
    requires n >= 0 && x > 0.0
    ensures n as real * x >= 0.0
    ensures n > 0 ==> n as real * x > 0.0
  {}

  lemma RatioInUnit(a: real, b: real)
    requires 0.0 <= a <= b
    ensures 0.0 <= Ratio(a, b) <= 1.0
    ensures b > 0.0 ==> (Ratio(a, b) == 1.0 <==> a == b)
  {}

  lemma {:induction false} DcgNotNegative(d: nat -> real, ranked: seq<string>, j: Judged, k: nat)
    requires Discount(d)
    ensures Dcg(d, ranked, j, k) >= 0.0
  {
    if k > 0 {
      DcgNotNegative(d, ranked, j, k - 1);
      ProductNotNegative(GainAt(ranked, j, k), d(k));
    }
  }

  lemma {:induction false} DcgOfTop(d: nat -> real, ranked: seq<string>, j: Judged, k: nat, m: nat)
    requires m <= k
    ensures Dcg(d, Top(ranked, k), j, m) == Dcg(d, ranked, j, m)
  {
    if m > 0 {
      DcgOfTop(d, ranked, j, k, m - 1);
      assert GainAt(Top(ranked, k), j, m) == GainAt(ranked, j, m);
    }
  }

  /**
   A ranking that reaches the ideal exists exactly when the part of the ideal that is read does
   not list a file twice; a supporting file that is also critical puts a score of 1 out of reach.
   */
  lemma IdealAttainedExactlyWithoutRepeats(d: nat -> real, ideal: seq<string>, j: Judged, k: nat)
    requires Discount(d) && Ideal(ideal, j)
    ensures (exists ranked :: NoRepeats(ranked) && Dcg(d, ranked, j, k) == Dcg(d, ideal, j, k))
       <==> NoRepeats(Top(ideal, k))
  {
    if NoRepeats(Top(ideal, k)) {
      DcgOfTop(d, ideal, j, k, k);
    } else {
      forall ranked | NoRepeats(ranked) ensures Dcg(d, ranked, j, k) < Dcg(d, ideal, j, k) {
        RepeatedIdealOutOfReach(d, ranked, ideal, j, k);
      }
    }
  }

  lemma RepeatedIdealOutOfReach(d: nat -> real, ranked: seq<string>, ideal: seq<string>, j: Judged, k: nat)
    requires Discount(d) && Ideal(ideal, j) && NoRepeats(ranked) && !NoRepeats(Top(ideal, k))
    ensures Dcg(d, ranked, j, k) < Dcg(d, ideal, j, k)
  {
    var b := RepeatedFile(ideal, j, k);
    RepeatedGapOpens(ranked, ideal, j, b, k);
    forall m | 0 <= m <= k ensures Gains(ranked, j, m) <= Gains(ideal, j, m) {
      IdealDominates(ranked, ideal, j, m);
    }
    DominatedScoresLess(d, ranked, ideal, j, k);
  }

  lemma RepeatedGapOpens(ranked: seq<string>, ideal: seq<string>, j: Judged, b: nat, k: nat)
    requires NoRepeats(ranked) && Ideal(ideal, j)
    requires |j.critical| <= b < |ideal| && b < k && ideal[b] in j.critical
    ensures Gains(ranked, j, k) < Gains(ideal, j, k)
  {
    IdealShape(ideal, j);
    RepeatGainsMore(ideal, j, |j.critical|, b, k);
    GainsAtMost(ranked, j, k);
    SubsetSize(j.supporting - j.critical, j.supporting);
  }

  lemma NoRepeatsInSlice(paths: seq<string>, lo: nat, hi: nat)
    requires lo <= hi <= |paths| && NoRepeats(paths[lo..hi])
    ensures forall x, y :: lo <= x < y < hi ==> paths[x] != paths[y]
  {}

  /** What repeats in the ideal is a critical file, among the supporting ones. */
  lemma RepeatedFile(ideal: seq<string>, j: Judged, k: nat) returns (b: nat)
    requires Ideal(ideal, j) && !NoRepeats(Top(ideal, k))
    ensures |j.critical| <= b < |ideal| && b < k && ideal[b] in j.critical
  {
    var n := |j.critical|;
    var a;
    a, b :| 0 <= a < b < |Top(ideal, k)| && Top(ideal, k)[a] == Top(ideal, k)[b];
    NoRepeatsInSlice(ideal, 0, n);
    NoRepeatsInSlice(ideal, n, |ideal|);
    assert ideal[..n][a] in ideal[..n];
  }

  // ---------------------------------------------------------------- average precision

  /** The sum of the precisions at the relevant files among the first `k`. */
  function PrecisionSum(files: seq<string>, relevant: set<string>, k: nat): real {
    if k == 0 then 0.0
    else PrecisionSum(files, relevant, k - 1) +
         if k <= |files| && files[k - 1] in relevant then Hits(files, relevant, k) as real / k as real else 0.0
  }

  lemma FractionInUnit(n: int, k: nat)
    requires 0 <= n <= k && k > 0
    ensures 0.0 <= n as real / k as real <= 1.0
    ensures n as real / k as real == 1.0 <==> n == k
  {
    assert n as real / k as real * k as real == n as real;
  }

  /** The precisions sum to at most the number of hits, and to exactly that only if the hits come first. */
  lemma {:induction false} PrecisionSumBound(files: seq<string>, relevant: set<string>, k: nat)
    ensures 0.0 <= PrecisionSum(files, relevant, k) <= Hits(files, relevant, k) as real
    ensures PrecisionSum(files, relevant, k) == Hits(files, relevant, k) as real <==>
      Hits(files, relevant, Hits(files, relevant, k)) == Hits(files, relevant, k)
  {
    if k > 0 {
      var h := Hits(files, relevant, k);
      PrecisionSumBound(files, relevant, k - 1);
      FractionInUnit(h, k);
      if k <= |files| && files[k - 1] in relevant {
        if h < k {
          HitsGrow(files, relevant, h, k - 1);
        } else {
          AllHits(files, relevant, k);
          AllHits(files, relevant, k - 1);
        }
      }
    }
  }

  /** min(len(relevant), 10) */
  function Wanted(j: Judged): nat { if |Relevant(j)| <= 10 then |Relevant(j)| else 10 }

  /** MAP@10 is in [0, 1], and is 1 exactly when the first files are all relevant, as many as there can be. */
  lemma MapInUnit(files: seq<string>, j: Judged)
    requires NoRepeats(files)
    ensures var map10 := Ratio(PrecisionSum(files, Relevant(j), 10), Wanted(j) as real);
      && 0.0 <= map10 <= 1.0
      && (map10 == 1.0 <==>
           Wanted(j) > 0 && Wanted(j) <= |files| && forall i :: 0 <= i < Wanted(j) ==> files[i] in Relevant(j))
  {
    var r, w := Relevant(j), Wanted(j);
    HitsCountIntersection(files, r, 10);
    PrecisionSumBound(files, r, 10);
    AllHits(files, r, w);
    HitsGrow(files, r, w, 10);
    FirstHits(PrecisionSum(files, r, 10), Hits(files, r, 10), Hits(files, r, w), w, Hits(files, r, Hits(files, r, 10)));
  }

  lemma FirstHits(sum: real, hits: int, early: int, wanted: nat, first: int)
    requires 0.0 <= sum <= hits as real && hits <= wanted && early <= hits && early <= wanted
    requires sum == hits as real <==> first == hits
    requires hits == wanted ==> first == early
    ensures 0.0 <= Ratio(sum, wanted as real) <= 1.0
    ensures Ratio(sum, wanted as real) == 1.0 <==> wanted > 0 && early == wanted
  {
    RatioInUnit(sum, wanted as real);
  }

  /** Critical recall is in [0, 1] and does not fall as more files are read. */
  lemma RecallGrows(files: seq<string>, among: set<string>, k: nat, n: nat)
    requires NoRepeats(files) && k <= n
    ensures 0.0 <= Ratio(Hits(files, among, k) as real, |among| as real)
         <= Ratio(Hits(files, among, n) as real, |among| as real) <= 1.0
  {
    HitsGrow(files, among, k, n);
    HitsCountIntersection(files, among, n);
    HitsCountIntersection(files, among, k);
    if among != {} {
      DivideMonotone(Hits(files, among, k) as real, Hits(files, among, n) as real, |among| as real);
      RatioInUnit(Hits(files, among, n) as real, |among| as real);
      RatioInUnit(Hits(files, among, k) as real, |among| as real);
    }
  }

  lemma DivideMonotone(a: real, b: real, c: real)
    requires a <= b && c > 0.0
    ensures a / c <= b / c
  {
    assert (b / c - a / c) * c == b - a;
  }

  // ---------------------------------------------------------------- the program

  method RankFiles(paths: seq<string>) returns (result: seq<string>)
    ensures result == Distinct(paths)
    ensures NoRepeats(result) && forall p :: p in result <==> p in paths
  {
    result := [];
    var seen: set<string> := {};
    for i := 0 to |paths|
      invariant result == Distinct(paths[..i])
      invariant seen == set p | p in result
    {
      assert paths[..i + 1][..i] == paths[..i];
      if paths[i] !in seen {
        seen := seen + {paths[i]};
        result := result + [paths[i]];
      }
    }
    assert paths[..|paths|] == paths;
  }

  method DiscountedGain(d: nat -> real, ranked: seq<string>, j: Judged, k: nat) returns (value: real)
    ensures value == Dcg(d, ranked, j, k)
  {
    value := 0.0;
    var top := Top(ranked, k);
    for i := 0 to |top|
      invariant value == Dcg(d, ranked, j, i)
    {
      var relevance := if top[i] in j.critical then 2 else if top[i] in j.supporting then 1 else 0;
      var gain := (if relevance == 2 then 4 else if relevance == 1 then 2 else 1) - 1;
      assert GainAt(ranked, j, i + 1) == gain;
      value := value + gain as real * d(i + 1);
    }
    DcgPastEnd(d, ranked, j, |top|, k);
  }

  lemma {:induction false} DcgPastEnd(d: nat -> real, ranked: seq<string>, j: Judged, n: nat, k: nat)
    requires n <= k && (n < k ==> n == |ranked|)
    ensures Dcg(d, ranked, j, k) == Dcg(d, ranked, j, n)
  {
    if n < k {
      DcgPastEnd(d, ranked, j, n, k - 1);
      assert GainAt(ranked, j, k) == 0;
    }
  }

  method AveragePrecision(files: seq<string>, j: Judged) returns (value: real)
    ensures value == Ratio(PrecisionSum(files, Relevant(j), 10), Wanted(j) as real)
  {
    var sum, relevantSeen, top := 0.0, 0, Top(files, 10);
    var relevant := j.critical + j.supporting;
    for i := 0 to |top|
      invariant sum == PrecisionSum(files, relevant, i)
      invariant relevantSeen == Hits(files, relevant, i)
    {
      if top[i] in relevant {
        relevantSeen := relevantSeen + 1;
        sum := sum + relevantSeen as real / (i + 1) as real;
      }
    }
    PrecisionPastEnd(files, relevant, |top|, 10);
    value := Ratio(sum, Wanted(j) as real);
  }

  lemma {:induction false} PrecisionPastEnd(files: seq<string>, relevant: set<string>, n: nat, k: nat)
    requires n <= k && (n < k ==> n == |files|)
    ensures PrecisionSum(files, relevant, k) == PrecisionSum(files, relevant, n)
  {
    if n < k {
      PrecisionPastEnd(files, relevant, n, k - 1);
    }
  }

  /** The one-based position of the first file of the set among the first `k`. */
  function FirstHit(files: seq<string>, among: set<string>, k: nat): (r: Option<nat>)
    ensures r.None? ==> Hits(files, among, k) == 0
    ensures r.Some? ==>
      && 1 <= r.value <= k && r.value <= |files| && files[r.value - 1] in among
      && forall i :: 0 <= i < r.value - 1 ==> files[i] !in among
  {
    if k == 0 then None
    else if FirstHit(files, among, k - 1).Some? then FirstHit(files, among, k - 1)
    else
      assert forall i :: 0 <= i < k - 1 && i < |files| ==> files[i] !in among by { NoHits(files, among, k - 1); }
      if k <= |files| && files[k - 1] in among then Some(k) else None
  }

  lemma {:induction false} NoHits(files: seq<string>, among: set<string>, k: nat)
    ensures Hits(files, among, k) == 0 <==> forall i :: 0 <= i < k && i < |files| ==> files[i] !in among
  {
    if k > 0 {
      NoHits(files, among, k - 1);
    }
  }

  function Reciprocal(first: Option<nat>): real {
    if first.Some? && first.value != 0 then 1.0 / first.value as real else 0.0
  }

  /** The search for the first critical file among the first `k`. */
  method FirstCritical(files: seq<string>, j: Judged, k: nat) returns (first: Option<nat>)
    ensures first == FirstHit(files, j.critical, k)
  {
    var top := Top(files, k);
    for i := 0 to |top|
      invariant FirstHit(files, j.critical, i) == None
    {
      if top[i] in j.critical {
        FirstHitStays(files, j.critical, i + 1, k);
        return Some(i + 1);
      }
    }
    HitsPastEnd(files, j.critical, |top|, k);
    NoHits(files, j.critical, k);
    return None;
  }

  lemma {:induction false} FirstHitStays(files: seq<string>, among: set<string>, n: nat, k: nat)
    requires n <= k && FirstHit(files, among, n).Some?
    ensures FirstHit(files, among, k) == FirstHit(files, among, n)
  {
    if n < k {
      FirstHitStays(files, among, n, k - 1);
    }
  }

  lemma {:induction false} HitsPastEnd(files: seq<string>, among: set<string>, n: nat, k: nat)
    requires n <= k && (n < k ==> n == |files|)
    ensures Hits(files, among, k) == Hits(files, among, n)
  {
    if n < k {
      HitsPastEnd(files, among, n, k - 1);
    }
  }

  datatype Metrics = Metrics(
    criticalRecallAt5: real, criticalRecallAt10: real, criticalRecallAt20: real, fileRecallAt10: real,
    precisionAt10: real, mrrAt10: real, ndcgAt10: real, mapAt10: real, needsMoreContext: bool)

  function Recall(files: seq<string>, among: set<string>, k: nat): real {
    Ratio(Hits(files, among, k) as real, |among| as real)
  }

  /** The metrics of a ranking of files, stated over counts of hits. */
  ghost predicate Measures(m: Metrics, d: nat -> real, j: Judged, ideal: seq<string>, files: seq<string>) {
    && m.criticalRecallAt5 == Recall(files, j.critical, 5)
    && m.criticalRecallAt10 == Recall(files, j.critical, 10)
    && m.criticalRecallAt20 == Recall(files, j.critical, 20)
    && m.fileRecallAt10 == Recall(files, Relevant(j), 10)
    && m.precisionAt10 == Ratio(Hits(files, Relevant(j), 10) as real, |Top(files, 10)| as real)
    && m.mrrAt10 == Reciprocal(FirstHit(files, j.critical, 10))
    && m.ndcgAt10 == Ratio(Dcg(d, files, j, 10), Dcg(d, ideal, j, 10))
    && m.mapAt10 == Ratio(PrecisionSum(files, Relevant(j), 10), Wanted(j) as real)
    && (m.needsMoreContext <==> !(forall p :: p in j.critical ==> p in Top(files, 10)))
  }

  lemma MetricsInRange(m: Metrics, d: nat -> real, j: Judged, ideal: seq<string>, files: seq<string>)
    requires Discount(d) && Ideal(ideal, j) && NoRepeats(files) && Measures(m, d, j, ideal, files)
    ensures 0.0 <= m.criticalRecallAt5 <= m.criticalRecallAt10 <= m.criticalRecallAt20 <= 1.0
    ensures 0.0 <= m.fileRecallAt10 <= 1.0 && 0.0 <= m.precisionAt10 <= 1.0
    ensures 0.0 <= m.ndcgAt10 <= 1.0 && 0.0 <= m.mapAt10 <= 1.0
    ensures 0.0 <= m.mrrAt10 <= 1.0 && (m.mrrAt10 > 0.0 <==> m.criticalRecallAt10 > 0.0)
    ensures m.needsMoreContext <==> j.critical != {} && m.criticalRecallAt10 < 1.0
  {
    MrrInRange(files, j.critical, 10);
    RecallGrows(files, j.critical, 5, 10);
    RecallGrows(files, j.critical, 10, 20);
    RecallGrows(files, Relevant(j), 10, 10);
    NdcgAtMostOne(d, files, ideal, j, 10);
    MapInUnit(files, j);
    HitsOfTop(files, Relevant(j), 10);
    RatioInUnit(Hits(files, Relevant(j), 10) as real, |Top(files, 10)| as real);
    FullRecall(files, j.critical, 10);
  }

  lemma HitsOfTop(files: seq<string>, among: set<string>, k: nat)
    ensures Hits(files, among, k) <= |Top(files, k)|
  {}

  /** The reciprocal rank is in [0, 1], and positive exactly when a file of the set is among those read. */
  lemma MrrInRange(files: seq<string>, among: set<string>, k: nat)
    requires NoRepeats(files)
    ensures 0.0 <= Reciprocal(FirstHit(files, among, k)) <= 1.0
    ensures Reciprocal(FirstHit(files, among, k)) > 0.0 <==> Recall(files, among, k) > 0.0
  {}

  /** `ratio(len(among & set(files[:k])), len(among))` */
  method RecallAt(files: seq<string>, among: set<string>, k: nat) returns (r: real)
    requires NoRepeats(files)
    ensures r == Recall(files, among, k)
  {
    HitsCountIntersection(files, among, k);
    r := Ratio(|set p | p in Top(files, k) && p in among| as real, |among| as real);
  }

  /** `ratio(len(among & set(files[:k])), min(k, len(files)))` */
  method PrecisionAt(files: seq<string>, among: set<string>, k: nat) returns (r: real)
    requires NoRepeats(files)
    ensures r == Ratio(Hits(files, among, k) as real, |Top(files, k)| as real)
  {
    HitsCountIntersection(files, among, k);
    var read := if |files| <= k then |files| else k;
    r := Ratio(|set p | p in Top(files, k) && p in among| as real, read as real);
  }

  method RetrievalMetrics(d: nat -> real, j: Judged, ideal: seq<string>, paths: seq<string>) returns (m: Metrics)
    ensures Measures(m, d, j, ideal, Distinct(paths))
  {
    var files := RankFiles(paths);
    var relevant := j.critical + j.supporting;
    var first := FirstCritical(files, j, 10);
    var critical5 := RecallAt(files, j.critical, 5);
    var critical10 := RecallAt(files, j.critical, 10);
    var critical20 := RecallAt(files, j.critical, 20);
    var file10 := RecallAt(files, relevant, 10);
    var precision10 := PrecisionAt(files, relevant, 10);
    var gained := DiscountedGain(d, files, j, 10);
    var best := DiscountedGain(d, ideal, j, 10);
    var map10 := AveragePrecision(files, j);
    m := Metrics(critical5, critical10, critical20, file10, precision10,
                 Reciprocal(first),
                 Ratio(gained, best), map10,
                 !(forall p :: p in j.critical ==> p in Top(files, 10)));
  }

  /** Everything wanted is in the context exactly when the recall is 1, or nothing was wanted. */
  lemma FullRecall(files: seq<string>, among: set<string>, k: nat)
    requires NoRepeats(files)
    ensures among <= (set p | p in Top(files, k)) <==>
      among == {} || Ratio(Hits(files, among, k) as real, |among| as real) == 1.0
  {
    var found := Shown(files, among, k);
    HitsCountIntersection(files, among, k);
    if among != {} {
      RatioInUnit(|found| as real, |among| as real);
      if |found| == |among| {
        assert |among - found| == 0;
        assert among - found == {};
      } else {
        assert found != among;
      }
    }
  }

  // ---------------------------------------------------------------- the metrics spelled out

  function PowerOfTwo(n: nat): int { if n == 0 then 1 else 2 * PowerOfTwo(n - 1) }

  /** Two to the relevance, minus one. */
  lemma GainIsPower(path: string, j: Judged)
    ensures Gain(path, j)
         == PowerOfTwo(if path in j.critical then 2 else if path in j.supporting then 1 else 0) - 1
  {
    assert PowerOfTwo(1) == 2 && PowerOfTwo(2) == 4;
  }

  /** The discounted gain: nothing for no file, and one term more for one file more. */
  lemma {:induction false} DcgIsSum(d: nat -> real, ranked: seq<string>, j: Judged, k: nat)
    ensures Dcg(d, [], j, k) == 0.0
    ensures ranked != [] ==>
      var front, last := ranked[..|ranked| - 1], ranked[|ranked| - 1];
      Dcg(d, ranked, j, |ranked|) == Dcg(d, front, j, |front|) + Gain(last, j) as real * d(|ranked|)
    ensures Dcg(d, ranked, j, k) == Dcg(d, Top(ranked, k), j, |Top(ranked, k)|)
  {
    DcgPastEnd(d, [], j, 0, k);
    if ranked != [] { SameStart(d, ranked, ranked[..|ranked| - 1], j, |ranked| - 1); }
    var n := |Top(ranked, k)|;
    DcgPastEnd(d, ranked, j, n, k);
    SameStart(d, ranked, Top(ranked, k), j, n);
  }

  lemma {:induction false} SameStart(d: nat -> real, a: seq<string>, b: seq<string>, j: Judged, n: nat)
    requires n <= |a| && n <= |b| && a[..n] == b[..n]
    ensures Dcg(d, a, j, n) == Dcg(d, b, j, n)
  {
    if n > 0 {
      assert a[..n][n - 1] == b[..n][n - 1] && a[..n][..n - 1] == a[..n - 1] && b[..n][..n - 1] == b[..n - 1];
      SameStart(d, a, b, j, n - 1);
    }
  }

  /** The reciprocal rank: one over the position of the first file of the set among the first `k`, or zero. */
  lemma ReciprocalRank(files: seq<string>, among: set<string>, k: nat, rank: nat)
    ensures 1 <= rank <= k && rank <= |files| && files[rank - 1] in among
      && (forall i :: 0 <= i < rank - 1 ==> files[i] !in among)
      ==> Reciprocal(FirstHit(files, among, k)) * rank as real == 1.0
    ensures (forall i :: 0 <= i < k && i < |files| ==> files[i] !in among)
      ==> Reciprocal(FirstHit(files, among, k)) == 0.0
  {
    NoHits(files, among, k);
    var first := FirstHit(files, among, k);
    if 1 <= rank <= k && rank <= |files| && files[rank - 1] in among && first.Some? {
      assert first.value <= rank;
    }
  }

  /** The precisions that are averaged: at each relevant file, the relevant ones up to it over its position. */
  lemma PrecisionTerms(files: seq<string>, relevant: set<string>, k: nat)
    ensures PrecisionSum(files, relevant, 0) == 0.0
    ensures k < |files| ==>
      PrecisionSum(files, relevant, k + 1) - PrecisionSum(files, relevant, k)
        == if files[k] in relevant then Hits(files, relevant, k + 1) as real / (k + 1) as real else 0.0
    ensures k >= |files| ==> PrecisionSum(files, relevant, k + 1) == PrecisionSum(files, relevant, k)
  {}

  /** Recall times the number wanted is the number found; precision times the number read likewise. */
  lemma RecallCounts(files: seq<string>, among: set<string>, k: nat)
    requires NoRepeats(files)
    ensures var found := |set p | p in Top(files, k) && p in among|;
      if among == {} then Recall(files, among, k) == 0.0
      else Recall(files, among, k) * |among| as real == found as real
  {
    HitsCountIntersection(files, among, k);
    SizeZero(among);
  }

  /** The relevant files are those of either sort, of which at most ten are wanted. */
  lemma WantedFiles(j: Judged, p: string)
    ensures p in Relevant(j) <==> p in j.critical || p in j.supporting
    ensures Wanted(j) <= 10 && Wanted(j) <= |Relevant(j)| && (Wanted(j) == 10 || Wanted(j) == |Relevant(j)|)
  {}

  /** `paths[:k]` */
  lemma TopIsPrefix(paths: seq<string>, k: nat)
    ensures Top(paths, k) <= paths && |Top(paths, k)| <= k && (|Top(paths, k)| == k || Top(paths, k) == paths)
  {}
}
