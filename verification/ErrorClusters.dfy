/**
 Scoring of error clusterings in local-ai-research/high_potential_benchmark.py, over exact reals.

 A pair of error ids is the set of the two, where the program keeps them in sorted order.
 */
module ErrorClusters {
  import opened Common

  type Id = string
  type Pair = set<Id>

  // ---------------------------------------------------------------- f1_score

  datatype Score = Score(precision: real, recall: real, f1: real)

  function F1Score(expected: set<Pair>, actual: set<Pair>): Score {
    var hits := |expected * actual| as real;
    var precision :=
      if actual != {} then Ratio(hits, |actual| as real) else if expected == {} then 1.0 else 0.0;
    var recall :=
      if expected != {} then Ratio(hits, |expected| as real) else if actual == {} then 1.0 else 0.0;
    Score(precision, recall, Ratio(2.0 * precision * recall, precision + recall))
  }

  /** The Dice coefficient; 1 for two empty sets. */
  function Dice(expected: set<Pair>, actual: set<Pair>): real {
    if expected == {} && actual == {} then 1.0
    else Ratio((2 * |expected * actual|) as real, (|expected| + |actual|) as real)
  }

  /** The harmonic mean of h/a and h/e. */
  lemma HarmonicMean(h: real, a: real, e: real)
    requires h > 0.0 && a > 0.0 && e > 0.0
    ensures Ratio(2.0 * (h / a) * (h / e), h / a + h / e) == 2.0 * h / (a + e)
  {}

  /** The cases of the score, by the sizes of the sets and of their intersection. */
  lemma F1OfCounts(h: nat, a: nat, e: nat, precision: real, recall: real)
    requires h <= a && h <= e
    requires precision == if a > 0 then Ratio(h as real, a as real) else if e == 0 then 1.0 else 0.0
    requires recall == if e > 0 then Ratio(h as real, e as real) else if a == 0 then 1.0 else 0.0
    ensures Ratio(2.0 * precision * recall, precision + recall) ==
      if a == 0 && e == 0 then 1.0 else Ratio((2 * h) as real, (e + a) as real)
  {
    if h > 0 {
      HarmonicMean(h as real, a as real, e as real);
    } else if a > 0 || e > 0 {
      assert precision == 0.0 && recall == 0.0;
    }
  }

  /** F1 is the Dice coefficient of the two sets. */
  lemma F1IsDice(expected: set<Pair>, actual: set<Pair>)
    ensures F1Score(expected, actual).f1 == Dice(expected, actual)
  {
    var score := F1Score(expected, actual);
    SubsetSize(expected * actual, expected);
    SubsetSize(expected * actual, actual);
    SizeZero(expected);
    SizeZero(actual);
    F1OfCounts(|expected * actual|, |actual|, |expected|, score.precision, score.recall);
  }

  /** F1 is 1 only for equal sets. */
  lemma F1OneExactlyWhenEqual(expected: set<Pair>, actual: set<Pair>)
    ensures 0.0 <= F1Score(expected, actual).f1 <= 1.0
    ensures F1Score(expected, actual).f1 == 1.0 <==> expected == actual
  {
    var both, n := expected * actual, |expected| + |actual|;
    F1IsDice(expected, actual);
    SubsetSize(both, expected);
    SubsetSize(both, actual);
    SizeZero(expected);
    SizeZero(actual);
    if n > 0 {
      var f1 := F1Score(expected, actual).f1;
      assert f1 * n as real == (2 * |both|) as real;
      UnitFraction(f1, 2 * |both|, n);
      if expected == actual { assert both == expected; }
    }
  }

  lemma UnitFraction(f: real, k: nat, n: nat)
    requires n > 0 && k <= n && f * n as real == k as real
    ensures 0.0 <= f <= 1.0 && (f == 1.0 <==> k == n)
  {}

  // ---------------------------------------------------------------- pairs of a clustering

  /** All pairs of ids that share a group. */
  ghost predicate Together(groups: seq<set<Id>>, pair: Pair) {
    exists g, a, b :: 0 <= g < |groups| && a in groups[g] && b in groups[g] && a != b && pair == {a, b}
  }

  /** `values` lists a group without repeats. */
  ghost predicate Lists(values: seq<Id>, group: set<Id>) {
    && (forall x :: x in values <==> x in group)
    && (forall i, j :: 0 <= i < j < |values| ==> values[i] != values[j])
  }

  /** `pairs`, with each group as its sorted list of values. */
  method Pairs(groups: seq<set<Id>>, listed: seq<seq<Id>>) returns (result: set<Pair>)
    requires |listed| == |groups| && forall g :: 0 <= g < |groups| ==> Lists(listed[g], groups[g])
    ensures forall pair :: pair in result <==> Together(groups, pair)
  {
    result := {};
    for g := 0 to |groups|
      invariant forall pair :: pair in result <==> Together(groups[..g], pair)
    {
      var values := listed[g];
      var here: set<Pair> := set left, right | 0 <= left < right < |values| :: {values[left], values[right]};
      GroupPairs(groups, g, values, here);
      result := result + here;
    }
    assert groups[..|groups|] == groups;
  }

  lemma GroupPairs(groups: seq<set<Id>>, g: nat, values: seq<Id>, here: set<Pair>)
    requires g < |groups| && Lists(values, groups[g])
    requires here == set left, right | 0 <= left < right < |values| :: {values[left], values[right]}
    ensures forall pair :: Together(groups[..g + 1], pair) <==> Together(groups[..g], pair) || pair in here
  {
    forall k | 0 <= k < g ensures groups[..g][k] == groups[..g + 1][k] {}
    forall pair ensures Together(groups[..g + 1], pair) <==> Together(groups[..g], pair) || pair in here {
      if Together(groups[..g + 1], pair) && !Together(groups[..g], pair) {
        var k, a, b :| 0 <= k < g + 1 && a in groups[..g + 1][k] && b in groups[..g + 1][k] && a != b && pair == {a, b};
        assert k == g;
        var i :| 0 <= i < |values| && values[i] == a;
        var j :| 0 <= j < |values| && values[j] == b;
        var left, right := if i < j then i else j, if i < j then j else i;
        assert pair == {values[left], values[right]};
      }
      if Together(groups[..g], pair) {
        var k, a, b :| 0 <= k < g && a in groups[..g][k] && b in groups[..g][k] && a != b && pair == {a, b};
        assert groups[..g + 1][k] == groups[..g][k];
      }
      if pair in here {
        var left, right :| 0 <= left < right < |values| && pair == {values[left], values[right]};
        assert groups[..g + 1][g] == groups[g] && values[left] in values && values[right] in values;
      }
    }
  }

  // ---------------------------------------------------------------- clustering_metrics

  /** How many expected groups are a group of the answer. */
  function Preserved(expected: seq<set<Id>>, actual: seq<set<Id>>): (r: nat)
    ensures r <= |expected|
    ensures r == |expected| <==> forall g :: 0 <= g < |expected| ==> expected[g] in actual
  {
    if expected == [] then 0
    else
      Preserved(expected[..|expected| - 1], actual) + if expected[|expected| - 1] in actual then 1 else 0
  }

  /**
   A clustering that keeps every root cause and merges nothing falsely has exactly the expected
   pairs: F1 is 1 and nothing is split.
   */
  lemma AcceptedClusteringIsExact(
    expected: seq<set<Id>>, actual: seq<set<Id>>, expectedPairs: set<Pair>, actualPairs: set<Pair>)
    requires forall pair :: pair in expectedPairs <==> Together(expected, pair)
    requires forall pair :: pair in actualPairs <==> Together(actual, pair)
    requires Ratio(Preserved(expected, actual) as real, |expected| as real) == 1.0
    requires actualPairs - expectedPairs == {}
    ensures actualPairs == expectedPairs && expectedPairs - actualPairs == {}
    ensures F1Score(expectedPairs, actualPairs) == Score(1.0, 1.0, 1.0)
  {
    AllPreserved(expected, actual);
    forall pair | pair in expectedPairs ensures pair in actualPairs {
      var g, a, b :| 0 <= g < |expected| && a in expected[g] && b in expected[g] && a != b && pair == {a, b};
      var k :| 0 <= k < |actual| && actual[k] == expected[g];
      assert Together(actual, pair);
    }
    forall pair | pair in actualPairs ensures pair in expectedPairs {
      assert pair !in actualPairs - expectedPairs;
    }
    assert actualPairs == expectedPairs;
    EqualSetsScoreOne(expectedPairs);
  }

  lemma AllPreserved(expected: seq<set<Id>>, actual: seq<set<Id>>)
    requires Ratio(Preserved(expected, actual) as real, |expected| as real) == 1.0
    ensures forall g :: 0 <= g < |expected| ==> expected[g] in actual
  {}

  lemma EqualSetsScoreOne(pairs: set<Pair>)
    ensures F1Score(pairs, pairs) == Score(1.0, 1.0, 1.0)
  {
    assert pairs * pairs == pairs;
    SizeZero(pairs);
    F1IsDice(pairs, pairs);
    if pairs != {} {
      RatioOne(|pairs|, |pairs|);
      RatioOne(2 * |pairs|, |pairs| + |pairs|);
    }
  }

  /** Precision is the share of the answer that was expected, recall the share of the expected that was found. */
  lemma PrecisionAndRecall(expected: set<Pair>, actual: set<Pair>)
    ensures var s, found := F1Score(expected, actual), (set pair | pair in actual && pair in expected);
      && (actual != {} ==> s.precision * |actual| as real == |found| as real)
      && (expected != {} ==> s.recall * |expected| as real == |found| as real)
      && (actual == {} ==> s.precision == if expected == {} then 1.0 else 0.0)
      && (expected == {} ==> s.recall == if actual == {} then 1.0 else 0.0)
  {
    assert expected * actual == set pair | pair in actual && pair in expected;
    SizeZero(expected);
    SizeZero(actual);
    Shares(|expected * actual|, |actual|, |expected|, F1Score(expected, actual));
  }

  lemma Shares(h: nat, a: nat, e: nat, s: Score)
    requires a > 0 ==> s.precision == Ratio(h as real, a as real)
    requires e > 0 ==> s.recall == Ratio(h as real, e as real)
    ensures a > 0 ==> s.precision * a as real == h as real
    ensures e > 0 ==> s.recall * e as real == h as real
  {}

  /** Missing pairs cost recall and no precision, extra pairs precision and no recall. */
  lemma MissingOrExtra(expected: set<Pair>, actual: set<Pair>)
    requires expected != {} && actual != {}
    ensures actual <= expected <==> F1Score(expected, actual).precision == 1.0
    ensures expected <= actual <==> F1Score(expected, actual).recall == 1.0
  {
    var both := expected * actual;
    SizeZero(expected);
    SizeZero(actual);
    SubsetSize(both, actual);
    SubsetSize(both, expected);
    assert actual <= expected <==> both == actual;
    assert expected <= actual <==> both == expected;
    RatioOne(|both|, |actual|);
    RatioOne(|both|, |expected|);
  }

  lemma RatioOne(h: nat, n: nat)
    requires n > 0
    ensures Ratio(h as real, n as real) == 1.0 <==> h == n
  {}
}
