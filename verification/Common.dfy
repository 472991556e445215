/** Small definitions shared by the other modules. */
module Common {
  datatype Option<+T> = None | Some(value: T)

  newtype Byte = b: int | 0 <= b < 256

  type Bytes = seq<Byte>

  /** The distinct elements of a sequence in the order of their first occurrence. */
  function Distinct<T(==,!new)>(s: seq<T>): (r: seq<T>)
    ensures forall x :: x in r <==> x in s
    ensures forall i, j :: 0 <= i < j < |r| ==> r[i] != r[j]
    ensures |r| <= |s|
  {
    if s == [] then []
    else
      var before := Distinct(s[..|s| - 1]);
      var last := s[|s| - 1];
      assert s == s[..|s| - 1] + [last];
      if last in before then before else before + [last]
  }

  // Facts about concatenation, as lemmas so that proofs can cite exactly the one they need.

  lemma Assoc<T>(a: seq<T>, b: seq<T>, c: seq<T>)
    ensures (a + b) + c == a + (b + c)
  {}

  lemma HeadTail<T>(s: seq<T>)
    requires s != []
    ensures [s[0]] + s[1..] == s
  {}

  lemma FrontLast<T>(s: seq<T>)
    requires s != []
    ensures s[..|s| - 1] + [s[|s| - 1]] == s
  {}

  lemma Drop<T>(a: seq<T>, b: seq<T>)
    ensures (a + b)[|a|..] == b && (a + b)[..|a|] == a
  {}

  lemma EmptyConcat<T>(a: seq<T>)
    ensures a + [] == a == [] + a
  {}

  /** `b"".join(parts)`, `Buffer.concat(parts)`, `"".join(parts)`. */
  function Flatten<T>(parts: seq<seq<T>>): seq<T> {
    if parts == [] then [] else Flatten(parts[..|parts| - 1]) + parts[|parts| - 1]
  }

  lemma FlattenSnoc<T>(parts: seq<seq<T>>, part: seq<T>)
    ensures Flatten(parts + [part]) == Flatten(parts) + part
  {
    assert (parts + [part])[..|parts|] == parts;
  }

  // Sizes and ratios.

  lemma SizeZero<T>(s: set<T>)
    ensures |s| == 0 <==> s == {}
  {}

  lemma {:induction false} SubsetSize<T>(a: set<T>, b: set<T>)
    requires a <= b
    ensures |a| <= |b| && (|a| == |b| <==> a == b)
  {
    if a != {} {
      var x :| x in a;
      SubsetSize(a - {x}, b - {x});
    } else {
      SizeZero(b);
    }
  }

  /** `ratio`: zero where there is nothing to divide by. */
  function Ratio(numerator: real, denominator: real): real {
    if denominator != 0.0 then numerator / denominator else 0.0
  }

  // Filtering, without the filter.

  /** The positions of the elements to keep, in order. */
  ghost predicate Picks<T>(at: seq<int>, s: seq<T>, keep: T -> bool) {
    && (forall k :: 0 <= k < |at| ==> 0 <= at[k] < |s| && keep(s[at[k]]))
    && (forall k, l :: 0 <= k < l < |at| ==> at[k] < at[l])
    && (forall i :: 0 <= i < |s| && keep(s[i]) ==> i in at)
  }

  lemma PicksSnoc<T>(at: seq<int>, s: seq<T>, keep: T -> bool, x: T) returns (more: seq<int>)
    requires Picks(at, s, keep)
    ensures more == (if keep(x) then at + [|s|] else at) && Picks(more, s + [x], keep)
  {
    more := if keep(x) then at + [|s|] else at;
    var longer := s + [x];
    forall k | 0 <= k < |more| ensures 0 <= more[k] < |longer| && keep(longer[more[k]]) {
      if k < |at| { assert more[k] == at[k] && longer[at[k]] == s[at[k]]; }
    }
    forall i | 0 <= i < |longer| && keep(longer[i]) ensures i in more {
      if i < |s| {
        assert longer[i] == s[i] && i in at;
        Member(at, more, i);
      } else {
        assert more[|at|] == i;
      }
    }
  }

  lemma Member(at: seq<int>, more: seq<int>, i: int)
    requires at <= more && i in at
    ensures i in more
  {
    var k :| 0 <= k < |at| && at[k] == i;
    assert more[k] == i;
  }

  /** What is left of a sequence: the elements to keep, each in its place. */
  ghost predicate Kept<T>(out: seq<T>, at: seq<int>, s: seq<T>, keep: T -> bool) {
    && Picks(at, s, keep)
    && |out| == |at| && forall k :: 0 <= k < |at| ==> out[k] == s[at[k]]
  }

  lemma KeptSnoc<T>(out: seq<T>, at: seq<int>, front: seq<T>, keep: T -> bool, x: T, s: seq<T>)
    returns (more: seq<int>)
    requires Kept(out, at, front, keep) && s == front + [x]
    ensures Kept(if keep(x) then out + [x] else out, more, s, keep)
  {
    more := PicksSnoc(at, front, keep, x);
  }

  // Characters by code.

  /** The codes of `[A-Za-z0-9_-]`. */
  predicate WordCode(n: int) { 48 <= n <= 57 || 65 <= n <= 90 || 97 <= n <= 122 || n == 95 || n == 45 }
}
