/**
 Byte content of a session log and its newline-separated segments.

 `Segments` is the naive reading of a file: the lines that a newline has closed,
 followed by the unfinished tail (empty when the file ends in a newline).
 */
module SessionLines {
  import opened Common

  const NEWLINE: Byte := 10

  function Segments(s: Bytes): (r: seq<Bytes>)
    ensures |r| > 0
  {
    if s == [] then [[]]
    else
      var before := Segments(s[..|s| - 1]);
      var c := s[|s| - 1];
      if c == NEWLINE then before + [[]]
      else before[..|before| - 1] + [before[|before| - 1] + [c]]
  }

  function Complete(s: Bytes): seq<Bytes> { Segments(s)[..|Segments(s)| - 1] }

  function Tail(s: Bytes): Bytes { Segments(s)[|Segments(s)| - 1] }

  function Join(segments: seq<Bytes>): Bytes
    requires |segments| > 0
  {
    if |segments| == 1 then segments[0]
    else Join(segments[..|segments| - 1]) + [NEWLINE] + segments[|segments| - 1]
  }

  lemma JoinSnoc(front: seq<Bytes>, last: Bytes)
    requires |front| > 0
    ensures Join(front + [last]) == Join(front) + [NEWLINE] + last
  {
    assert (front + [last])[..|front|] == front;
  }

  lemma JoinLengthensTail(front: seq<Bytes>, last: Bytes, more: Bytes)
    ensures Join(front + [last + more]) == Join(front + [last]) + more
  {}

  /** `Segments` is the split: it joins back to the content ... */
  lemma {:induction false} SegmentsJoin(s: Bytes)
    ensures Join(Segments(s)) == s
  {
    if s != [] {
      var front, c := s[..|s| - 1], s[|s| - 1];
      SegmentsJoin(front);
      assert s == front + [c];
      assert Segments(front) == Complete(front) + [Tail(front)];
      if c == NEWLINE {
        JoinSnoc(Segments(front), []);
      } else {
        JoinLengthensTail(Complete(front), Tail(front), [c]);
      }
    }
  }

  /** ... and no segment contains a newline. */
  lemma {:induction false} SegmentsPlain(s: Bytes)
    ensures forall i :: 0 <= i < |Segments(s)| ==> NEWLINE !in Segments(s)[i]
  {
    if s != [] {
      SegmentsPlain(s[..|s| - 1]);
    }
  }

  /** It is the only such list. */
  lemma {:induction false} SplitUnique(segments: seq<Bytes>)
    requires |segments| > 0
    requires forall i :: 0 <= i < |segments| ==> NEWLINE !in segments[i]
    ensures Segments(Join(segments)) == segments
  {
    var n := |segments| - 1;
    if n == 0 {
      SegmentsOfPlain(segments[0]);
      assert segments == [segments[0]];
    } else {
      SplitUnique(segments[..n]);
      SegmentsAfterNewline(Join(segments[..n]), segments[n]);
      assert segments == segments[..n] + [segments[n]];
    }
  }

  lemma SegmentsOfPlain(t: Bytes)
    requires NEWLINE !in t
    ensures Segments(t) == [t]
  {
    AppendPlain([], t);
    assert [] + t == t;
  }

  lemma SegmentsAfterNewline(s: Bytes, t: Bytes)
    requires NEWLINE !in t
    ensures Segments(s + [NEWLINE] + t) == Segments(s) + [t]
  {
    AppendNewline(s);
    AppendPlain(s + [NEWLINE], t);
    assert [] + t == t;
  }

  lemma AppendNewline(s: Bytes)
    ensures Segments(s + [NEWLINE]) == Segments(s) + [[]]
    ensures Complete(s + [NEWLINE]) == Complete(s) + [Tail(s)]
    ensures Tail(s + [NEWLINE]) == []
  {}

  lemma SegmentsSnoc(s: Bytes, c: Byte)
    ensures Segments(s + [c]) == if c == NEWLINE then Segments(s) + [[]] else Complete(s) + [Tail(s) + [c]]
  {
    Drop(s, [c]);
  }

  /** Bytes without a newline only lengthen the tail. */
  lemma {:induction false} AppendPlain(s: Bytes, t: Bytes)
    requires NEWLINE !in t
    ensures Segments(s + t) == Complete(s) + [Tail(s) + t]
    ensures Complete(s + t) == Complete(s) && Tail(s + t) == Tail(s) + t
  {
    if t == [] {
      EmptyConcat(s);
      EmptyConcat(Tail(s));
    } else {
      var front, c := t[..|t| - 1], t[|t| - 1];
      assert t == front + [c];
      AppendPlain(s, front);
      Assoc(s, front, [c]);
      SegmentsSnoc(s + front, c);
      Assoc(Tail(s), front, [c]);
    }
  }
}
