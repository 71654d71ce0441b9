/** Splitting a string on a one-character separator, with the semantics of
    JavaScript's `String.prototype.split` when given a non-empty separator
    and no limit: every occurrence cuts, empty segments are kept, and a
    string without the separator (the empty string included) is one segment. */
module Strings {
  import opened Wrappers

  /** Position of the first occurrence of `c` in `s`, or None when there is none. */
  function IndexOf(s: string, c: char): (r: Option<nat>)
    ensures r.None? <==> c !in s
    ensures r.Some? ==> r.value < |s| && s[r.value] == c && c !in s[..r.value]
    decreases |s|
  {
    if |s| == 0 then None
    else if s[0] == c then Some(0)
    else match IndexOf(s[1..], c)
      case None => None
      case Some(i) =>
        assert s[..i + 1] == [s[0]] + s[1..][..i];
        Some(i + 1)
  }

  /** Concatenates the segments with `sep` between neighbours; the inverse of Split. */
  function Join(parts: seq<string>, sep: char): string
    requires |parts| > 0
    decreases |parts|
  {
    if |parts| == 1 then parts[0] else parts[0] + [sep] + Join(parts[1..], sep)
  }

  /** True when no segment contains the separator. */
  predicate Separated(parts: seq<string>, sep: char) {
    forall i :: 0 <= i < |parts| ==> sep !in parts[i]
  }

  /** The segments of `s` between occurrences of `sep`. */
  function Split(s: string, sep: char): (parts: seq<string>)
    ensures |parts| > 0
    ensures Separated(parts, sep)
    ensures Join(parts, sep) == s
    decreases |s|
  {
    match IndexOf(s, sep)
    case None => [s]
    case Some(i) =>
      var rest := Split(s[i + 1..], sep);
      var parts := [s[..i]] + rest;
      assert parts[1..] == rest;
      assert s == s[..i] + [sep] + s[i + 1..];
      parts
  }

  /** The first occurrence of `sep` in `a + [sep] + b` is the one after `a`
      when `a` does not contain it. */
  lemma IndexOfAfterPrefix(a: string, sep: char, b: string)
    requires sep !in a
    ensures IndexOf(a + [sep] + b, sep) == Some(|a|)
  {
    var s := a + [sep] + b;
    assert s[|a|] == sep;
    assert s[..|a|] == a;
  }

  /** Splitting a join of separator-free segments gives the segments back. */
  lemma {:induction false} SplitJoin(parts: seq<string>, sep: char)
    requires |parts| > 0
    requires Separated(parts, sep)
    ensures Split(Join(parts, sep), sep) == parts
    decreases |parts|
  {
    if |parts| == 1 {
      assert sep !in parts[0];
    } else {
      var tail := Join(parts[1..], sep);
      var s := parts[0] + [sep] + tail;
      IndexOfAfterPrefix(parts[0], sep, tail);
      assert s[..|parts[0]|] == parts[0];
      assert s[|parts[0]| + 1..] == tail;
      SplitJoin(parts[1..], sep);
      assert [parts[0]] + parts[1..] == parts;
    }
  }

  /** `n` is the position of the first `sep` in `t`, or `|t|` when there is none:
      the end of the first segment of `t`. */
  predicate SegmentEnd(t: string, sep: char, n: nat) {
    && n <= |t|
    && (forall k :: 0 <= k < n ==> t[k] != sep)
    && (n == |t| || t[n] == sep)
  }

  /** A string has only one first-segment end. */
  lemma SegmentEndUnique(t: string, sep: char, m: nat, n: nat)
    requires SegmentEnd(t, sep, m) && SegmentEnd(t, sep, n)
    ensures m == n
  {
  }

  /** The first segment is the separator-free text before the first separator:
      `s` is that segment followed by nothing or by a separator. */
  lemma FirstSegment(s: string, sep: char)
    ensures var p := Split(s, sep);
      && |p[0]| <= |s| && s[..|p[0]|] == p[0] && sep !in p[0]
      && (|p| == 1 <==> |p[0]| == |s|)
      && (|p| > 1 ==> s[|p[0]|] == sep)
  {
    var p := Split(s, sep);
    if |p| > 1 {
      assert s == p[0] + [sep] + Join(p[1..], sep);
    }
  }

  /** A join of two or more segments starts with the first segment, the
      separator and the second segment, then ends or continues with the
      separator. */
  lemma JoinSecond(parts: seq<string>, sep: char)
    requires |parts| > 1
    ensures var s := Join(parts, sep);
      var k := |parts[0]| + 1 + |parts[1]|;
      && k <= |s| && s[..k] == parts[0] + [sep] + parts[1]
      && (|parts| == 2 <==> k == |s|)
      && (|parts| > 2 ==> s[k] == sep)
  {
    var head := parts[0] + [sep] + parts[1];
    if |parts| == 2 {
      assert Join(parts[1..], sep) == parts[1];
    } else {
      var tail := Join(parts[2..], sep);
      assert parts[1..][1..] == parts[2..];
      assert Join(parts, sep) == head + [sep] + tail;
    }
  }

  /** When there are at least two segments, `s` starts with the first
      segment, a separator and the second segment, after which it either
      ends or continues with another separator. */
  lemma SecondSegment(s: string, sep: char)
    requires |Split(s, sep)| > 1
    ensures var p := Split(s, sep);
      var k := |p[0]| + 1 + |p[1]|;
      && k <= |s| && s[..k] == p[0] + [sep] + p[1]
      && (|p| == 2 <==> k == |s|)
      && (|p| > 2 ==> s[k] == sep)
  {
    JoinSecond(Split(s, sep), sep);
  }

  /** `s` starts with its first segment, a separator and `w`, followed by
      the end of `s` or another separator. */
  predicate SecondSegmentText(s: string, sep: char, w: string) {
    var h := Split(s, sep)[0] + [sep] + w;
    |h| <= |s| && s[..|h|] == h && (|h| == |s| || s[|h|] == sep)
  }

  /** After a common prefix `a`, two separator-free texts that each run to
      the end of `s` or to a separator are the same text. */
  lemma SegmentAfterPrefixUnique(s: string, sep: char, a: string, x: string, y: string)
    requires sep !in x && sep !in y
    requires |a| + |x| <= |s| && s[..|a| + |x|] == a + x && (|a| + |x| == |s| || s[|a| + |x|] == sep)
    requires |a| + |y| <= |s| && s[..|a| + |y|] == a + y && (|a| + |y| == |s| || s[|a| + |y|] == sep)
    ensures x == y
  {
    var u := s[|a|..];
    assert u[..|x|] == (a + x)[|a|..] == x;
    assert u[..|y|] == (a + y)[|a|..] == y;
    assert SegmentEnd(u, sep, |x|);
    assert SegmentEnd(u, sep, |y|);
    SegmentEndUnique(u, sep, |x|, |y|);
  }

  /** The text after the first segment's separator, when it runs to the end or a separator, is the second segment. */
  lemma SecondSegmentFromText(s: string, sep: char, w: string)
    requires sep !in w
    requires SecondSegmentText(s, sep, w)
    ensures |Split(s, sep)| > 1 && Split(s, sep)[1] == w
  {
    var p := Split(s, sep);
    FirstSegment(s, sep);
    SecondSegment(s, sep);
    assert sep !in p[1];
    SegmentAfterPrefixUnique(s, sep, p[0] + [sep], p[1], w);
  }

  /** The second segment follows the first segment's separator and runs to the end or a separator. */
  lemma SecondSegmentToText(s: string, sep: char, w: string)
    requires |Split(s, sep)| > 1 && Split(s, sep)[1] == w
    ensures SecondSegmentText(s, sep, w)
  {
    SecondSegment(s, sep);
  }

  /** `w` is the second segment of `s` exactly when `s` starts with the first
      segment, a separator and `w`, followed by the end or another separator. */
  lemma SecondSegmentIs(s: string, sep: char, w: string)
    requires sep !in w
    ensures (|Split(s, sep)| > 1 && Split(s, sep)[1] == w) <==> SecondSegmentText(s, sep, w)
  {
    if SecondSegmentText(s, sep, w) {
      SecondSegmentFromText(s, sep, w);
    }
    if |Split(s, sep)| > 1 && Split(s, sep)[1] == w {
      SecondSegmentToText(s, sep, w);
    }
  }
}
