/**
 * Dotted paths (`util.Path`) and the string helpers the translation engine
 * applies to them. `util.PathFromString`, `Path.String` and `firstCharToLower`
 * are defined outside translateValue.go and not modelled from their code;
 * they are written here as istio's operator writes them: a path string is split at '.', empty segments are
 * dropped, and a path is printed by joining its segments with '.'.
 */
module Paths {

  type Path = seq<string>

  const Separator: char := '.'

  /** A segment that survives a print/parse round trip: non-empty, no separator. */
  predicate CleanSegment(s: string) {
    s != [] && Separator !in s
  }

  predicate CleanPath(p: Path) {
    forall i :: 0 <= i < |p| ==> CleanSegment(p[i])
  }

  /** `Path.String()`: the segments joined with '.'. */
  function Join(p: Path): string
  {
    if p == [] then ""
    else if |p| == 1 then p[0]
    else p[0] + [Separator] + Join(p[1..])
  }

  /** Length of the segment that starts at the head of `s`. */
  function SegmentLength(s: string): (n: nat)
    ensures n <= |s|
    ensures forall i :: 0 <= i < n ==> s[i] != Separator
    ensures n < |s| ==> s[n] == Separator
  {
    if s == [] || s[0] == Separator then 0 else 1 + SegmentLength(s[1..])
  }

  /** `util.PathFromString`: split at '.', dropping empty segments. */
  function PathFromString(s: string): (p: Path)
    ensures CleanPath(p)
    decreases |s|
  {
    if s == [] then []
    else if s[0] == Separator then PathFromString(s[1..])
    else
      var n := SegmentLength(s);
      [s[..n]] + PathFromString(s[n..])
  }

  /** Splitting a string made of two parts around a separator splits each part. */
  lemma {:induction false} PathFromStringAround(a: string, b: string)
    ensures PathFromString(a + [Separator] + b) == PathFromString(a) + PathFromString(b)
    decreases |a|
  {
    var s := a + [Separator] + b;
    if a == [] {
      assert s[1..] == b;
    } else if a[0] == Separator {
      assert s[1..] == a[1..] + [Separator] + b;
      PathFromStringAround(a[1..], b);
    } else {
      var n := SegmentLength(a);
      SegmentLengthAround(a, b);
      assert s[..n] == a[..n];
      assert s[n..] == a[n..] + [Separator] + b;
      PathFromStringAround(a[n..], b);
    }
  }

  lemma {:induction false} SegmentLengthAround(a: string, b: string)
    ensures SegmentLength(a + [Separator] + b) == SegmentLength(a)
    decreases |a|
  {
    if a != [] && a[0] != Separator {
      assert (a + [Separator] + b)[1..] == a[1..] + [Separator] + b;
      SegmentLengthAround(a[1..], b);
    }
  }

  lemma {:induction false} SegmentLengthClean(s: string)
    requires Separator !in s
    ensures SegmentLength(s) == |s|
    decreases |s|
  {
    if s != [] {
      SegmentLengthClean(s[1..]);
    }
  }

  /** Parsing a printed clean path gives the path back. */
  lemma {:induction false} PathFromJoin(p: Path)
    requires CleanPath(p)
    ensures PathFromString(Join(p)) == p
    decreases |p|
  {
    if |p| == 1 {
      SegmentLengthClean(p[0]);
      assert p[0][..|p[0]|] == p[0];
    } else if |p| > 1 {
      PathFromStringAround(p[0], Join(p[1..]));
      SegmentLengthClean(p[0]);
      assert p[0][..|p[0]|] == p[0];
      PathFromJoin(p[1..]);
      assert PathFromString(p[0]) == [p[0]] + PathFromString(p[0][|p[0]|..]);
      assert p[0][|p[0]|..] == [];
    }
  }

  /** ASCII lower-casing of one character; every other character is unchanged. */
  function ToLower(c: char): (r: char)
    ensures 'A' <= c <= 'Z' ==> 'a' <= r <= 'z'
    ensures !('A' <= c <= 'Z') ==> r == c
  {
    if 'A' <= c <= 'Z' then (c as int + 32) as char else c
  }

  /** `firstCharToLower`: lower-case the first character and keep the rest. */
  function FirstCharToLower(s: string): (r: string)
    ensures |r| == |s|
    ensures s != [] ==> r[0] == ToLower(s[0]) && r[1..] == s[1..]
  {
    if s == [] then s else [ToLower(s[0])] + s[1..]
  }

  /** Every segment of a path passed through `firstCharToLower`. */
  function LowerSegments(p: Path): (r: Path)
    ensures |r| == |p|
    ensures forall i :: 0 <= i < |p| ==> r[i] == FirstCharToLower(p[i])
  {
    if p == [] then [] else [FirstCharToLower(p[0])] + LowerSegments(p[1..])
  }

  /** Lowering the first character keeps a clean segment clean, and doing it twice changes nothing more. */
  lemma FirstCharToLowerClean(s: string)
    requires CleanSegment(s)
    ensures CleanSegment(FirstCharToLower(s))
    ensures FirstCharToLower(FirstCharToLower(s)) == FirstCharToLower(s)
  {
    var r := FirstCharToLower(s);
    assert r[0] != Separator;
    assert forall i :: 1 <= i < |r| ==> r[i] == s[i];
  }

  /**
   * The destination path `defaultValueTranslationFunc` builds keeps every
   * segment non-empty and free of '.', lowering it again changes nothing, and
   * printing it and splitting it again gives it back.
   */
  lemma LowerSegmentsClean(p: Path)
    requires CleanPath(p)
    ensures CleanPath(LowerSegments(p))
    ensures LowerSegments(LowerSegments(p)) == LowerSegments(p)
    ensures PathFromString(Join(LowerSegments(p))) == LowerSegments(p)
  {
    var q := LowerSegments(p);
    forall i | 0 <= i < |q|
      ensures CleanSegment(q[i]) && FirstCharToLower(q[i]) == q[i]
    {
      FirstCharToLowerClean(p[i]);
    }
    PathFromJoin(q);
  }
}
