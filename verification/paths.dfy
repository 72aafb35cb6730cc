/** Relative file-system paths as sequences of segments, with the parsing and
    printing that Python's `pathlib.Path` performs on them. */
module Paths {
  import opened Text

  type Path = seq<string>

  /** A segment `Path` keeps: non-empty, not ".", and free of '/'. */
  predicate ValidSegment(x: string) {
    x != "" && x != "." && '/' !in x
  }

  predicate ValidPath(p: Path) {
    forall i :: 0 <= i < |p| ==> ValidSegment(p[i])
  }

  /** The index of the first '/' of `s`, or `|s|` when there is none. */
  function SegmentEnd(s: string): (k: nat)
    ensures k <= |s|
    ensures k < |s| ==> s[k] == '/'
    ensures forall i :: 0 <= i < k ==> s[i] != '/'
  {
    if |s| == 0 || s[0] == '/' then 0 else 1 + SegmentEnd(s[1..])
  }

  /** `Path(s).parts` for a relative `s`: the text split at '/', with empty
      and "." segments dropped and ".." kept as written. */
  function Parse(s: string): (p: Path)
    ensures ValidPath(p)
    decreases |s|
  {
    if |s| == 0 then []
    else
      var k := SegmentEnd(s);
      var rest := if k < |s| then Parse(s[k + 1..]) else [];
      if s[..k] == "" || s[..k] == "." then rest else [s[..k]] + rest
  }

  /** `str(path)`: the segments joined by '/', and "." for the empty path. */
  function Render(p: Path): string {
    if |p| == 0 then "." else Join(p, "/")
  }

  /** `path.name`: the last segment, or "" for the empty path. */
  function Name(p: Path): string {
    if |p| == 0 then "" else p[|p| - 1]
  }

  /** `path.parent`: every segment but the last. */
  function Parent(p: Path): Path {
    if |p| == 0 then [] else p[..|p| - 1]
  }

  lemma SegmentEndOfJoin(x: string, rest: string)
    requires '/' !in x
    ensures SegmentEnd(x + "/" + rest) == |x|
  {
    var s := x + "/" + rest;
    assert s[|x|] == '/';
    assert forall i :: 0 <= i < |x| ==> s[i] == x[i];
  }

  lemma SegmentEndOfSegment(x: string)
    requires '/' !in x
    ensures SegmentEnd(x) == |x|
  {
  }

  lemma {:induction false} ParseJoin(p: Path)
    requires |p| > 0 && ValidPath(p)
    ensures Parse(Join(p, "/")) == p
  {
    if |p| == 1 {
      SegmentEndOfSegment(p[0]);
      assert p[0][..|p[0]|] == p[0];
    } else {
      var s := Join(p, "/");
      var tail := Join(p[1..], "/");
      assert s == p[0] + "/" + tail;
      SegmentEndOfJoin(p[0], tail);
      assert s[..|p[0]|] == p[0];
      assert s[|p[0]| + 1..] == tail;
      assert ValidPath(p[1..]) by {
        forall i | 0 <= i < |p[1..]| ensures ValidSegment(p[1..][i]) {
          assert p[1..][i] == p[i + 1];
        }
      }
      ParseJoin(p[1..]);
    }
  }

  /** Parsing what `str(path)` prints gives back the same segments. */
  lemma ParseRender(p: Path)
    requires ValidPath(p)
    ensures Parse(Render(p)) == p
  {
    if |p| == 0 {
      assert Render(p)[..SegmentEnd(Render(p))] == ".";
    } else {
      ParseJoin(p);
    }
  }

  /** A valid segment on its own parses to itself. */
  lemma ParseSegment(x: string)
    requires ValidSegment(x)
    ensures Parse(x) == [x]
  {
    ParseJoin([x]);
  }

  /** A text whose last '/'-free stretch is at least two characters long
      never parses to the empty path. */
  lemma {:induction false} ParseWithSuffix(a: string, t: string)
    requires '/' !in t && |t| >= 2
    ensures |Parse(a + t)| > 0
    decreases |a|
  {
    var s := a + t;
    var k := SegmentEnd(s);
    if k < |s| {
      assert forall j :: |a| <= j < |s| ==> s[j] == t[j - |a|];
      assert k < |a|;
      assert s[k + 1..] == a[k + 1..] + t;
      ParseWithSuffix(a[k + 1..], t);
    } else {
      assert |s[..k]| >= 2;
    }
  }

  /** Joining valid paths keeps them valid. */
  lemma ValidConcat(p: Path, q: Path)
    requires ValidPath(p) && ValidPath(q)
    ensures ValidPath(p + q)
  {
    forall i | 0 <= i < |p + q| ensures ValidSegment((p + q)[i]) {
      if i >= |p| {
        assert (p + q)[i] == q[i - |p|];
      }
    }
  }
}
