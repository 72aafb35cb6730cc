/** The Python string operations the tools rely on: prefix and suffix tests,
    `find`, `rfind`, `replace(old, "", 1)`, `strip()`, `lower()`, `join` and
    `str(int)`. Strings are sequences of characters. */
module Text {
  import opened Common

  predicate StartsWith(s: string, prefix: string) {
    |prefix| <= |s| && s[..|prefix|] == prefix
  }

  predicate EndsWith(s: string, suffix: string) {
    |suffix| <= |s| && s[|s| - |suffix|..] == suffix
  }

  /** `pat` occurs in `s` starting at index `i`. */
  predicate OccursAt(s: string, pat: string, i: nat) {
    i + |pat| <= |s| && s[i..i + |pat|] == pat
  }

  /** Python's `pat in s`. */
  predicate Contains(s: string, pat: string) {
    exists i: nat :: i <= |s| && OccursAt(s, pat, i)
  }

  /** The first occurrence of `pat` at or after `from`. */
  function FindFrom(s: string, pat: string, from: nat): (r: Option<nat>)
    ensures r.Some? ==> from <= r.value && OccursAt(s, pat, r.value)
    ensures r.Some? ==> forall j: nat :: from <= j < r.value ==> !OccursAt(s, pat, j)
    ensures r.None? ==> forall j: nat :: from <= j ==> !OccursAt(s, pat, j)
    decreases |s| - from
  {
    if from + |pat| > |s| then None
    else if s[from..from + |pat|] == pat then Some(from)
    else FindFrom(s, pat, from + 1)
  }

  /** Python's `s.find(pat)`, with `None` for -1. */
  function Find(s: string, pat: string): (r: Option<nat>)
    ensures r.None? <==> !Contains(s, pat)
    ensures r.Some? ==> OccursAt(s, pat, r.value)
    ensures r.Some? ==> forall j: nat :: j < r.value ==> !OccursAt(s, pat, j)
  {
    FindFrom(s, pat, 0)
  }

  /** Python's `s.rfind(c)` for a one-character pattern, with `None` for -1. */
  function RFindChar(s: string, c: char): (r: Option<nat>)
    ensures r.Some? ==> r.value < |s| && s[r.value] == c
    ensures r.Some? ==> forall j :: r.value < j < |s| ==> s[j] != c
    ensures r.None? ==> forall j :: 0 <= j < |s| ==> s[j] != c
  {
    if |s| == 0 then None
    else if s[|s| - 1] == c then Some(|s| - 1)
    else RFindChar(s[..|s| - 1], c)
  }

  /** Python's `s.replace(pat, "", 1)`: the first occurrence of `pat` is cut out. */
  function RemoveFirst(s: string, pat: string): (r: string)
    ensures !Contains(s, pat) ==> r == s
    ensures Contains(s, pat) ==> |r| == |s| - |pat|
  {
    match Find(s, pat)
    case None => s
    case Some(i) => s[..i] + s[i + |pat|..]
  }

  /** Removing a pattern the string starts with removes exactly that prefix. */
  lemma RemoveFirstOfPrefix(s: string, pat: string)
    requires StartsWith(s, pat)
    ensures RemoveFirst(s, pat) == s[|pat|..]
  {
    assert OccursAt(s, pat, 0);
  }

  /** When the only occurrence of `pat` is the suffix, removing the first
      occurrence removes exactly that suffix. */
  lemma RemoveFirstOfSoleSuffix(s: string, pat: string)
    requires EndsWith(s, pat)
    requires forall j: nat :: j < |s| - |pat| ==> !OccursAt(s, pat, j)
    ensures RemoveFirst(s, pat) == s[..|s| - |pat|]
  {
    assert OccursAt(s, pat, |s| - |pat|);
  }

  /** When an earlier, non-overlapping occurrence exists, the suffix survives. */
  lemma RemoveFirstKeepsSuffix(s: string, pat: string, i: nat)
    requires EndsWith(s, pat) && OccursAt(s, pat, i) && i + |pat| <= |s| - |pat|
    ensures EndsWith(RemoveFirst(s, pat), pat)
  {
    var k := Find(s, pat).value;
    assert k <= i;
    var r := s[..k] + s[k + |pat|..];
    assert r[|r| - |pat|..] == s[|s| - |pat|..];
  }

  // ---------------------------------------------------------------- whitespace

  /** The characters Python's `str.isspace` accepts among ASCII:
      tab, line feed, vertical tab, form feed, carriage return,
      the four separators 0x1C..0x1F, and space. */
  predicate IsSpace(c: char) {
    (9 <= c as int <= 13) || (28 <= c as int <= 32)
  }

  predicate AllSpace(s: string) {
    forall i :: 0 <= i < |s| ==> IsSpace(s[i])
  }

  /** Python's `s.lstrip()`. */
  function LStrip(s: string): (r: string)
    ensures |r| <= |s| && r == s[|s| - |r|..]
    ensures AllSpace(s[..|s| - |r|])
    ensures |r| > 0 ==> !IsSpace(r[0])
  {
    if |s| > 0 && IsSpace(s[0]) then LStrip(s[1..]) else s
  }

  /** Python's `s.rstrip()`. */
  function RStrip(s: string): (r: string)
    ensures |r| <= |s| && r == s[..|r|]
    ensures AllSpace(s[|r|..])
    ensures |r| > 0 ==> !IsSpace(r[|r| - 1])
  {
    if |s| > 0 && IsSpace(s[|s| - 1]) then RStrip(s[..|s| - 1]) else s
  }

  /** Python's `s.strip()`: the longest infix with no whitespace at either end. */
  function Strip(s: string): (r: string)
    ensures |r| > 0 ==> !IsSpace(r[0]) && !IsSpace(r[|r| - 1])
    ensures |r| <= |s|
  {
    RStrip(LStrip(s))
  }

  /** Neither end of `s` is whitespace. */
  predicate IsStripped(s: string) {
    |s| > 0 ==> !IsSpace(s[0]) && !IsSpace(s[|s| - 1])
  }

  lemma {:induction false} LStripSpacePrefix(a: string, b: string)
    requires AllSpace(a)
    ensures LStrip(a + b) == LStrip(b)
  {
    if |a| > 0 {
      assert (a + b)[1..] == a[1..] + b;
      LStripSpacePrefix(a[1..], b);
    } else {
      assert a + b == b;
    }
  }

  lemma {:induction false} LStripKeepsTail(b: string, c: string)
    requires !AllSpace(b)
    ensures LStrip(b + c) == LStrip(b) + c
  {
    assert |b| > 0;
    if IsSpace(b[0]) {
      assert (b + c)[1..] == b[1..] + c;
      assert !AllSpace(b[1..]) by {
        var i :| 0 <= i < |b| && !IsSpace(b[i]);
        assert b[1..][i - 1] == b[i];
      }
      LStripKeepsTail(b[1..], c);
    }
  }

  lemma {:induction false} RStripSpaceSuffix(b: string, c: string)
    requires AllSpace(c)
    ensures RStrip(b + c) == RStrip(b)
  {
    if |c| > 0 {
      assert (b + c)[..|b + c| - 1] == b + c[..|c| - 1];
      RStripSpaceSuffix(b, c[..|c| - 1]);
    } else {
      assert b + c == b;
    }
  }

  lemma {:induction false} RStripKeepsHead(a: string, b: string)
    requires !AllSpace(b)
    ensures RStrip(a + b) == a + RStrip(b)
  {
    assert |b| > 0;
    if IsSpace(b[|b| - 1]) {
      assert (a + b)[..|a + b| - 1] == a + b[..|b| - 1];
      assert !AllSpace(b[..|b| - 1]) by {
        var i :| 0 <= i < |b| && !IsSpace(b[i]);
        assert b[..|b| - 1][i] == b[i];
      }
      RStripKeepsHead(a, b[..|b| - 1]);
    }
  }

  lemma StripAllSpace(s: string)
    requires AllSpace(s)
    ensures Strip(s) == ""
  {
  }

  /** Whitespace padding on either side never reaches the result of `strip`. */
  lemma StripPadded(a: string, b: string, c: string)
    requires AllSpace(a) && AllSpace(c)
    ensures Strip(a + b + c) == Strip(b)
  {
    assert a + b + c == a + (b + c);
    LStripSpacePrefix(a, b + c);
    if AllSpace(b) {
      assert AllSpace(b + c);
      StripAllSpace(b + c);
      StripAllSpace(b);
    } else {
      LStripKeepsTail(b, c);
      RStripSpaceSuffix(LStrip(b), c);
    }
  }

  /** A string with no whitespace at its ends is its own `strip`. */
  lemma StripOfStripped(s: string)
    requires IsStripped(s)
    ensures Strip(s) == s
  {
  }

  /** `strip` characterised: padding `b` with whitespace and stripping gives back `b`. */
  lemma StripInverse(a: string, b: string, c: string)
    requires AllSpace(a) && AllSpace(c) && IsStripped(b)
    ensures Strip(a + b + c) == b
  {
    StripPadded(a, b, c);
    StripOfStripped(b);
  }

  /** A suffix whose first and last characters are not whitespace survives `strip`. */
  lemma StripKeepsSuffix(x: string, suf: string)
    requires |suf| > 0 && !IsSpace(suf[0]) && !IsSpace(suf[|suf| - 1])
    ensures EndsWith(Strip(x + suf), suf)
  {
    var l := LStrip(x + suf);
    if AllSpace(x) {
      LStripSpacePrefix(x, suf);
      assert l == suf;
    } else {
      LStripKeepsTail(x, suf);
      assert l == LStrip(x) + suf;
    }
    assert |l| >= |suf| && l[|l| - 1] == suf[|suf| - 1];
    assert l[|l| - |suf|..] == suf;
    assert Strip(x + suf) == RStrip(l) == l;
  }

  /** The same, for a string already known to end with the suffix. */
  lemma StripKeepsEnding(u: string, suf: string)
    requires EndsWith(u, suf) && |suf| > 0 && !IsSpace(suf[0]) && !IsSpace(suf[|suf| - 1])
    ensures EndsWith(Strip(u), suf)
  {
    var x := u[..|u| - |suf|];
    assert x + suf == u;
    StripKeepsSuffix(x, suf);
  }

  /** An occurrence inside a slice is an occurrence in the whole string. */
  lemma OccursInSlice(s: string, k: nat, r: string, pat: string, j: nat)
    requires k + |r| <= |s| && r == s[k..k + |r|] && OccursAt(r, pat, j)
    ensures OccursAt(s, pat, k + j)
  {
    var a := s[k + j..k + j + |pat|];
    var b := r[j..j + |pat|];
    forall t | 0 <= t < |pat| ensures a[t] == b[t] {
      assert r[j + t] == s[k + j + t];
    }
    assert a == b;
  }

  /** What `strip` returns is a piece of its input, so it holds no pattern
      its input lacks. */
  lemma StripKeepsAbsence(s: string, pat: string)
    requires !Contains(s, pat)
    ensures !Contains(Strip(s), pat)
  {
    var r := Strip(s);
    var k := |s| - |LStrip(s)|;
    assert r == s[k..k + |r|];
    forall j: nat | j <= |r| ensures !OccursAt(r, pat, j) {
      if OccursAt(r, pat, j) {
        OccursInSlice(s, k, r, pat, j);
      }
    }
  }

  /** Stripping twice is stripping once. */
  lemma StripIdempotent(s: string)
    ensures Strip(Strip(s)) == Strip(s)
  {
    StripOfStripped(Strip(s));
  }

  // ------------------------------------------------------------- lower / join

  /** ASCII upper-case letters become lower-case; every other character is kept. */
  function LowerChar(c: char): char {
    if 'A' <= c <= 'Z' then (c as int + 32) as char else c
  }

  /** Python's `s.lower()` on ASCII letters. */
  function Lower(s: string): (r: string)
    ensures |r| == |s|
    ensures forall i :: 0 <= i < |s| ==> r[i] == LowerChar(s[i])
  {
    seq(|s|, i requires 0 <= i < |s| => LowerChar(s[i]))
  }

  /** Python's `sep.join(parts)`. */
  function Join(parts: seq<string>, sep: string): string {
    if |parts| == 0 then ""
    else if |parts| == 1 then parts[0]
    else parts[0] + sep + Join(parts[1..], sep)
  }

  /** Every part occurs in the joined text. */
  lemma {:induction false} JoinContainsPart(parts: seq<string>, sep: string, i: nat)
    requires i < |parts|
    ensures Contains(Join(parts, sep), parts[i])
  {
    if |parts| == 1 {
      assert OccursAt(Join(parts, sep), parts[0], 0);
    } else if i == 0 {
      assert OccursAt(parts[0] + sep + Join(parts[1..], sep), parts[0], 0);
    } else {
      JoinContainsPart(parts[1..], sep, i - 1);
      ContainsInTail(parts[0] + sep, Join(parts[1..], sep), parts[i]);
    }
  }

  /** An occurrence in `b` is an occurrence in `a + b`, `|a|` further on. */
  lemma ContainsInTail(a: string, b: string, pat: string)
    requires Contains(b, pat)
    ensures Contains(a + b, pat)
  {
    var k: nat :| k <= |b| && OccursAt(b, pat, k);
    assert (a + b)[|a| + k..|a| + k + |pat|] == b[k..k + |pat|];
    assert OccursAt(a + b, pat, |a| + k);
  }

  // ------------------------------------------------------------------ str(int)

  function DigitChar(d: nat): char
    requires d < 10
  {
    ('0' as int + d) as char
  }

  predicate IsDigit(c: char) {
    '0' <= c <= '9'
  }

  /** Decimal digits of a natural number, most significant first, no leading zero. */
  function NatToString(n: nat): (r: string)
    ensures |r| > 0 && forall i :: 0 <= i < |r| ==> IsDigit(r[i])
    decreases n
  {
    if n < 10 then [DigitChar(n)] else NatToString(n / 10) + [DigitChar(n % 10)]
  }

  /** Python's `str(n)` for an integer. */
  function IntToString(n: int): string {
    if n < 0 then "-" + NatToString(-n) else NatToString(n)
  }

  /** The value of a string of decimal digits: the inverse of `NatToString`. */
  function DigitsValue(s: string): nat {
    if |s| == 0 then 0
    else
      var d := s[|s| - 1] as int - '0' as int;
      DigitsValue(s[..|s| - 1]) * 10 + (if 0 <= d then d else 0)
  }

  lemma {:induction false} DigitsValueOfNatToString(n: nat)
    ensures DigitsValue(NatToString(n)) == n
    decreases n
  {
    if n >= 10 {
      var s := NatToString(n);
      assert s[..|s| - 1] == NatToString(n / 10);
      DigitsValueOfNatToString(n / 10);
    }
  }

  /** The printed form starts with a minus sign exactly for negative numbers. */
  lemma IntToStringSign(n: int)
    ensures |IntToString(n)| > 0
    ensures IntToString(n)[0] == '-' <==> n < 0
  {
    if n >= 0 {
      assert IsDigit(NatToString(n)[0]);
    }
  }

  /** Different integers print differently, so `str(width)` keys collide only
      for equal widths. */
  lemma IntToStringInjective(a: int, b: int)
    ensures IntToString(a) == IntToString(b) <==> a == b
  {
    if IntToString(a) == IntToString(b) {
      IntToStringSign(a);
      IntToStringSign(b);
      if a < 0 && b < 0 {
        assert NatToString(-a) == IntToString(a)[1..];
        assert NatToString(-b) == IntToString(b)[1..];
        DigitsValueOfNatToString(-a);
        DigitsValueOfNatToString(-b);
      } else if a >= 0 && b >= 0 {
        DigitsValueOfNatToString(a);
        DigitsValueOfNatToString(b);
      }
    }
  }
}
