/** Whitespace, `str.strip()` and the negative slice `s[-k:]`, over a fixed
    whitespace set. */
module Strings {

  /** Six ASCII whitespace characters, recognised both by `str.strip()` and
      by the regular-expression class `\s`; those two also treat U+001C to
      U+001F and non-ASCII whitespace as whitespace, which this predicate
      leaves out. */
  predicate IsSpace(c: char) {
    c == ' ' || c == '\t' || c == '\n' || c == '\r' || c == '\U{000B}' || c == '\U{000C}'
  }

  /** Every character of `s` is whitespace (the empty string included). */
  predicate Blank(s: string) {
    forall i :: 0 <= i < |s| ==> IsSpace(s[i])
  }

  /** Neither the first nor the last character is whitespace. */
  predicate IsStripped(s: string) {
    |s| > 0 ==> !IsSpace(s[0]) && !IsSpace(s[|s| - 1])
  }

  predicate IsPrefix(p: string, s: string) {
    |p| <= |s| && s[..|p|] == p
  }

  predicate IsSuffix(p: string, s: string) {
    |p| <= |s| && s[|s| - |p|..] == p
  }

  /** The first position at or after `i` that holds no whitespace, or `|s|`. */
  function SkipSpaces(s: string, i: nat): (k: nat)
    requires i <= |s|
    ensures i <= k <= |s|
    ensures forall j :: i <= j < k ==> IsSpace(s[j])
    ensures k < |s| ==> !IsSpace(s[k])
    decreases |s| - i
  {
    if i < |s| && IsSpace(s[i]) then SkipSpaces(s, i + 1) else i
  }

  /** Where `s[..i]` ends once its trailing whitespace is dropped. */
  function TrailEnd(s: string, i: nat): (k: nat)
    requires i <= |s|
    ensures k <= i
    ensures forall j :: k <= j < i ==> IsSpace(s[j])
    ensures 0 < k ==> !IsSpace(s[k - 1])
    decreases i
  {
    if 0 < i && IsSpace(s[i - 1]) then TrailEnd(s, i - 1) else i
  }

  /** `s.strip()`: the part of `s` from its first to its last
      non-whitespace character; it has no whitespace at either end and is
      empty exactly when `s` is blank. */
  function Strip(s: string): (r: string)
    ensures |r| <= |s|
    ensures IsStripped(r)
    ensures r == [] <==> Blank(s)
  {
    var lo := SkipSpaces(s, 0);
    if lo == |s| then []
    else
      TrailEndAfter(s, |s|, lo);
      s[lo..TrailEnd(s, |s|)]
  }

  /** `s[-k:]` for `k > 0`: the last `k` characters, or all of `s` when it is
      shorter. */
  function LastChars(s: string, k: nat): (r: string)
    requires k > 0
    ensures IsSuffix(r, s)
    ensures |r| == if k < |s| then k else |s|
  {
    if k >= |s| then s else s[|s| - k..]
  }

  /** `SkipSpaces` is determined by its contract. */
  lemma SkipSpacesAt(s: string, i: nat, k: nat)
    requires i <= k <= |s|
    requires forall j :: i <= j < k ==> IsSpace(s[j])
    requires k < |s| ==> !IsSpace(s[k])
    ensures SkipSpaces(s, i) == k
  {
  }

  /** `TrailEnd` is determined by its contract. */
  lemma TrailEndAt(s: string, i: nat, k: nat)
    requires k <= i <= |s|
    requires forall j :: k <= j < i ==> IsSpace(s[j])
    requires 0 < k ==> !IsSpace(s[k - 1])
    ensures TrailEnd(s, i) == k
  {
  }

  /** A non-whitespace character at `k` stops the scan from `i` there or
      earlier. */
  lemma SkipSpacesBefore(s: string, i: nat, k: nat)
    requires i <= k < |s| && !IsSpace(s[k])
    ensures SkipSpaces(s, i) <= k
  {
  }

  /** A non-whitespace character at `k` survives the trailing trim of
      `s[..i]`. */
  lemma TrailEndAfter(s: string, i: nat, k: nat)
    requires k < i <= |s| && !IsSpace(s[k])
    ensures k < TrailEnd(s, i)
  {
  }

  /** `Strip` removes exactly the leading and the trailing whitespace run:
      what it returns sits in `s` after a blank prefix and before a blank
      suffix. */
  lemma StripDropsOnlyWhitespace(s: string)
    ensures var lo, r := SkipSpaces(s, 0), Strip(s);
            lo + |r| <= |s| && s[lo..lo + |r|] == r
            && Blank(s[..lo]) && Blank(s[lo + |r|..])
  {
    var lo, r := SkipSpaces(s, 0), Strip(s);
    assert forall j :: 0 <= j < lo ==> s[..lo][j] == s[j];
    if lo < |s| {
      var hi := TrailEnd(s, |s|);
      assert lo + |r| == hi;
      assert forall j :: 0 <= j < |s| - hi ==> s[hi..][j] == s[hi + j];
    }
  }

  /** A string ending in whitespace loses at least that character to `Strip`. */
  lemma StripDropsTrailingSpace(s: string)
    requires s != [] && IsSpace(s[|s| - 1])
    ensures |Strip(s)| < |s|
  {
    var lo := SkipSpaces(s, 0);
    if lo < |s| {
      assert TrailEnd(s, |s|) < |s|;
    }
  }

  /** Concatenating anything in front of a string that is not blank moves
      its trailing trim point along and can only move its first
      non-whitespace character earlier. */
  lemma ConcatEnds(u: string, t: string)
    requires !Blank(t)
    ensures SkipSpaces(t, 0) < TrailEnd(t, |t|)
    ensures !Blank(u + t)
    ensures TrailEnd(u + t, |u + t|) == |u| + TrailEnd(t, |t|)
    ensures SkipSpaces(u + t, 0) <= |u| + SkipSpaces(t, 0)
  {
    var x := u + t;
    var lo, hi := SkipSpaces(t, 0), TrailEnd(t, |t|);
    TrailEndAfter(t, |t|, lo);
    assert x[|u| + lo] == t[lo];
    SkipSpacesBefore(x, 0, |u| + lo);
    forall j | |u| + hi <= j < |x|
      ensures IsSpace(x[j])
    {
      assert x[j] == t[j - |u|];
    }
    assert x[|u| + hi - 1] == t[hi - 1];
    TrailEndAt(x, |x|, |u| + hi);
  }

  /** Concatenating anything after a string that is not blank keeps its
      first non-whitespace character and can only move its trailing trim
      point later. */
  lemma ConcatStarts(t: string, r: string)
    requires !Blank(t)
    ensures SkipSpaces(t, 0) < TrailEnd(t, |t|)
    ensures !Blank(t + r)
    ensures SkipSpaces(t + r, 0) == SkipSpaces(t, 0)
    ensures TrailEnd(t, |t|) <= TrailEnd(t + r, |t + r|)
  {
    var x := t + r;
    var lo, hi := SkipSpaces(t, 0), TrailEnd(t, |t|);
    TrailEndAfter(t, |t|, lo);
    assert x[lo] == t[lo];
    forall j | 0 <= j < lo
      ensures IsSpace(x[j])
    {
      assert x[j] == t[j];
    }
    SkipSpacesAt(x, 0, lo);
    assert x[hi - 1] == t[hi - 1];
    TrailEndAfter(x, |x|, hi - 1);
  }

  /** `t[lo..hi]` ends a slice of `u + t` that ends where it does. */
  lemma SuffixOfSlices(u: string, t: string, lo': nat, lo: nat, hi: nat)
    requires lo' <= |u| + lo && lo <= hi <= |t|
    ensures IsSuffix(t[lo..hi], (u + t)[lo'..|u| + hi])
  {
    var a, b := t[lo..hi], (u + t)[lo'..|u| + hi];
    var d := |b| - |a|;
    forall i | 0 <= i < |a|
      ensures b[d + i] == a[i]
    {
      assert b[d + i] == (u + t)[|u| + lo + i];
    }
    assert b[d..] == a;
  }

  /** `t[lo..hi]` starts a slice of `t + r` that starts where it does. */
  lemma PrefixOfSlices(t: string, r: string, lo: nat, hi: nat, hi': nat)
    requires lo <= hi <= |t| && hi <= hi' <= |t + r|
    ensures IsPrefix(t[lo..hi], (t + r)[lo..hi'])
  {
    var a, b := t[lo..hi], (t + r)[lo..hi'];
    forall i | 0 <= i < |a|
      ensures b[i] == a[i]
    {
      assert b[i] == (t + r)[lo + i];
    }
    assert b[..|a|] == a;
  }

  /** Stripping the tail `t` of a string `u + t` yields a suffix of the
      stripped whole. */
  lemma SharedSuffix(u: string, t: string)
    ensures IsSuffix(Strip(t), Strip(u + t))
  {
    if !Blank(t) {
      var x := u + t;
      ConcatEnds(u, t);
      var lo', lo, hi := SkipSpaces(x, 0), SkipSpaces(t, 0), TrailEnd(t, |t|);
      assert Strip(t) == t[lo..hi];
      assert Strip(x) == x[lo'..|u| + hi];
      SuffixOfSlices(u, t, lo', lo, hi);
    }
  }

  /** Stripping the head `t` of a string `t + r` yields a prefix of the
      stripped whole. */
  lemma SharedPrefix(t: string, r: string)
    ensures IsPrefix(Strip(t), Strip(t + r))
  {
    if !Blank(t) {
      ConcatStarts(t, r);
      PrefixOfSlices(t, r, SkipSpaces(t, 0), TrailEnd(t, |t|), TrailEnd(t + r, |t + r|));
    }
  }
}
