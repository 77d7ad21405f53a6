/** The sentence split of the chunker: `re.split(r'(?<=[.!?])\s+', text)`,
    written as a function on characters with a fixed whitespace set. */
module Sentences {
  import opened Strings

  /** The characters that end a sentence. */
  predicate IsTerminal(c: char) {
    c == '.' || c == '!' || c == '?'
  }

  /** Position `i` starts a whitespace run that follows a sentence ending,
      i.e. a place where the pattern matches. */
  predicate IsBreak(s: string, i: int) {
    0 < i < |s| && IsTerminal(s[i - 1]) && IsSpace(s[i])
  }

  /** The first match position at or after `i`, or `|s|` when there is none. */
  function NextBreak(s: string, i: nat): (b: nat)
    requires i <= |s|
    ensures i <= b <= |s|
    ensures b < |s| ==> IsBreak(s, b)
    ensures forall k :: i <= k < b ==> !IsBreak(s, k)
    decreases |s| - i
  {
    if i == |s| then |s|
    else if IsBreak(s, i) then i
    else NextBreak(s, i + 1)
  }

  /** The end of the whitespace run starting at `i` (`\s+` is greedy). */
  function RunEnd(s: string, i: nat): (e: nat)
    requires i <= |s|
    ensures i <= e <= |s|
    ensures Blank(s[i..e])
    ensures e < |s| ==> !IsSpace(s[e])
    ensures i < |s| && IsSpace(s[i]) ==> i < e
    decreases |s| - i
  {
    if i < |s| && IsSpace(s[i]) then
      var e := RunEnd(s, i + 1);
      assert s[i..e] == [s[i]] + s[i + 1..e];
      e
    else i
  }

  /** The pieces between the matches, in order; a match at the very end
      leaves an empty last piece, as `re.split` does. */
  function Split(s: string): (pieces: seq<string>)
    ensures pieces != [] && |pieces| <= |s| + 1
    decreases |s|
  {
    var b := NextBreak(s, 0);
    if b == |s| then [s]
    else [s[..b]] + Split(s[RunEnd(s, b)..])
  }

  /** The whitespace runs the split removes, in order. */
  function Gaps(s: string): (gaps: seq<string>)
    decreases |s|
  {
    var b := NextBreak(s, 0);
    if b == |s| then []
    else [s[b..RunEnd(s, b)]] + Gaps(s[RunEnd(s, b)..])
  }

  /** Puts the removed runs back between the pieces. */
  function Reassemble(pieces: seq<string>, gaps: seq<string>): string
    requires |pieces| == |gaps| + 1
  {
    if gaps == [] then pieces[0]
    else pieces[0] + gaps[0] + Reassemble(pieces[1..], gaps[1..])
  }

  /** What makes `pieces` and `gaps` the split of a text: every removed run
      is non-empty whitespace, every piece before a run ends a sentence, every
      piece after a run starts with a non-space character (the run was taken
      whole) unless it is the empty last piece, and no piece contains a place
      where the pattern matches. */
  ghost predicate SplitShape(pieces: seq<string>, gaps: seq<string>)
  {
    && |pieces| == |gaps| + 1
    && (forall j :: 0 <= j < |gaps| ==> gaps[j] != [] && Blank(gaps[j]))
    && (forall j :: 0 <= j < |gaps| ==> |pieces[j]| > 0 && IsTerminal(pieces[j][|pieces[j]| - 1]))
    && (forall j :: 0 < j < |pieces| ==> pieces[j] == [] || !IsSpace(pieces[j][0]))
    && (forall j, k :: 0 <= j < |pieces| ==> !IsBreak(pieces[j], k))
  }

  /** Re-inserting the removed runs between the pieces gives the text back. */
  lemma {:induction false} SplitReassembles(s: string)
    ensures |Split(s)| == |Gaps(s)| + 1
    ensures Reassemble(Split(s), Gaps(s)) == s
    decreases |s|
  {
    var b := NextBreak(s, 0);
    if b < |s| {
      var e := RunEnd(s, b);
      var rest := s[e..];
      SplitReassembles(rest);
      var p, g := Split(s), Gaps(s);
      assert p == [s[..b]] + Split(rest) && g == [s[b..e]] + Gaps(rest);
      assert p[1..] == Split(rest) && g[1..] == Gaps(rest);
      assert Reassemble(p, g) == s[..b] + s[b..e] + rest;
      ThreeParts(s, b, e);
    }
  }

  /** Cutting a text at two positions and gluing the parts gives it back. */
  lemma ThreeParts(s: string, b: nat, e: nat)
    requires b <= e <= |s|
    ensures s[..b] + s[b..e] + s[e..] == s
  {
    assert s[..b] + s[b..e] == s[..e];
  }

  /** The split has the shape that the pattern dictates. */
  lemma {:induction false} SplitHasShape(s: string)
    ensures SplitShape(Split(s), Gaps(s))
    decreases |s|
  {
    SplitReassembles(s);
    var b := NextBreak(s, 0);
    if b == |s| {
      forall k ensures !IsBreak(s, k) {
      }
    } else {
      var e := RunEnd(s, b);
      var rest := s[e..];
      SplitHasShape(rest);
      var p', g' := Split(rest), Gaps(rest);
      assert Split(s) == [s[..b]] + p' && Gaps(s) == [s[b..e]] + g';
      assert IsBreak(s, b);
      assert s[..b][b - 1] == s[b - 1];
      forall k | IsBreak(s[..b], k) ensures false {
        assert IsBreak(s, k);
      }
      if p'[0] != [] {
        SplitStartsAt(rest);
        assert p'[0][0] == s[e];
      }
      ShapeCons(s[..b], s[b..e], p', g');
    }
  }

  /** One more sentence and run in front of a split keep its shape. */
  lemma ShapeCons(head: string, gap: string, p: seq<string>, g: seq<string>)
    requires SplitShape(p, g)
    requires |head| > 0 && IsTerminal(head[|head| - 1])
    requires gap != [] && Blank(gap)
    requires p[0] == [] || !IsSpace(p[0][0])
    requires forall k :: !IsBreak(head, k)
    ensures SplitShape([head] + p, [gap] + g)
  {
    var p1, g1 := [head] + p, [gap] + g;
    forall j | 0 < j < |p1| ensures p1[j] == p[j - 1] { }
    forall j | 0 < j < |g1| ensures g1[j] == g[j - 1] { }
  }

  /** The first piece is a prefix of the text. */
  lemma SplitStartsAt(s: string)
    ensures IsPrefix(Split(s)[0], s)
  {
  }

  /** A text without whitespace at either end splits into sentences that are
      all non-empty and have no whitespace at either end. */
  lemma {:induction false} StrippedTextSplitsIntoStrippedSentences(s: string)
    requires s != [] && IsStripped(s)
    ensures forall j :: 0 <= j < |Split(s)| ==> Split(s)[j] != [] && IsStripped(Split(s)[j])
    decreases |s|
  {
    var b := NextBreak(s, 0);
    if b < |s| {
      var e := RunEnd(s, b);
      assert forall i :: b <= i < e ==> s[b..e][i - b] == s[i];
      assert !IsSpace(s[|s| - 1]);
      assert e < |s|;
      var rest := s[e..];
      assert rest[|rest| - 1] == s[|s| - 1];
      StrippedTextSplitsIntoStrippedSentences(rest);
      assert Split(s) == [s[..b]] + Split(rest);
    }
  }
}
