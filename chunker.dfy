/** `auto_chunk_text`: the target size chosen from the text length, the
    overlap derived from it, the sentence split, and the greedy packing of
    sentences into overlapping buffers. */
module Chunker {
  import opened Strings
  import opened Sentences

  type Positive = n: int | n > 0 witness 1

  /** A rational `num / den`, standing for the
      floating-point `overlap_ratio`. */
  datatype Ratio = Ratio(num: int, den: Positive)

  const DefaultMinChunkSize: int := 500
  const DefaultMaxChunkSize: int := 1500
  /** The default `overlap_ratio` of 0.2. */
  const DefaultOverlapRatio: Ratio := Ratio(1, 5)

  /** The target chunk size for a text of `textLength` characters that is
      longer than the minimum: half the text when it fits in two maximal
      chunks, a third when it fits in three, the maximum otherwise. */
  function ChunkSize(textLength: nat, maxChunkSize: int): (size: int)
    ensures size <= maxChunkSize
    ensures size <= textLength / 2
    ensures textLength <= 3 * maxChunkSize ==> textLength / 3 <= size
    ensures 3 * maxChunkSize < textLength ==> size == maxChunkSize
  {
    if textLength <= 2 * maxChunkSize then textLength / 2
    else if textLength <= 3 * maxChunkSize then textLength / 3
    else maxChunkSize
  }

  /** `int(num / den)`: division truncated toward zero, for either sign. */
  function Truncate(num: int, den: Positive): (q: int)
    ensures 0 <= num ==> 0 <= q && q * den <= num < (q + 1) * den
    ensures num < 0 ==> q <= 0 && (q - 1) * den < num <= q * den
  {
    if 0 <= num then
      QuotientBounds(num, den);
      num / den
    else
      QuotientBounds(-num, den);
      NegatedBounds(-num / den, den, -num);
      -((-num) / den)
  }

  /** The quotient of a natural number brackets it between two multiples of
      the divisor. */
  lemma QuotientBounds(n: nat, d: Positive)
    ensures 0 <= n / d && (n / d) * d <= n < (n / d + 1) * d
  {
    var k := n / d;
    assert n == k * d + n % d && 0 <= n % d < d;
    assert (k + 1) * d == k * d + d;
  }

  /** Negating the bracketed number negates the bracketing multiples. */
  lemma NegatedBounds(k: int, d: Positive, n: int)
    requires k * d <= n < (k + 1) * d
    ensures (-k - 1) * d < -n <= (-k) * d
  {
    assert (-k) * d == -(k * d);
    assert (-k - 1) * d == -((k + 1) * d);
  }

  /** `int(chunk_size * overlap_ratio)`. */
  function Overlap(size: int, ratio: Ratio): (overlap: int)
    ensures 0 <= size && 0 <= ratio.num <= ratio.den ==> 0 <= overlap <= size
    ensures 0 <= size && ratio == DefaultOverlapRatio ==> overlap == size / 5
  {
    var q := Truncate(size * ratio.num, ratio.den);
    if 0 <= size && 0 <= ratio.num <= ratio.den then
      ScaledQuotientBound(size, ratio.num, ratio.den, q);
      q
    else q
  }

  lemma ScaledQuotientBound(size: nat, num: nat, den: Positive, q: int)
    requires num <= den && q * den <= size * num
    ensures q <= size
  {
    assert size * num <= size * den;
    assert (q - size) * den <= 0;
  }

  /** The state of the packing loop: the buffers already closed (before
      stripping) and the buffer being filled. */
  datatype Packing = Packing(closed: seq<string>, current: string)

  /** The packing test: the sentence is added to the buffer when the two
      lengths together stay within the target size. */
  predicate Fits(current: string, sentence: string, size: int) {
    |current| + |sentence| <= size
  }

  /** What a new buffer starts with: the raw tail `buffer[-overlap:]` when the
      overlap is positive, nothing otherwise. */
  function Seed(buffer: string, overlap: int): (seed: string)
    ensures overlap > 0 ==> IsSuffix(seed, buffer) && |seed| == if overlap < |buffer| then overlap else |buffer|
    ensures overlap <= 0 ==> seed == []
  {
    if overlap > 0 then LastChars(buffer, overlap) else []
  }

  /** One iteration of the packing loop. */
  function Step(p: Packing, sentence: string, size: int, overlap: int): (r: Packing)
    ensures |p.closed| <= |r.closed| <= |p.closed| + 1
    ensures r.closed[..|p.closed|] == p.closed
    ensures |r.closed| == |p.closed| <==> Fits(p.current, sentence, size)
    ensures |r.closed| == |p.closed| + 1 ==> r.closed[|p.closed|] == p.current
    ensures IsSuffix(sentence + " ", r.current)
  {
    if Fits(p.current, sentence, size) then Packing(p.closed, p.current + sentence + " ")
    else Packing(p.closed + [p.current], Seed(p.current, overlap) + sentence + " ")
  }

  /** The packing loop run over all of `sentences`, from the empty state. */
  function Pack(sentences: seq<string>, size: int, overlap: int): (p: Packing)
    ensures |p.closed| <= |sentences|
    decreases |sentences|
  {
    if sentences == [] then Packing([], "")
    else Step(Pack(sentences[..|sentences| - 1], size, overlap), sentences[|sentences| - 1], size, overlap)
  }

  /** Every buffer the loop filled, the closed ones and then the last. */
  function Buffers(p: Packing): seq<string> {
    p.closed + [p.current]
  }

  function StripAll(buffers: seq<string>): (stripped: seq<string>)
    ensures |stripped| == |buffers|
    ensures forall j :: 0 <= j < |buffers| ==> stripped[j] == Strip(buffers[j])
  {
    seq(|buffers|, j requires 0 <= j < |buffers| => Strip(buffers[j]))
  }

  /** The chunks the loop produces: every closed buffer stripped, then the last
      buffer stripped unless it is blank. */
  function Emit(p: Packing): (chunks: seq<string>)
    ensures |chunks| == if Blank(p.current) then |p.closed| else |p.closed| + 1
    ensures forall j :: 0 <= j < |chunks| ==> chunks[j] == Strip(Buffers(p)[j]) && IsStripped(chunks[j])
  {
    StripAll(p.closed) + if Strip(p.current) == [] then [] else [Strip(p.current)]
  }

  /** `auto_chunk_text` applied to the file contents `text`. */
  function AutoChunk(text: string, minChunkSize: int, maxChunkSize: int, overlapRatio: Ratio): (chunks: seq<string>)
    ensures forall j :: 0 <= j < |chunks| ==> IsStripped(chunks[j])
  {
    var t := Strip(text);
    if |t| <= minChunkSize then [t]
    else
      var size := ChunkSize(|t|, maxChunkSize);
      Emit(Pack(Split(t), size, Overlap(size, overlapRatio)))
  }

  /** The chunker as the source runs it: the size and overlap selection, the
      split, and the loop that fills `current` and appends to `chunks`. */
  method AutoChunkText(text: string, minChunkSize: int, maxChunkSize: int, overlapRatio: Ratio)
    returns (chunks: seq<string>)
    ensures chunks == AutoChunk(text, minChunkSize, maxChunkSize, overlapRatio)
  {
    var t := Strip(text);
    if |t| <= minChunkSize {
      return [t];
    }
    var size := ChunkSize(|t|, maxChunkSize);
    var overlap := Overlap(size, overlapRatio);
    var sentences := Split(t);
    chunks := [];
    var current := "";
    for i := 0 to |sentences|
      invariant chunks == StripAll(Pack(sentences[..i], size, overlap).closed)
      invariant current == Pack(sentences[..i], size, overlap).current
    {
      ghost var before := Pack(sentences[..i], size, overlap);
      PackSnoc(sentences, i, size, overlap);
      chunks, current := PackSentence(chunks, current, sentences[i], size, overlap, before.closed);
    }
    assert sentences[..|sentences|] == sentences;
    if Strip(current) != [] {
      chunks := chunks + [Strip(current)];
    }
  }

  /** The loop body for one sentence: the sentence joins `current` when it
      fits; otherwise `current` is stripped into `chunks` and a new buffer
      starts with its raw tail (when the overlap is positive) and the
      sentence. */
  method PackSentence(chunks: seq<string>, current: string, sentence: string, size: int, overlap: int,
                      ghost closed: seq<string>)
    returns (chunks': seq<string>, current': string)
    requires chunks == StripAll(closed)
    ensures var p := Step(Packing(closed, current), sentence, size, overlap);
            chunks' == StripAll(p.closed) && current' == p.current
  {
    if |current| + |sentence| <= size {
      chunks', current' := chunks, current + sentence + " ";
    } else {
      StripAllAppend(closed, current);
      chunks' := chunks + [Strip(current)];
      if overlap > 0 {
        current' := LastChars(current, overlap) + sentence + " ";
      } else {
        assert [] + sentence == sentence;
        current' := sentence + " ";
      }
    }
  }

  /** One more sentence is one more step of the loop. */
  lemma PackSnoc(sentences: seq<string>, i: nat, size: int, overlap: int)
    requires i < |sentences|
    ensures Pack(sentences[..i + 1], size, overlap) == Step(Pack(sentences[..i], size, overlap), sentences[i], size, overlap)
  {
    assert sentences[..i + 1][..i] == sentences[..i];
  }

  lemma StripAllAppend(buffers: seq<string>, buffer: string)
    ensures StripAll(buffers + [buffer]) == StripAll(buffers) + [Strip(buffer)]
  {
    assert StripAll(buffers + [buffer]) == StripAll(buffers) + [Strip(buffer)];
  }

  /** The sentences of a group, each followed by the space the loop appends. */
  function Spaced(group: seq<string>): string
    decreases |group|
  {
    if group == [] then [] else Spaced(group[..|group| - 1]) + group[|group| - 1] + " "
  }

  function Flatten(groups: seq<seq<string>>): seq<string>
    decreases |groups|
  {
    if groups == [] then [] else Flatten(groups[..|groups| - 1]) + groups[|groups| - 1]
  }

  /** Which sentences the loop put into which buffer: a sentence that fits
      joins the group of the current buffer, one that does not starts a new
      group. */
  ghost function Groups(sentences: seq<string>, size: int, overlap: int): (groups: seq<seq<string>>)
    ensures |groups| == |Pack(sentences, size, overlap).closed| + 1
    decreases |sentences|
  {
    if sentences == [] then [[]]
    else
      var before := sentences[..|sentences| - 1];
      var sentence := sentences[|sentences| - 1];
      var groups := Groups(before, size, overlap);
      if Fits(Pack(before, size, overlap).current, sentence, size) then
        groups[..|groups| - 1] + [groups[|groups| - 1] + [sentence]]
      else groups + [[sentence]]
  }

  /** The seed buffer `j` started with. */
  function SeedOf(buffers: seq<string>, overlap: int, j: nat): string
    requires j < |buffers|
  {
    if j == 0 then [] else Seed(buffers[j - 1], overlap)
  }

  /** Greedy packing, stated without the loop: the groups partition the
      sentences in order; every buffer is its seed followed by its group's
      sentences; every group after the first opens with a sentence that did
      not fit into the previous buffer; every other sentence fitted into its
      buffer as it stood when the sentence came. */
  ghost predicate Greedy(sentences: seq<string>, size: int, overlap: int,
                         groups: seq<seq<string>>, buffers: seq<string>)
  {
    && |groups| == |buffers| >= 1
    && Flatten(groups) == sentences
    && Laid(buffers, groups, overlap)
    && Overflowed(buffers, groups, size)
    && Fitted(buffers, groups, size, overlap)
  }

  /** Every group after the first is opened by a sentence that did not fit
      into the previous buffer. */
  ghost predicate Overflowed(buffers: seq<string>, groups: seq<seq<string>>, size: int) {
    |buffers| == |groups| &&
    forall j :: 0 < j < |groups| ==> groups[j] != [] && !Fits(buffers[j - 1], groups[j][0], size)
  }

  /** Every other sentence fitted into its buffer as the buffer stood when the
      sentence came. */
  ghost predicate Fitted(buffers: seq<string>, groups: seq<seq<string>>, size: int, overlap: int) {
    |buffers| == |groups| &&
    forall j, k :: 0 <= j < |groups| && 0 <= k < |groups[j]| && (j == 0 || 0 < k) ==>
      Fits(SeedOf(buffers, overlap, j) + Spaced(groups[j][..k]), groups[j][k], size)
  }

  /** No sentence is dropped or repeated and the order is kept; only the first
      group can be empty. */
  lemma {:induction false} PackPartitions(sentences: seq<string>, size: int, overlap: int)
    ensures Flatten(Groups(sentences, size, overlap)) == sentences
    ensures forall j :: 0 < j < |Groups(sentences, size, overlap)| ==> Groups(sentences, size, overlap)[j] != []
    decreases |sentences|
  {
    if sentences != [] {
      var before := sentences[..|sentences| - 1];
      var sentence := sentences[|sentences| - 1];
      PackPartitions(before, size, overlap);
      var gs := Groups(before, size, overlap);
      var gs' := Groups(sentences, size, overlap);
      var n := |gs|;
      InitLast(sentences);
      if Fits(Pack(before, size, overlap).current, sentence, size) {
        assert gs' == gs[..n - 1] + [gs[n - 1] + [sentence]];
        FlattenJoinLast(gs, sentence);
        forall j | 0 < j < n ensures gs'[j] != [] {
          if j < n - 1 {
            assert gs'[j] == gs[j];
          }
        }
      } else {
        assert gs' == gs + [[sentence]];
        FlattenAppend(gs, [sentence]);
        forall j | 0 < j < n + 1 ensures gs'[j] != [] {
          if j < n {
            assert gs'[j] == gs[j];
          }
        }
      }
    }
  }

  lemma InitLast<T>(s: seq<T>)
    requires s != []
    ensures s[..|s| - 1] + [s[|s| - 1]] == s
  {
  }

  lemma FlattenAppend(groups: seq<seq<string>>, group: seq<string>)
    ensures Flatten(groups + [group]) == Flatten(groups) + group
  {
    assert (groups + [group])[..|groups|] == groups;
  }

  /** Adding a sentence to the last group adds it at the end of the
      flattening. */
  lemma FlattenJoinLast(groups: seq<seq<string>>, sentence: string)
    requires |groups| >= 1
    ensures var n := |groups|;
            Flatten(groups[..n - 1] + [groups[n - 1] + [sentence]]) == Flatten(groups) + [sentence]
  {
    var n := |groups|;
    var init, last := groups[..n - 1], groups[n - 1];
    var f := Flatten(init);
    FlattenAppend(init, last + [sentence]);
    FlattenAppend(init, last);
    InitLast(groups);
    assert Flatten(groups) == f + last;
    AppendAssociates(f, last, [sentence]);
  }

  lemma AppendAssociates<T>(a: seq<T>, b: seq<T>, c: seq<T>)
    ensures a + (b + c) == (a + b) + c
  {
  }

  /** Every buffer is its seed followed by the sentences of its group. */
  ghost predicate Laid(buffers: seq<string>, groups: seq<seq<string>>, overlap: int) {
    |buffers| == |groups| &&
    forall j {:trigger SeedOf(buffers, overlap, j)} :: 0 <= j < |buffers| ==>
      buffers[j] == SeedOf(buffers, overlap, j) + Spaced(groups[j])
  }

  lemma LaidAfterFit(buffers: seq<string>, groups: seq<seq<string>>, overlap: int, sentence: string)
    requires |buffers| >= 1 && Laid(buffers, groups, overlap)
    ensures var n := |buffers|;
            Laid(buffers[..n - 1] + [buffers[n - 1] + sentence + " "],
                 groups[..n - 1] + [groups[n - 1] + [sentence]], overlap)
  {
    var n := |buffers|;
    var bs' := buffers[..n - 1] + [buffers[n - 1] + sentence + " "];
    var gs' := groups[..n - 1] + [groups[n - 1] + [sentence]];
    forall j | 0 <= j < n
      ensures bs'[j] == SeedOf(bs', overlap, j) + Spaced(gs'[j])
    {
      assert buffers[j] == SeedOf(buffers, overlap, j) + Spaced(groups[j]);
      assert SeedOf(bs', overlap, j) == SeedOf(buffers, overlap, j);
      if j < n - 1 {
        assert bs'[j] == buffers[j] && gs'[j] == groups[j];
      } else {
        assert bs'[j] == buffers[j] + sentence + " " && gs'[j] == groups[j] + [sentence];
        LaidLastAfterFit(SeedOf(buffers, overlap, j), groups[j], sentence);
      }
    }
  }

  /** The last buffer, grown by a fitting sentence, is still its seed followed
      by its grown group. */
  lemma LaidLastAfterFit(seed: string, group: seq<string>, sentence: string)
    ensures seed + Spaced(group) + sentence + " " == seed + Spaced(group + [sentence])
  {
    SpacedSnoc(group, sentence);
    var w := Spaced(group);
    assert seed + w + sentence + " " == seed + (w + sentence + " ");
  }

  /** A sentence added to a group adds itself and a space at the end. */
  lemma SpacedSnoc(group: seq<string>, sentence: string)
    ensures Spaced(group + [sentence]) == Spaced(group) + sentence + " "
  {
    assert (group + [sentence])[..|group|] == group;
  }

  lemma LaidAfterOverflow(buffers: seq<string>, groups: seq<seq<string>>, overlap: int, sentence: string)
    requires |buffers| >= 1 && Laid(buffers, groups, overlap)
    ensures Laid(buffers + [Seed(buffers[|buffers| - 1], overlap) + sentence + " "],
                 groups + [[sentence]], overlap)
  {
    var n := |buffers|;
    var bs' := buffers + [Seed(buffers[n - 1], overlap) + sentence + " "];
    var gs' := groups + [[sentence]];
    assert Spaced([sentence]) == sentence + " ";
    forall j | 0 <= j < n + 1
      ensures bs'[j] == SeedOf(bs', overlap, j) + Spaced(gs'[j])
    {
      if j < n {
        assert buffers[j] == SeedOf(buffers, overlap, j) + Spaced(groups[j]);
        assert SeedOf(bs', overlap, j) == SeedOf(buffers, overlap, j);
      }
    }
  }

  /** Every buffer is its seed followed by the sentences of its group, each
      with a trailing space. */
  lemma {:induction false} PackLayout(sentences: seq<string>, size: int, overlap: int)
    ensures Laid(Buffers(Pack(sentences, size, overlap)), Groups(sentences, size, overlap), overlap)
    decreases |sentences|
  {
    if sentences == [] {
      assert Spaced([]) == [];
    } else {
      var before := sentences[..|sentences| - 1];
      var sentence := sentences[|sentences| - 1];
      PackLayout(before, size, overlap);
      var p := Pack(before, size, overlap);
      var bs, gs := Buffers(p), Groups(before, size, overlap);
      var n := |gs|;
      assert bs[..n - 1] == p.closed && bs[n - 1] == p.current;
      if Fits(p.current, sentence, size) {
        LaidAfterFit(bs, gs, overlap, sentence);
      } else {
        LaidAfterOverflow(bs, gs, overlap, sentence);
      }
    }
  }

  lemma FittedAfterFit(buffers: seq<string>, groups: seq<seq<string>>, size: int, overlap: int, sentence: string)
    requires |buffers| >= 1 && Laid(buffers, groups, overlap)
    requires Overflowed(buffers, groups, size) && Fitted(buffers, groups, size, overlap)
    requires Fits(buffers[|buffers| - 1], sentence, size)
    ensures var n := |buffers|;
            var bs' := buffers[..n - 1] + [buffers[n - 1] + sentence + " "];
            var gs' := groups[..n - 1] + [groups[n - 1] + [sentence]];
            Overflowed(bs', gs', size) && Fitted(bs', gs', size, overlap)
  {
    var n := |buffers|;
    var bs' := buffers[..n - 1] + [buffers[n - 1] + sentence + " "];
    var gs' := groups[..n - 1] + [groups[n - 1] + [sentence]];
    forall j, k | 0 <= j < n && 0 <= k < |gs'[j]| && (j == 0 || 0 < k)
      ensures Fits(SeedOf(bs', overlap, j) + Spaced(gs'[j][..k]), gs'[j][k], size)
    {
      FitKept(buffers, groups, size, overlap, sentence, bs', gs', j, k);
    }
    forall j | 0 < j < n
      ensures gs'[j] != [] && !Fits(bs'[j - 1], gs'[j][0], size)
    {
      assert groups[j] != [];
      if j < n - 1 {
        assert gs'[j] == groups[j];
      } else {
        assert gs'[j][0] == groups[j][0];
      }
    }
  }

  lemma FitKept(buffers: seq<string>, groups: seq<seq<string>>, size: int, overlap: int, sentence: string,
                bs': seq<string>, gs': seq<seq<string>>, j: nat, k: nat)
    requires |buffers| >= 1 && Laid(buffers, groups, overlap) && Fitted(buffers, groups, size, overlap)
    requires Fits(buffers[|buffers| - 1], sentence, size)
    requires bs' == buffers[..|buffers| - 1] + [buffers[|buffers| - 1] + sentence + " "]
    requires gs' == groups[..|buffers| - 1] + [groups[|buffers| - 1] + [sentence]]
    requires j < |buffers| && k < |gs'[j]| && (j == 0 || 0 < k)
    ensures Fits(SeedOf(bs', overlap, j) + Spaced(gs'[j][..k]), gs'[j][k], size)
  {
    var n := |buffers|;
    var last := groups[n - 1];
    var seed := SeedOf(buffers, overlap, j);
    assert SeedOf(bs', overlap, j) == seed;
    if j < n - 1 {
      assert gs'[j] == groups[j];
      assert Fits(seed + Spaced(groups[j][..k]), groups[j][k], size);
    } else if k < |last| {
      assert gs'[j] == last + [sentence];
      assert gs'[j][..k] == last[..k] && gs'[j][k] == last[k];
      assert Fits(seed + Spaced(last[..k]), last[k], size);
    } else {
      assert gs'[j] == last + [sentence];
      assert gs'[j][..k] == last && gs'[j][k] == sentence;
      assert buffers[j] == seed + Spaced(last);
      assert Fits(seed + Spaced(last), sentence, size);
    }
  }

  lemma FittedAfterOverflow(buffers: seq<string>, groups: seq<seq<string>>, size: int, overlap: int, sentence: string)
    requires |buffers| >= 1
    requires Overflowed(buffers, groups, size) && Fitted(buffers, groups, size, overlap)
    requires !Fits(buffers[|buffers| - 1], sentence, size)
    ensures var bs' := buffers + [Seed(buffers[|buffers| - 1], overlap) + sentence + " "];
            var gs' := groups + [[sentence]];
            Overflowed(bs', gs', size) && Fitted(bs', gs', size, overlap)
  {
    var n := |buffers|;
    var bs' := buffers + [Seed(buffers[n - 1], overlap) + sentence + " "];
    var gs' := groups + [[sentence]];
    forall j, k | 0 <= j < n + 1 && 0 <= k < |gs'[j]| && (j == 0 || 0 < k)
      ensures Fits(SeedOf(bs', overlap, j) + Spaced(gs'[j][..k]), gs'[j][k], size)
    {
      assert j < n;
      assert SeedOf(bs', overlap, j) == SeedOf(buffers, overlap, j);
      assert gs'[j] == groups[j];
    }
  }

  /** The fit test decided every group boundary: a group is opened exactly by
      a sentence that did not fit. */
  lemma {:induction false} PackFits(sentences: seq<string>, size: int, overlap: int)
    ensures Overflowed(Buffers(Pack(sentences, size, overlap)), Groups(sentences, size, overlap), size)
    ensures Fitted(Buffers(Pack(sentences, size, overlap)), Groups(sentences, size, overlap), size, overlap)
    decreases |sentences|
  {
    if sentences != [] {
      var before := sentences[..|sentences| - 1];
      var sentence := sentences[|sentences| - 1];
      PackFits(before, size, overlap);
      PackLayout(before, size, overlap);
      var p := Pack(before, size, overlap);
      var bs, gs := Buffers(p), Groups(before, size, overlap);
      var n := |gs|;
      assert bs[..n - 1] == p.closed && bs[n - 1] == p.current;
      if Fits(p.current, sentence, size) {
        FittedAfterFit(bs, gs, size, overlap, sentence);
      } else {
        FittedAfterOverflow(bs, gs, size, overlap, sentence);
      }
    }
  }

  /** The loop packs greedily. */
  lemma PackIsGreedy(sentences: seq<string>, size: int, overlap: int)
    ensures Greedy(sentences, size, overlap, Groups(sentences, size, overlap), Buffers(Pack(sentences, size, overlap)))
  {
    PackPartitions(sentences, size, overlap);
    PackLayout(sentences, size, overlap);
    PackFits(sentences, size, overlap);
  }

  /** The number of sentences that met a buffer they did not fit into. */
  ghost function Overflows(sentences: seq<string>, size: int, overlap: int): nat
    decreases |sentences|
  {
    if sentences == [] then 0
    else
      var before := sentences[..|sentences| - 1];
      Overflows(before, size, overlap)
        + if Fits(Pack(before, size, overlap).current, sentences[|sentences| - 1], size) then 0 else 1
  }

  /** A buffer is closed exactly once per overflow. */
  lemma {:induction false} ClosedBuffersCountOverflows(sentences: seq<string>, size: int, overlap: int)
    ensures |Pack(sentences, size, overlap).closed| == Overflows(sentences, size, overlap)
    decreases |sentences|
  {
    if sentences != [] {
      ClosedBuffersCountOverflows(sentences[..|sentences| - 1], size, overlap);
    }
  }

  lemma {:induction false} SpacedStartsWithFirst(group: seq<string>)
    requires group != []
    ensures IsPrefix(group[0], Spaced(group))
    decreases |group|
  {
    if |group| > 1 {
      var init := group[..|group| - 1];
      SpacedStartsWithFirst(init);
      assert init[0] == group[0];
    }
  }

  lemma {:induction false} FlattenCons(group: seq<string>, groups: seq<seq<string>>)
    ensures Flatten([group] + groups) == group + Flatten(groups)
    decreases |groups|
  {
    if groups == [] {
      FlattenAppend([], group);
      assert [] + [group] == [group];
    } else {
      var n := |groups|;
      var init, last := groups[..n - 1], groups[n - 1];
      FlattenCons(group, init);
      InitLast(groups);
      assert [group] + groups == ([group] + init) + [last];
      FlattenAppend([group] + init, last);
      FlattenAppend(init, last);
      assert group + Flatten(init) + last == group + (Flatten(init) + last);
    }
  }

  /** A string that contains a non-blank piece is not blank. */
  lemma NotBlankAround(u: string, w: string, v: string)
    requires !Blank(w)
    ensures !Blank(u + w + v)
  {
    var i :| 0 <= i < |w| && !IsSpace(w[i]);
    assert (u + w + v)[|u| + i] == w[i];
  }

  /** Packing non-blank sentences: every buffer becomes one chunk, there is
      one chunk more than there were overflows, the last chunk is not empty,
      and the first chunk is empty exactly when the first sentence alone
      exceeds the target size. */
  lemma PackedChunks(sentences: seq<string>, size: int, overlap: int)
    requires sentences != []
    requires forall j :: 0 <= j < |sentences| ==> !Blank(sentences[j])
    ensures var p := Pack(sentences, size, overlap);
            var chunks := Emit(p);
            && chunks == StripAll(Buffers(p))
            && |chunks| == Overflows(sentences, size, overlap) + 1
            && chunks[|chunks| - 1] != []
            && (chunks[0] == [] <==> |sentences[0]| > size)
  {
    var p := Pack(sentences, size, overlap);
    ClosedBuffersCountOverflows(sentences, size, overlap);
    LastBufferNotBlank(sentences, size, overlap);
    StripAllAppend(p.closed, p.current);
    PackIsGreedy(sentences, size, overlap);
    FirstChunk(sentences, size, overlap, Groups(sentences, size, overlap), Buffers(p));
  }

  /** The last buffer ends with the last sentence, so it is not blank when
      that sentence is not. */
  lemma LastBufferNotBlank(sentences: seq<string>, size: int, overlap: int)
    requires sentences != [] && !Blank(sentences[|sentences| - 1])
    ensures !Blank(Pack(sentences, size, overlap).current)
  {
    var p := Pack(sentences, size, overlap);
    var n := |sentences|;
    var last := sentences[n - 1];
    var head := p.current[..|p.current| - |last| - 1];
    assert p.current == head + last + " ";
    NotBlankAround(head, last, " ");
  }

  /** `auto_chunk_text` on the file contents `text`: a text that is short after
      stripping is returned whole; a longer one is split into stripped
      sentences that are packed greedily, and the chunks are the stripped
      buffers, each stripped, one more than there were overflows, the last one
      not empty and the first one empty exactly when the first sentence alone
      exceeds the target size. */
  lemma AutoChunkShape(text: string, minChunkSize: int, maxChunkSize: int, ratio: Ratio)
    ensures var t := Strip(text);
            var chunks := AutoChunk(text, minChunkSize, maxChunkSize, ratio);
            && (|t| <= minChunkSize ==> chunks == [t])
            && (t != [] && |t| > minChunkSize ==>
                  var size := ChunkSize(|t|, maxChunkSize);
                  var overlap := Overlap(size, ratio);
                  var sentences := Split(t);
                  var p := Pack(sentences, size, overlap);
                  && (forall j :: 0 <= j < |sentences| ==> sentences[j] != [] && IsStripped(sentences[j]))
                  && Greedy(sentences, size, overlap, Groups(sentences, size, overlap), Buffers(p))
                  && chunks == StripAll(Buffers(p))
                  && |chunks| == Overflows(sentences, size, overlap) + 1
                  && chunks[|chunks| - 1] != []
                  && (chunks[0] == [] <==> |sentences[0]| > size)
                  && (forall j :: 0 <= j < |chunks| ==> IsStripped(chunks[j])))
  {
    var t := Strip(text);
    if t != [] && |t| > minChunkSize {
      var size := ChunkSize(|t|, maxChunkSize);
      var overlap := Overlap(size, ratio);
      var sentences := Split(t);
      StrippedTextSplitsIntoStrippedSentences(t);
      forall j | 0 <= j < |sentences| ensures !Blank(sentences[j]) {
        assert !IsSpace(sentences[j][0]);
      }
      PackIsGreedy(sentences, size, overlap);
      PackedChunks(sentences, size, overlap);
    }
  }

  /** The first buffer is blank exactly when the first sentence did not fit
      into the empty buffer. */
  lemma FirstChunk(sentences: seq<string>, size: int, overlap: int, groups: seq<seq<string>>, buffers: seq<string>)
    requires Greedy(sentences, size, overlap, groups, buffers)
    requires sentences != [] && !Blank(sentences[0])
    ensures Strip(buffers[0]) == [] <==> |sentences[0]| > size
  {
    assert SeedOf(buffers, overlap, 0) == [];
    assert buffers[0] == Spaced(groups[0]);
    FlattenCons(groups[0], groups[1..]);
    assert groups == [groups[0]] + groups[1..];
    if groups[0] == [] {
      FirstGroupEmpty(sentences, size, groups, buffers);
    } else {
      FirstGroupOpened(sentences, size, overlap, groups, buffers);
    }
  }

  /** An empty first group: the first sentence opened the second group, so it
      did not fit into the empty first buffer. */
  lemma FirstGroupEmpty(sentences: seq<string>, size: int, groups: seq<seq<string>>, buffers: seq<string>)
    requires Overflowed(buffers, groups, size) && |groups| >= 1
    requires sentences != [] && groups[0] == [] && buffers[0] == Spaced(groups[0])
    requires sentences == groups[0] + Flatten(groups[1..])
    ensures Strip(buffers[0]) == [] && |sentences[0]| > size
  {
    assert buffers[0] == [];
    assert |groups| > 1;
    FlattenCons(groups[1], groups[2..]);
    assert groups[1..] == [groups[1]] + groups[2..];
    assert groups[1][0] == sentences[0];
    assert !Fits(buffers[0], groups[1][0], size);
  }

  /** A first group that is not empty opens with the first sentence, which
      fitted into the empty first buffer and keeps that buffer from being
      blank. */
  lemma FirstGroupOpened(sentences: seq<string>, size: int, overlap: int, groups: seq<seq<string>>, buffers: seq<string>)
    requires Fitted(buffers, groups, size, overlap) && |groups| >= 1
    requires sentences != [] && !Blank(sentences[0])
    requires groups[0] != [] && buffers[0] == Spaced(groups[0])
    requires sentences == groups[0] + Flatten(groups[1..])
    ensures Strip(buffers[0]) != [] && |sentences[0]| <= size
  {
    var first := sentences[0];
    assert groups[0][0] == first;
    assert SeedOf(buffers, overlap, 0) == [];
    assert Fits(SeedOf(buffers, overlap, 0) + Spaced(groups[0][..0]), groups[0][0], size);
    SpacedStartsWithFirst(groups[0]);
    NotBlankAround([], first, buffers[0][|first|..]);
    assert buffers[0] == first + buffers[0][|first|..];
  }

  /** The raw tail that seeded buffer `j + 1`, once stripped, ends the stripped
      buffer `j` and begins the stripped buffer `j + 1`. */
  lemma NeighbouringBuffersShareSeed(sentences: seq<string>, size: int, overlap: int, j: nat)
    requires j + 1 < |Buffers(Pack(sentences, size, overlap))|
    ensures var buffers := Buffers(Pack(sentences, size, overlap));
            var shared := Strip(Seed(buffers[j], overlap));
            IsSuffix(shared, Strip(buffers[j])) && IsPrefix(shared, Strip(buffers[j + 1]))
  {
    var buffers := Buffers(Pack(sentences, size, overlap));
    var seed := Seed(buffers[j], overlap);
    PackLayout(sentences, size, overlap);
    var groups := Groups(sentences, size, overlap);
    assert SeedOf(buffers, overlap, j + 1) == seed;
    assert buffers[j + 1] == seed + Spaced(groups[j + 1]);
    assert IsSuffix(seed, buffers[j]);
    StrippedTailIsShared(buffers[j], seed, Spaced(groups[j + 1]));
  }

  /** A tail of `buffer`, stripped, ends the stripped `buffer` and begins the
      stripped string that the tail starts. */
  lemma StrippedTailIsShared(buffer: string, tail: string, rest: string)
    requires IsSuffix(tail, buffer)
    ensures IsSuffix(Strip(tail), Strip(buffer)) && IsPrefix(Strip(tail), Strip(tail + rest))
  {
    SharedPrefix(tail, rest);
    var u := buffer[..|buffer| - |tail|];
    assert buffer == u + tail;
    SharedSuffix(u, tail);
  }

  /** Adjacent chunks overlap: with `overlap > 0` the stripped seed of chunk
      `j + 1`, at most `overlap` characters long, is both a suffix of chunk `j`
      and a prefix of chunk `j + 1`; with `overlap <= 0` nothing is shared. */
  lemma AdjacentChunksOverlap(text: string, minChunkSize: int, maxChunkSize: int, ratio: Ratio, j: nat)
    requires Strip(text) != [] && |Strip(text)| > minChunkSize
    requires j + 1 < |AutoChunk(text, minChunkSize, maxChunkSize, ratio)|
    ensures var t := Strip(text);
            var size := ChunkSize(|t|, maxChunkSize);
            var overlap := Overlap(size, ratio);
            var buffers := Buffers(Pack(Split(t), size, overlap));
            var chunks := AutoChunk(text, minChunkSize, maxChunkSize, ratio);
            var shared := Strip(Seed(buffers[j], overlap));
            && IsSuffix(shared, chunks[j])
            && IsPrefix(shared, chunks[j + 1])
            && |shared| <= (if overlap > 0 then overlap else 0)
            && (overlap >= 2 && chunks[j] != [] ==> shared != [])
  {
    var t := Strip(text);
    var size := ChunkSize(|t|, maxChunkSize);
    var overlap := Overlap(size, ratio);
    var p := Pack(Split(t), size, overlap);
    var chunks := AutoChunk(text, minChunkSize, maxChunkSize, ratio);
    assert chunks == Emit(p);
    NeighbouringBuffersShareSeed(Split(t), size, overlap, j);
    if overlap >= 2 && chunks[j] != [] {
      var buffer := Buffers(p)[j];
      assert chunks[j] == Strip(buffer);
      StrippedTextSplitsIntoStrippedSentences(t);
      BuffersEndAfterText(Split(t), size, overlap);
      assert EndsAfterText(buffer);
      SeedKeepsText(buffer, overlap);
    }
  }

  /** A buffer the loop filled is empty, or ends with the space appended after
      its last sentence, preceded by that sentence's last character. */
  predicate EndsAfterText(buffer: string) {
    buffer == [] || (|buffer| >= 2 && buffer[|buffer| - 1] == ' ' && !IsSpace(buffer[|buffer| - 2]))
  }

  ghost predicate AllEndAfterText(buffers: seq<string>) {
    forall j :: 0 <= j < |buffers| ==> EndsAfterText(buffers[j])
  }

  /** Packing stripped, non-empty sentences: every buffer is empty or ends
      in a non-whitespace character followed by one space. */
  lemma {:induction false} BuffersEndAfterText(sentences: seq<string>, size: int, overlap: int)
    requires forall j :: 0 <= j < |sentences| ==> sentences[j] != [] && IsStripped(sentences[j])
    ensures AllEndAfterText(Buffers(Pack(sentences, size, overlap)))
    decreases |sentences|
  {
    if sentences == [] {
      assert Buffers(Pack(sentences, size, overlap)) == [[]];
    } else {
      var n := |sentences|;
      var before := sentences[..n - 1];
      assert forall j :: 0 <= j < |before| ==> before[j] == sentences[j];
      BuffersEndAfterText(before, size, overlap);
      StepEndsAfterText(Pack(before, size, overlap), sentences[n - 1], size, overlap);
    }
  }

  /** One packing step keeps every buffer ending after text. */
  lemma StepEndsAfterText(p: Packing, sentence: string, size: int, overlap: int)
    requires AllEndAfterText(Buffers(p))
    requires sentence != [] && IsStripped(sentence)
    ensures AllEndAfterText(Buffers(Step(p, sentence, size, overlap)))
  {
    var q := Step(p, sentence, size, overlap);
    var b := q.current;
    assert b[|b| - 2] == sentence[|sentence| - 1];
    assert EndsAfterText(b);
    if Fits(p.current, sentence, size) {
      assert Buffers(q) == p.closed + [b];
      forall j | 0 <= j < |p.closed| ensures EndsAfterText(p.closed[j]) {
        assert p.closed[j] == Buffers(p)[j];
      }
    } else {
      assert Buffers(q) == Buffers(p) + [b];
    }
  }

  /** With an overlap of at least two, the seed cut from a buffer that ends
      after text keeps that text's last character. */
  lemma SeedKeepsText(buffer: string, overlap: int)
    requires overlap >= 2 && buffer != [] && EndsAfterText(buffer)
    ensures Strip(Seed(buffer, overlap)) != []
  {
    var seed := Seed(buffer, overlap);
    assert seed[|seed| - 2] == buffer[|buffer| - 2];
  }

  /** How long a chunk can get. A chunk whose last sentence passed the fit
      test (the first chunk, or one holding more than its opening sentence)
      is at most `chunk_size` long. A chunk holding only the sentence that
      opened it is at most that sentence plus the seed, which is at most
      `overlap` characters: the seed is put in front without a fit test. */
  lemma ChunkLengthBound(sentences: seq<string>, size: int, overlap: int, j: nat)
    requires j < |Buffers(Pack(sentences, size, overlap))|
    ensures var groups := Groups(sentences, size, overlap);
            var chunk := Strip(Buffers(Pack(sentences, size, overlap))[j]);
            && (groups[j] != [] && (j == 0 || |groups[j]| >= 2) ==> |chunk| <= size)
            && (0 < j && |groups[j]| == 1 ==> |chunk| <= (if overlap > 0 then overlap else 0) + |groups[j][0]|)
  {
    var buffers := Buffers(Pack(sentences, size, overlap));
    var groups := Groups(sentences, size, overlap);
    PackLayout(sentences, size, overlap);
    PackFits(sentences, size, overlap);
    var g := groups[j];
    var seed := SeedOf(buffers, overlap, j);
    assert buffers[j] == seed + Spaced(g);
    if g != [] {
      var k := |g| - 1;
      assert Spaced(g) == Spaced(g[..k]) + g[k] + " ";
      StripDropsTrailingSpace(buffers[j]);
      if j == 0 || 0 < k {
        assert Fits(seed + Spaced(g[..k]), g[k], size);
      } else {
        assert g[..k] == [];
        assert |seed| <= if overlap > 0 then overlap else 0;
      }
    }
  }

  /** The bound above is the one the loop gives: the seed in front of an
      overflowing sentence can push its chunk past `chunk_size` although no
      sentence is longer than that. */
  lemma OpenerChunkExceedsSize()
    ensures var sentences := ["aaaa.", "bbbbbbbbb."];
            && |sentences[0]| <= 10 && |sentences[1]| <= 10
            && Emit(Pack(sentences, 10, 4)) == ["aaaa.", "aa. bbbbbbbbb."]
  {
    var sentences := ["aaaa.", "bbbbbbbbb."];
    PackOverflowing();
    var p := Packing(["aaaa. "], "aa. bbbbbbbbb. ");
    StripLastSpace("aaaa. ");
    StripLastSpace("aa. bbbbbbbbb. ");
    var last := Strip(p.current);
    assert last == "aa. bbbbbbbbb.";
    assert last != [];
    assert StripAll(p.closed) == ["aaaa."];
    assert Emit(p) == ["aaaa."] + [last];
  }

  lemma PackOverflowing()
    ensures Pack(["aaaa.", "bbbbbbbbb."], 10, 4) == Packing(["aaaa. "], "aa. bbbbbbbbb. ")
  {
    var sentences := ["aaaa.", "bbbbbbbbb."];
    assert sentences[..1] == ["aaaa."];
    assert Pack(sentences[..1], 10, 4) == Packing([], "aaaa. ");
    assert Seed("aaaa. ", 4) == "aa. ";
  }

  /** A buffer that starts with text and ends after text strips to all but
      its final space. */
  lemma StripLastSpace(buffer: string)
    requires |buffer| >= 2 && !IsSpace(buffer[0]) && EndsAfterText(buffer)
    ensures Strip(buffer) == buffer[..|buffer| - 1]
  {
    SkipSpacesAt(buffer, 0, 0);
    TrailEndAt(buffer, |buffer|, |buffer| - 1);
  }
}
