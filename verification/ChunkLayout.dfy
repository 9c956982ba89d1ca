/** Which blocks share a chunk: greedily as many as fit. */
module ChunkLayout {
  import opened Text
  import opened Chunking
  import opened ChunkTheorems

  predicate AllFit(blocks: seq<string>, maxTokens: int) {
    forall b :: b in blocks ==> Estimate(b) <= maxTokens
  }

  /** The items of a chunk behind its overlap, which is one item when there is any. */
  function NewPart(items: seq<string>, overlap: nat): seq<string> {
    if overlap > 0 && items != [] then items[1..] else items
  }

  function NewBlocks(o: Origin): seq<string> {
    if o.Merged? then NewPart(o.items, o.overlap) else []
  }

  /** The blocks of some chunks, in order. */
  function BlocksOf(origins: seq<Origin>): seq<string> {
    if origins == [] then [] else BlocksOf(origins[..|origins| - 1]) + NewBlocks(origins[|origins| - 1])
  }

  /** A chunk of at least one block; a further block was only added while everything fitted. */
  predicate FilledWithin(o: Origin, maxTokens: int) {
    && o.Merged? && NewBlocks(o) != []
    && (|NewBlocks(o)| >= 2 ==> SumEstimates(o.items) <= maxTokens)
  }

  /** The first block of the next chunk did not fit any more, and the next chunk repeats a tail if asked to. */
  predicate Tight(a: Origin, b: Origin, maxTokens: int, overlapTokens: int) {
    && a.Merged? && b.Merged? && NewBlocks(b) != []
    && SumEstimates(a.items) + Estimate(NewBlocks(b)[0]) > maxTokens
    && (overlapTokens != 0 ==> b.overlap > 0)
  }

  /** The chunks hold the blocks in order, and every chunk is as full as it can be. */
  predicate IsGreedy(origins: seq<Origin>, blocks: seq<string>, maxTokens: int, overlapTokens: int) {
    && BlocksOf(origins) == blocks
    && (forall i :: 0 <= i < |origins| ==> FilledWithin(origins[i], maxTokens))
    && (forall i :: 0 <= i < |origins| - 1 ==> Tight(origins[i], origins[i + 1], maxTokens, overlapTokens))
  }

  // ---- One block more ------------------------------------------------------------

  lemma BlocksOfSnoc(origins: seq<Origin>, o: Origin)
    ensures BlocksOf(origins + [o]) == BlocksOf(origins) + NewBlocks(o)
  {
    assert (origins + [o])[..|origins|] == origins;
  }

  lemma AppendChunk(os: seq<Origin>, o: Origin, blocks: seq<string>, block: string, maxTokens: int, overlapTokens: int)
    requires IsGreedy(os, blocks, maxTokens, overlapTokens)
    requires FilledWithin(o, maxTokens) && NewBlocks(o) == [block]
    requires os != [] ==> Tight(os[|os| - 1], o, maxTokens, overlapTokens)
    ensures IsGreedy(os + [o], blocks + [block], maxTokens, overlapTokens)
  {
    BlocksOfSnoc(os, o);
    var r := os + [o];
    forall i | 0 <= i < |r| - 1
      ensures Tight(r[i], r[i + 1], maxTokens, overlapTokens)
    {
      if i < |os| - 1 {
        assert r[i] == os[i] && r[i + 1] == os[i + 1];
      }
    }
  }

  /** A block added to the last chunk. */
  lemma GrowChunk(os: seq<Origin>, o: Origin, blocks: seq<string>, block: string, maxTokens: int, overlapTokens: int)
    requires o.Merged? && IsGreedy(os + [o], blocks, maxTokens, overlapTokens)
    requires SumEstimates(o.items) + Estimate(block) <= maxTokens
    ensures IsGreedy(os + [Merged(o.items + [block], o.overlap)], blocks + [block], maxTokens, overlapTokens)
  {
    var all, o' := os + [o], Merged(o.items + [block], o.overlap);
    var r := os + [o'];
    assert all[|os|] == o && FilledWithin(o, maxTokens);
    assert NewBlocks(o') == NewBlocks(o) + [block];
    assert (o.items + [block])[..|o.items|] == o.items;
    BlocksOfSnoc(os, o);
    BlocksOfSnoc(os, o');
    forall i | 0 <= i < |r|
      ensures FilledWithin(r[i], maxTokens)
    {
      assert i < |os| ==> r[i] == all[i] && FilledWithin(all[i], maxTokens);
    }
    forall i | 0 <= i < |r| - 1
      ensures Tight(r[i], r[i + 1], maxTokens, overlapTokens)
    {
      assert Tight(all[i], all[i + 1], maxTokens, overlapTokens);
    }
  }

  /** The finished chunks and the one being collected. */
  function Origins(p: Packing): seq<Origin> {
    if p.current == [] then p.origins else p.origins + [Merged(p.current, p.overlap)]
  }

  lemma FlushOrigins(p: Packing, done: seq<string>, maxTokens: int, overlapTokens: int)
    requires Holds(p, done, maxTokens, overlapTokens)
    ensures Flush(p).origins == Origins(p) && Flush(p).current == []
    ensures p.current != [] ==> Flush(p).chunks != [] && Words(Flush(p).chunks[|Flush(p).chunks| - 1].content) != []
  {
    if p.current != [] {
      GlueWords(p.current);
      assert Strip(Glue(p.current)) == Glue(p.current);
      BlockHasWords(Glue(p.current));
    }
  }

  lemma BlockHasWords(b: string)
    requires IsBlock(b)
    ensures Words(b) != []
  {}

  /** A text with words has a tail. */
  lemma TailExists(text: string, overlapTokens: int)
    requires Words(text) != []
    ensures Tail(text, overlapTokens) != "" && TailWords(text, overlapTokens) > 0
  {
    var words, n := Words(text), TailWords(text, overlapTokens);
    WordsAreWords(text);
    assert forall w :: w in words[|words| - n..] ==> w in words;
    UnwordsShape(words[|words| - n..]);
  }

  lemma StartLaid(p: Packing, overlapTokens: int)
    requires p.current == [] && p.overlap == 0 && p.chunks != []
    requires Words(p.chunks[|p.chunks| - 1].content) != []
    ensures var q := StartWithTail(p, overlapTokens);
      && q.origins == p.origins
      && (overlapTokens == 0 ==> q.current == [] && q.overlap == 0)
      && (overlapTokens != 0 ==> |q.current| == 1 && q.overlap > 0)
  {
    if overlapTokens != 0 {
      TailExists(p.chunks[|p.chunks| - 1].content, overlapTokens);
    }
  }

  /** Starting the next chunk with a block that does not fit the current one. */
  lemma NextChunk(p: Packing, done: seq<string>, blocks: seq<string>, block: string, maxTokens: int, overlapTokens: int)
    requires Holds(p, done, maxTokens, overlapTokens) && p.current != []
    requires IsGreedy(Origins(p), blocks, maxTokens, overlapTokens)
    requires SumEstimates(p.current) + Estimate(block) > maxTokens
    ensures var q := AddBlock(StartWithTail(Flush(p), overlapTokens), block);
      q.current != [] && IsGreedy(Origins(q), blocks + [block], maxTokens, overlapTokens)
  {
    FlushOrigins(p, done, maxTokens, overlapTokens);
    StartLaid(Flush(p), overlapTokens);
    var q := AddBlock(StartWithTail(Flush(p), overlapTokens), block);
    assert NewPart(q.current, q.overlap) == [block];
    AppendChunk(Origins(p), Merged(q.current, q.overlap), blocks, block, maxTokens, overlapTokens);
  }

  lemma FirstChunk(block: string, maxTokens: int, overlapTokens: int)
    ensures var q := AddBlock(EMPTY, block);
      q.current == [block] && IsGreedy(Origins(q), [block], maxTokens, overlapTokens)
  {
    var o := Merged([block], 0);
    assert [] + [o] == [o];
    AppendChunk([], o, [], block, maxTokens, overlapTokens);
    assert [] + [block] == [block];
  }

  predicate PacksGreedily(p: Packing, blocks: seq<string>, maxTokens: int, overlapTokens: int) {
    && IsGreedy(Origins(p), blocks, maxTokens, overlapTokens)
    && (p.current == [] ==> blocks == [])
  }

  lemma {:induction false} PackIsGreedy(blocks: seq<string>, maxTokens: int, overlapTokens: int)
    requires maxTokens >= 1 && AreBlocks(blocks) && AllFit(blocks, maxTokens)
    ensures PacksGreedily(Pack(blocks, maxTokens, overlapTokens), blocks, maxTokens, overlapTokens)
  {
    if blocks != [] {
      var n := |blocks| - 1;
      var front, block := blocks[..n], blocks[n];
      assert blocks == front + [block] && block in blocks;
      FrontFits(front, blocks, maxTokens);
      PackIsGreedy(front, maxTokens, overlapTokens);
      GreedyAppend(front, block, maxTokens, overlapTokens);
    }
  }

  lemma GreedyAppend(front: seq<string>, block: string, maxTokens: int, overlapTokens: int)
    requires maxTokens >= 1 && AreBlocks(front) && Estimate(block) <= maxTokens
    requires PacksGreedily(Pack(front, maxTokens, overlapTokens), front, maxTokens, overlapTokens)
    ensures PacksGreedily(Pack(front + [block], maxTokens, overlapTokens), front + [block], maxTokens, overlapTokens)
  {
    PackHolds(front, maxTokens, overlapTokens);
    PackAppend(front, block, maxTokens, overlapTokens);
    GreedyStep(Pack(front, maxTokens, overlapTokens), front, block, maxTokens, overlapTokens);
  }

  lemma FrontFits(front: seq<string>, blocks: seq<string>, maxTokens: int)
    requires front <= blocks && AreBlocks(blocks) && AllFit(blocks, maxTokens)
    ensures AreBlocks(front) && AllFit(front, maxTokens)
  {
    assert forall b :: b in front ==> b in blocks;
  }

  lemma PackAppend(blocks: seq<string>, block: string, maxTokens: int, overlapTokens: int)
    ensures Pack(blocks + [block], maxTokens, overlapTokens) ==
      Step(Pack(blocks, maxTokens, overlapTokens), block, maxTokens, overlapTokens)
  {
    assert (blocks + [block])[..|blocks|] == blocks;
  }

  lemma GreedyStep(p: Packing, front: seq<string>, block: string, maxTokens: int, overlapTokens: int)
    requires Holds(p, AllWords(front), maxTokens, overlapTokens) && Estimate(block) <= maxTokens
    requires PacksGreedily(p, front, maxTokens, overlapTokens)
    requires front == [] ==> p == EMPTY
    ensures PacksGreedily(Step(p, block, maxTokens, overlapTokens), front + [block], maxTokens, overlapTokens)
  {
    if p.current == [] {
      FirstChunk(block, maxTokens, overlapTokens);
      assert front + [block] == [block];
    } else if p.tokens + Estimate(block) > maxTokens {
      NextChunk(p, AllWords(front), front, block, maxTokens, overlapTokens);
    } else {
      GrowChunk(p.origins, Merged(p.current, p.overlap), front, block, maxTokens, overlapTokens);
    }
  }

  // ---- The theorems ----------------------------------------------------------------

  /**
   When every block of the text fits the budget, the chunks hold the blocks in order, and between
   neighbouring chunks the first block of the later one would have exceeded the budget of the earlier
   one; with an overlap asked for, every later chunk starts with one.
   */
  lemma FittingBlocksArePackedGreedily(text: string, maxTokens: int, overlapTokens: int)
    requires maxTokens >= 1 && AllFit(SplitBlocks(text), maxTokens)
    ensures var p := Chunked(text, maxTokens, overlapTokens);
      && |p.chunks| == |p.origins|
      && IsGreedy(p.origins, SplitBlocks(text), maxTokens, overlapTokens)
  {
    var blocks := SplitBlocks(text);
    PackIsGreedy(blocks, maxTokens, overlapTokens);
    PackHolds(blocks, maxTokens, overlapTokens);
    FlushOrigins(Pack(blocks, maxTokens, overlapTokens), AllWords(blocks), maxTokens, overlapTokens);
    FlushHolds(Pack(blocks, maxTokens, overlapTokens), AllWords(blocks), maxTokens, overlapTokens);
  }

  lemma SumSnoc(items: seq<string>, b: string)
    ensures SumEstimates(items + [b]) == SumEstimates(items) + Estimate(b)
  {
    assert (items + [b])[..|items|] == items;
  }

  lemma {:induction false} SumOfParts(a: seq<string>, b: seq<string>)
    ensures SumEstimates(a + b) == SumEstimates(a) + SumEstimates(b)
  {
    if b == [] {
      assert a + b == a;
    } else {
      var front, last := b[..|b| - 1], b[|b| - 1];
      assert b == front + [last] && a + b == (a + front) + [last];
      SumOfParts(a, front);
      SumSnoc(front, last);
      SumSnoc(a + front, last);
    }
  }

  lemma {:induction false} FirstBlocks(origins: seq<Origin>)
    requires |origins| >= 2
    ensures NewBlocks(origins[0]) + NewBlocks(origins[1]) <= BlocksOf(origins)
  {
    var n := |origins| - 1;
    if n == 1 {
      assert origins[..1] == [] + [origins[0]];
      BlocksOfSnoc([], origins[0]);
    } else {
      FirstBlocks(origins[..n]);
    }
  }

  /** Chunks whose first one has no overlap hold more than the budget as soon as there are two. */
  lemma TwoChunksOverflow(origins: seq<Origin>, blocks: seq<string>, maxTokens: int, overlapTokens: int)
    requires |origins| >= 2 && OverlapWords(origins[0]) == 0
    requires IsGreedy(origins, blocks, maxTokens, overlapTokens)
    ensures SumEstimates(blocks) > maxTokens
  {
    var a, b := NewBlocks(origins[0]), NewBlocks(origins[1]);
    assert Tight(origins[0], origins[1], maxTokens, overlapTokens);
    FirstBlocks(origins);
    PrefixSum(a, b, blocks);
  }

  lemma PrefixSum(a: seq<string>, b: seq<string>, blocks: seq<string>)
    requires b != [] && a + b <= blocks
    ensures SumEstimates(blocks) >= SumEstimates(a) + Estimate(b[0])
  {
    var first, more := [b[0]], blocks[|a| + 1..];
    assert blocks == a + (first + more);
    SumOfParts(a, first + more);
    SumOfParts(first, more);
    assert first[..0] == [];
  }

  lemma OneChunkFits(o: Origin, blocks: seq<string>, maxTokens: int, overlapTokens: int)
    requires IsGreedy([o], blocks, maxTokens, overlapTokens) && OverlapWords(o) == 0 && AllFit(blocks, maxTokens)
    ensures SumEstimates(blocks) <= maxTokens
  {
    assert [o] == [] + [o];
    BlocksOfSnoc([], o);
    assert FilledWithin([o][0], maxTokens);
    assert blocks == o.items;
    if |blocks| == 1 {
      assert blocks[..0] == [] && blocks[0] in blocks;
    }
  }

  /** Blocks that fit one by one make a single chunk exactly when they fit together. */
  lemma SingleChunkIff(text: string, maxTokens: int, overlapTokens: int)
    requires maxTokens >= 1 && AllFit(SplitBlocks(text), maxTokens) && SplitBlocks(text) != []
    ensures |Chunked(text, maxTokens, overlapTokens).chunks| == 1 <==> SumEstimates(SplitBlocks(text)) <= maxTokens
  {
    var blocks, p := SplitBlocks(text), Chunked(text, maxTokens, overlapTokens);
    FittingBlocksArePackedGreedily(text, maxTokens, overlapTokens);
    FirstHasNoOverlap(text, maxTokens, overlapTokens);
    if |p.origins| >= 2 {
      TwoChunksOverflow(p.origins, blocks, maxTokens, overlapTokens);
    } else if |p.origins| == 1 {
      assert p.origins == [p.origins[0]];
      OneChunkFits(p.origins[0], blocks, maxTokens, overlapTokens);
    }
  }

  lemma FirstHasNoOverlap(text: string, maxTokens: int, overlapTokens: int)
    requires maxTokens >= 1
    ensures var p := Chunked(text, maxTokens, overlapTokens);
      |p.chunks| == |p.origins| && (p.origins != [] ==> OverlapWords(p.origins[0]) == 0)
  {
    ChunkingIsFaithful(text, maxTokens, overlapTokens);
    var p := Chunked(text, maxTokens, overlapTokens);
    if p.origins != [] {
      assert ChunkOk(p.chunks, 0, p.origins[0], maxTokens, overlapTokens);
    }
  }

  // ---- Blocks that do not fit --------------------------------------------------------

  function Contents(chunks: seq<TextChunk>): seq<string> {
    seq(|chunks|, i requires 0 <= i < |chunks| => chunks[i].content)
  }

  /** `p` is as far as `r`, behind what `q` holds already. */
  predicate Behind(p: Packing, r: Packing, q: Packing) {
    && Contents(p.chunks) == Contents(q.chunks) + Contents(r.chunks)
    && p.origins == q.origins + r.origins
    && p.current == r.current && p.tokens == r.tokens && p.overlap == r.overlap
  }

  lemma ContentsSnoc(chunks: seq<TextChunk>, c: TextChunk)
    ensures Contents(chunks + [c]) == Contents(chunks) + [c.content]
  {}

  lemma FlushBehind(p: Packing, r: Packing, q: Packing)
    requires Behind(p, r, q)
    ensures Behind(Flush(p), Flush(r), q)
  {
    if r.current != [] && Strip(Glue(r.current)) != "" {
      var content := Strip(Glue(r.current));
      ContentsSnoc(p.chunks, TextChunk(p.index, content, Estimate(content)));
      ContentsSnoc(r.chunks, TextChunk(r.index, content, Estimate(content)));
    }
  }

  lemma {:induction false} AddPiecesContents(p: Packing, pieces: seq<string>)
    ensures var q := AddPieces(p, pieces);
      && Contents(q.chunks) == Contents(p.chunks) + pieces
      && q.current == p.current && q.tokens == p.tokens && q.overlap == p.overlap
  {
    if pieces == [] {
    } else {
      var n := |pieces| - 1;
      var q := AddPieces(p, pieces[..n]);
      AddPiecesContents(p, pieces[..n]);
      ContentsSnoc(q.chunks, TextChunk(q.index, pieces[n], Estimate(pieces[n])));
      assert pieces == pieces[..n] + [pieces[n]];
    }
  }

  lemma {:induction false} AddPiecesBehind(p: Packing, r: Packing, q: Packing, pieces: seq<string>)
    requires Behind(p, r, q)
    ensures Behind(AddPieces(p, pieces), AddPieces(r, pieces), q)
  {
    AddPiecesContents(p, pieces);
    AddPiecesContents(r, pieces);
    if pieces != [] {
      AddPiecesBehind(p, r, q, pieces[..|pieces| - 1]);
    }
  }

  lemma LastContents(p: seq<TextChunk>, q: seq<TextChunk>, r: seq<TextChunk>)
    requires r != [] && Contents(p) == Contents(q) + Contents(r)
    ensures p != [] && p[|p| - 1].content == r[|r| - 1].content
  {
    assert |Contents(p)| == |p| && Contents(p)[|p| - 1] == Contents(r)[|r| - 1];
  }

  lemma StartBehind(p: Packing, r: Packing, q: Packing, overlapTokens: int)
    requires Behind(p, r, q) && r.chunks != []
    ensures Behind(StartWithTail(p, overlapTokens), StartWithTail(r, overlapTokens), q)
  {
    LastContents(p.chunks, q.chunks, r.chunks);
  }

  lemma StepBehind(
    p: Packing, r: Packing, q: Packing, done: seq<string>, block: string, maxTokens: int, overlapTokens: int)
    requires Behind(p, r, q) && Holds(r, done, maxTokens, overlapTokens)
    ensures Behind(Step(p, block, maxTokens, overlapTokens), Step(r, block, maxTokens, overlapTokens), q)
  {
    FlushBehind(p, r, q);
    if Estimate(block) > maxTokens {
      AddPiecesBehind(Flush(p), Flush(r), q, SplitPieces(block, maxTokens));
    } else if r.current != [] && r.tokens + Estimate(block) > maxTokens {
      FlushOrigins(r, done, maxTokens, overlapTokens);
      StartBehind(Flush(p), Flush(r), q, overlapTokens);
    }
  }

  predicate Idle(q: Packing) {
    q.current == [] && q.tokens == 0 && q.overlap == 0
  }

  lemma BehindStep(first: seq<string>, more: seq<string>, block: string, maxTokens: int, overlapTokens: int)
    requires maxTokens >= 1 && AreBlocks(more)
    requires Behind(Pack(first + more, maxTokens, overlapTokens), Pack(more, maxTokens, overlapTokens),
               Pack(first, maxTokens, overlapTokens))
    ensures Behind(Pack(first + (more + [block]), maxTokens, overlapTokens),
              Pack(more + [block], maxTokens, overlapTokens), Pack(first, maxTokens, overlapTokens))
  {
    PackHolds(more, maxTokens, overlapTokens);
    Associative(first, more, [block]);
    PackedBoth(first + more, more, block, maxTokens, overlapTokens);
    StepBehind(Pack(first + more, maxTokens, overlapTokens), Pack(more, maxTokens, overlapTokens),
      Pack(first, maxTokens, overlapTokens), AllWords(more), block, maxTokens, overlapTokens);
  }

  lemma PackedBoth(a: seq<string>, b: seq<string>, block: string, maxTokens: int, overlapTokens: int)
    ensures Pack(a + [block], maxTokens, overlapTokens) ==
      Step(Pack(a, maxTokens, overlapTokens), block, maxTokens, overlapTokens)
    ensures Pack(b + [block], maxTokens, overlapTokens) ==
      Step(Pack(b, maxTokens, overlapTokens), block, maxTokens, overlapTokens)
  {
    PackAppend(a, block, maxTokens, overlapTokens);
    PackAppend(b, block, maxTokens, overlapTokens);
  }

  /** What is packed behind an idle state does not depend on it. */
  lemma {:induction false} PackBehind(first: seq<string>, more: seq<string>, maxTokens: int, overlapTokens: int)
    requires maxTokens >= 1 && AreBlocks(more) && Idle(Pack(first, maxTokens, overlapTokens))
    ensures Behind(Pack(first + more, maxTokens, overlapTokens), Pack(more, maxTokens, overlapTokens),
              Pack(first, maxTokens, overlapTokens))
  {
    if more == [] {
      assert first + more == first;
      NothingBehind(Pack(first, maxTokens, overlapTokens));
    } else {
      var n := |more| - 1;
      assert more == more[..n] + [more[n]];
      PackBehind(first, more[..n], maxTokens, overlapTokens);
      BehindStep(first, more[..n], more[n], maxTokens, overlapTokens);
    }
  }

  lemma NothingBehind(q: Packing)
    requires Idle(q)
    ensures Behind(q, EMPTY, q)
  {}

  lemma LongStep(first: seq<string>, long: string, maxTokens: int, overlapTokens: int)
    requires maxTokens >= 1 && AreBlocks(first) && Estimate(long) > maxTokens
    ensures var q := Pack(first + [long], maxTokens, overlapTokens);
      && Idle(q)
      && Contents(q.chunks) ==
        Contents(Flush(Pack(first, maxTokens, overlapTokens)).chunks) + SplitPieces(long, maxTokens)
  {
    var p := Pack(first, maxTokens, overlapTokens);
    PackHolds(first, maxTokens, overlapTokens);
    FlushHolds(p, AllWords(first), maxTokens, overlapTokens);
    assert (first + [long])[..|first|] == first;
    AddPiecesContents(Flush(p), SplitPieces(long, maxTokens));
  }

  /**
   A block over the budget separates: before and behind it the text is chunked as if it stood alone,
   and in between stand the pieces of the block.
   */
  lemma LongBlockSeparates(
    text: string, before: string, long: string, behind: string, maxTokens: int, overlapTokens: int)
    requires maxTokens >= 1 && Estimate(long) > maxTokens
    requires SplitBlocks(text) == SplitBlocks(before) + [long] + SplitBlocks(behind)
    ensures Contents(Chunked(text, maxTokens, overlapTokens).chunks) ==
      Contents(Chunked(before, maxTokens, overlapTokens).chunks) + SplitPieces(long, maxTokens)
        + Contents(Chunked(behind, maxTokens, overlapTokens).chunks)
  {
    var a, b := SplitBlocks(before), SplitBlocks(behind);
    LongStep(a, long, maxTokens, overlapTokens);
    PackBehind(a + [long], b, maxTokens, overlapTokens);
    FlushBehind(Pack(a + [long] + b, maxTokens, overlapTokens), Pack(b, maxTokens, overlapTokens),
      Pack(a + [long], maxTokens, overlapTokens));
  }
}
