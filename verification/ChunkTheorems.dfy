/**
 What chunking guarantees for every text: no word lost or reordered but the oversized ones, and a
 bound on the size of every chunk.
 */
module ChunkTheorems {
  import opened Text
  import opened Chunking

  function SumEstimates(items: seq<string>): nat {
    if items == [] then 0 else SumEstimates(items[..|items| - 1]) + Estimate(items[|items| - 1])
  }

  predicate AreBlocks(items: seq<string>) {
    forall b :: b in items ==> IsBlock(b)
  }

  function OverlapWords(o: Origin): nat {
    if o.Merged? then o.overlap else 0
  }

  /** The size a chunk may reach: the budget, its overlap, and the slack of floors and separators. */
  function SizeBound(o: Origin, maxTokens: int): int {
    match o
    case Piece => maxTokens
    case Merged(items, overlap) =>
      maxTokens + (if overlap > 0 && items != [] then Estimate(items[0]) else 0) + (5 * |items| - 2) / 4
  }

  /** The overlap at the front of a chunk is the tail of the chunk before it. */
  predicate OverlapOk(chunks: seq<TextChunk>, i: nat, first: string, overlap: nat, overlapTokens: int)
    requires i <= |chunks|
  {
    overlap > 0 ==>
      && i > 0 && overlapTokens != 0
      && overlap == TailWords(chunks[i - 1].content, overlapTokens)
      && first == Tail(chunks[i - 1].content, overlapTokens)
  }

  /** One finished chunk. */
  predicate ChunkOk(chunks: seq<TextChunk>, i: nat, o: Origin, maxTokens: int, overlapTokens: int)
    requires i < |chunks|
  {
    var c := chunks[i];
    && c.index == i
    && c.content != ""
    && c.tokenCount == Estimate(c.content) <= SizeBound(o, maxTokens)
    && OverlapWords(o) <= |Words(c.content)|
    && (o.Merged? ==>
      && o.items != [] && c.content == Glue(o.items)
      && OverlapOk(chunks, i, o.items[0], o.overlap, overlapTokens))
  }

  predicate ChunksOk(p: Packing, maxTokens: int, overlapTokens: int) {
    && |p.chunks| == |p.origins| == p.index
    && forall i :: 0 <= i < |p.chunks| ==> ChunkOk(p.chunks, i, p.origins[i], maxTokens, overlapTokens)
  }

  /** The words of one chunk without its overlap. */
  function Fresh(words: seq<string>, overlap: nat): seq<string> {
    if overlap <= |words| then words[overlap..] else []
  }

  /** The words of the chunks, each without its overlap, in order. */
  function Reassembled(chunks: seq<TextChunk>, origins: seq<Origin>): seq<string>
    requires |chunks| == |origins|
  {
    if chunks == [] then []
    else
      var n := |chunks| - 1;
      Reassembled(chunks[..n], origins[..n]) + Fresh(Words(chunks[n].content), OverlapWords(origins[n]))
  }

  /** The items being collected: blocks within the budget, behind at most one overlap. */
  predicate CurrentOk(p: Packing, maxTokens: int, overlapTokens: int) {
    && AreBlocks(p.current)
    && p.tokens == SumEstimates(p.current)
    && (p.current == [] ==> p.overlap == 0)
    && (p.current != [] ==>
      && p.tokens <= maxTokens + (if p.overlap > 0 then Estimate(p.current[0]) else 0)
      && p.overlap <= |AllWords(p.current)|
      && OverlapOk(p.chunks, |p.chunks|, p.current[0], p.overlap, overlapTokens))
  }

  /** Everything said so far: the chunks and the current items hold exactly the kept words of `done`. */
  predicate Holds(p: Packing, done: seq<string>, maxTokens: int, overlapTokens: int) {
    && ChunksOk(p, maxTokens, overlapTokens)
    && CurrentOk(p, maxTokens, overlapTokens)
    && Reassembled(p.chunks, p.origins) + Fresh(AllWords(p.current), p.overlap) == Kept(done, maxTokens)
  }

  // ---- Joining items -------------------------------------------------------

  function TotalLength(items: seq<string>): nat {
    if items == [] then 0 else |items[0]| + TotalLength(items[1..])
  }

  lemma {:induction false} GlueLength(items: seq<string>)
    requires items != []
    ensures |Glue(items)| == TotalLength(items) + 2 * (|items| - 1)
  {
    if |items| > 1 {
      GlueLength(items[1..]);
    } else {
      assert items[1..] == [];
    }
  }

  lemma {:induction false} GlueWords(items: seq<string>)
    requires items != [] && AreBlocks(items)
    ensures IsBlock(Glue(items)) && Words(Glue(items)) == AllWords(items)
  {
    var b, rest := items[0], items[1..];
    assert b in items;
    if rest == [] {
      AllWordsOne(b);
    } else {
      GlueWords(rest);
      assert Glue(items) == b + ("\n\n" + Glue(rest));
      GapWords(b, "\n\n", Glue(rest));
    }
  }

  lemma {:induction false} TotalLengthSnoc(items: seq<string>, b: string)
    ensures TotalLength(items + [b]) == TotalLength(items) + |b|
  {
    if items == [] {
      assert items + [b] == [b];
    } else {
      assert (items + [b])[1..] == items[1..] + [b];
      TotalLengthSnoc(items[1..], b);
    }
  }

  lemma BlockEstimate(b: string)
    requires IsBlock(b)
    ensures |Words(b)| <= Estimate(b) && |b| <= 4 * Estimate(b) + 3
  {}

  /** The estimates bound the words and, up to three characters an item, the characters. */
  lemma {:induction false} EstimatesCover(items: seq<string>)
    requires AreBlocks(items)
    ensures |AllWords(items)| <= SumEstimates(items)
    ensures TotalLength(items) <= 4 * SumEstimates(items) + 3 * |items|
  {
    if items != [] {
      var n := |items| - 1;
      var rest, b := items[..n], items[n];
      assert items == rest + [b] && b in items;
      EstimatesCover(rest);
      BlockEstimate(b);
      AllWordsConcat(rest, [b]);
      AllWordsOne(b);
      TotalLengthSnoc(rest, b);
    }
  }

  /** Joining items costs at most five quarters of a token an item. */
  lemma GlueEstimate(items: seq<string>)
    requires items != [] && AreBlocks(items)
    ensures Estimate(Glue(items)) <= SumEstimates(items) + (5 * |items| - 2) / 4
  {
    GlueWords(items);
    GlueLength(items);
    EstimatesCover(items);
    GlueEstimateFrom(Glue(items), |AllWords(items)|, SumEstimates(items), |items|);
  }

  lemma GlueEstimateFrom(s: string, words: nat, sum: nat, n: nat)
    requires IsBlock(s) && |Words(s)| == words <= sum && n >= 1
    requires |s| <= 4 * sum + 3 * n + 2 * (n - 1)
    ensures Estimate(s) <= sum + (5 * n - 2) / 4
  {}

  // ---- One step ------------------------------------------------------------

  lemma ChunkOkPrefix(chunks: seq<TextChunk>, c: TextChunk, i: nat, o: Origin, maxTokens: int, overlapTokens: int)
    requires i < |chunks| && ChunkOk(chunks, i, o, maxTokens, overlapTokens)
    ensures ChunkOk(chunks + [c], i, o, maxTokens, overlapTokens)
  {
    assert i > 0 ==> (chunks + [c])[i - 1] == chunks[i - 1];
  }

  lemma AppendOk(p: Packing, c: TextChunk, o: Origin, maxTokens: int, overlapTokens: int)
    requires ChunksOk(p, maxTokens, overlapTokens)
    requires ChunkOk(p.chunks + [c], |p.chunks|, o, maxTokens, overlapTokens)
    ensures ChunksOk(p.(chunks := p.chunks + [c], index := p.index + 1, origins := p.origins + [o]),
      maxTokens, overlapTokens)
    ensures Reassembled(p.chunks + [c], p.origins + [o]) ==
      Reassembled(p.chunks, p.origins) + Fresh(Words(c.content), OverlapWords(o))
  {
    var chunks, origins := p.chunks + [c], p.origins + [o];
    forall i | 0 <= i < |chunks|
      ensures ChunkOk(chunks, i, origins[i], maxTokens, overlapTokens)
    {
      if i < |p.chunks| {
        ChunkOkPrefix(p.chunks, c, i, p.origins[i], maxTokens, overlapTokens);
      }
    }
    assert chunks[..|p.chunks|] == p.chunks && origins[..|p.chunks|] == p.origins;
  }

  lemma FlushHolds(p: Packing, done: seq<string>, maxTokens: int, overlapTokens: int)
    requires Holds(p, done, maxTokens, overlapTokens)
    ensures Holds(Flush(p), done, maxTokens, overlapTokens) && Flush(p).current == []
  {
    if p.current != [] {
      var content := Glue(p.current);
      GlueWords(p.current);
      GlueEstimate(p.current);
      assert Strip(content) == content;
      var c, o := TextChunk(p.index, content, Estimate(content)), Merged(p.current, p.overlap);
      MergedOk(p, c, maxTokens, overlapTokens);
      AppendOk(p, c, o, maxTokens, overlapTokens);
    }
  }

  lemma MergedOk(p: Packing, c: TextChunk, maxTokens: int, overlapTokens: int)
    requires p.current != [] && |p.chunks| == p.index && CurrentOk(p, maxTokens, overlapTokens)
    requires c.index == p.index && c.content == Glue(p.current) != "" && Words(c.content) == AllWords(p.current)
    requires c.tokenCount == Estimate(c.content) <= SumEstimates(p.current) + (5 * |p.current| - 2) / 4
    ensures ChunkOk(p.chunks + [c], |p.chunks|, Merged(p.current, p.overlap), maxTokens, overlapTokens)
  {
    assert p.index > 0 ==> (p.chunks + [c])[p.index - 1] == p.chunks[p.index - 1];
  }

  lemma PieceOk(p: Packing, piece: string, maxTokens: int, overlapTokens: int)
    requires ChunksOk(p, maxTokens, overlapTokens) && IsBlock(piece) && Estimate(piece) <= maxTokens
    ensures var c := TextChunk(p.index, piece, Estimate(piece));
      && ChunksOk(p.(chunks := p.chunks + [c], index := p.index + 1, origins := p.origins + [Piece]),
        maxTokens, overlapTokens)
      && Reassembled(p.chunks + [c], p.origins + [Piece]) == Reassembled(p.chunks, p.origins) + Words(piece)
  {
    AppendOk(p, TextChunk(p.index, piece, Estimate(piece)), Piece, maxTokens, overlapTokens);
  }

  predicate AreFitting(pieces: seq<string>, maxTokens: int) {
    forall i :: 0 <= i < |pieces| ==> IsBlock(pieces[i]) && Estimate(pieces[i]) <= maxTokens
  }

  lemma {:induction false} AddPiecesChunks(p: Packing, pieces: seq<string>, maxTokens: int, overlapTokens: int)
    requires ChunksOk(p, maxTokens, overlapTokens) && AreFitting(pieces, maxTokens)
    ensures var q := AddPieces(p, pieces);
      && ChunksOk(q, maxTokens, overlapTokens)
      && q.current == p.current && q.tokens == p.tokens && q.overlap == p.overlap
      && Reassembled(q.chunks, q.origins) == Reassembled(p.chunks, p.origins) + AllWords(pieces)
  {
    if pieces != [] {
      var n := |pieces| - 1;
      var q, piece := AddPieces(p, pieces[..n]), pieces[n];
      AddPiecesChunks(p, pieces[..n], maxTokens, overlapTokens);
      PieceOk(q, piece, maxTokens, overlapTokens);
      AllWordsSnoc(pieces);
      AppendWords(Reassembled(p.chunks, p.origins), AllWords(pieces[..n]),
        Words(piece), Reassembled(q.chunks, q.origins));
    }
  }

  lemma AllWordsSnoc(texts: seq<string>)
    requires texts != []
    ensures AllWords(texts) == AllWords(texts[..|texts| - 1]) + Words(texts[|texts| - 1])
  {
    var n := |texts| - 1;
    assert texts == texts[..n] + [texts[n]];
    AllWordsConcat(texts[..n], [texts[n]]);
    AllWordsOne(texts[n]);
  }

  lemma {:induction false} WordsAreShort(s: string)
    ensures forall w :: w in Words(s) ==> |w| <= |s|
    decreases |s|
  {
    if s == "" {
    } else if IsSpace(s[0]) {
      WordsAreShort(s[1..]);
    } else {
      RunEnds(NonSpace, s);
      WordsAreShort(s[Run(NonSpace, s)..]);
    }
  }

  lemma WordEstimate(w: string, b: string)
    requires IsBlock(b) && w in Words(b)
    ensures Estimate(w) <= Estimate(b)
  {
    WordsAreShort(b);
    WordsAreWords(b);
    WordsOfWord(w);
    assert w[0] in w && w[|w| - 1] in w;
  }

  /** A block within the budget keeps all its words. */
  lemma FittingBlock(b: string, maxTokens: int)
    requires IsBlock(b) && Estimate(b) <= maxTokens
    ensures Kept(Words(b), maxTokens) == Words(b)
  {
    forall w | w in Words(b)
      ensures Estimate(w) <= maxTokens
    {
      WordEstimate(w, b);
    }
    KeptAll(Words(b), maxTokens);
  }

  lemma FreshAppend(words: seq<string>, more: seq<string>, overlap: nat)
    requires overlap <= |words|
    ensures Fresh(words + more, overlap) == Fresh(words, overlap) + more
  {}

  /** What one more block may weigh. */
  predicate HasRoom(p: Packing, block: string, maxTokens: int) {
    p.tokens + Estimate(block) <= maxTokens + if p.current != [] && p.overlap > 0 then Estimate(p.current[0]) else 0
  }

  lemma AddBlockWords(p: Packing, block: string, done: seq<string>, maxTokens: int)
    requires IsBlock(block) && Estimate(block) <= maxTokens
    requires p.overlap <= |AllWords(p.current)|
    ensures AllWords(p.current + [block]) == AllWords(p.current) + Words(block)
    ensures Fresh(AllWords(p.current + [block]), p.overlap) == Fresh(AllWords(p.current), p.overlap) + Words(block)
    ensures Kept(done + Words(block), maxTokens) == Kept(done, maxTokens) + Words(block)
  {
    AllWordsConcat(p.current, [block]);
    AllWordsOne(block);
    FreshAppend(AllWords(p.current), Words(block), p.overlap);
    FittingBlock(block, maxTokens);
    KeptConcat(done, Words(block), maxTokens);
  }

  lemma AddBlockHolds(p: Packing, block: string, done: seq<string>, maxTokens: int, overlapTokens: int)
    requires Holds(p, done, maxTokens, overlapTokens)
    requires IsBlock(block) && Estimate(block) <= maxTokens && HasRoom(p, block, maxTokens)
    ensures Holds(AddBlock(p, block), done + Words(block), maxTokens, overlapTokens)
  {
    AddBlockWords(p, block, done, maxTokens);
    AddBlockCurrent(p, block, maxTokens, overlapTokens);
    AddBlockChunks(p, block, maxTokens, overlapTokens);
    AppendWords(Reassembled(p.chunks, p.origins), Fresh(AllWords(p.current), p.overlap),
      Words(block), Kept(done, maxTokens));
  }

  lemma AppendWords(a: seq<string>, b: seq<string>, c: seq<string>, whole: seq<string>)
    requires a + b == whole
    ensures a + (b + c) == whole + c
  {}

  lemma AddBlockChunks(p: Packing, block: string, maxTokens: int, overlapTokens: int)
    requires ChunksOk(p, maxTokens, overlapTokens)
    ensures ChunksOk(AddBlock(p, block), maxTokens, overlapTokens)
  {}

  lemma AddBlockCurrent(p: Packing, block: string, maxTokens: int, overlapTokens: int)
    requires CurrentOk(p, maxTokens, overlapTokens)
    requires AllWords(p.current + [block]) == AllWords(p.current) + Words(block)
    requires IsBlock(block) && HasRoom(p, block, maxTokens)
    ensures CurrentOk(AddBlock(p, block), maxTokens, overlapTokens)
  {
    assert (p.current + [block])[..|p.current|] == p.current;
  }

  /** Repeating the tail of the last chunk adds nothing fresh. */
  lemma StartWithTailHolds(p: Packing, done: seq<string>, maxTokens: int, overlapTokens: int)
    requires maxTokens >= 1 && p.current == [] && Holds(p, done, maxTokens, overlapTokens)
    ensures var q := StartWithTail(p, overlapTokens);
      && Holds(q, done, maxTokens, overlapTokens)
      && (q.current == [] || (q.overlap > 0 && |q.current| == 1))
  {
    var q := StartWithTail(p, overlapTokens);
    if q.current != [] {
      var last := p.chunks[|p.chunks| - 1].content;
      var n := TailWords(last, overlapTokens);
      TailShape(last, overlapTokens);
      AllWordsOne(q.current[0]);
      assert q.current[..0] == [];
      assert Fresh(AllWords(q.current), n) == [];
    }
  }

  lemma LastWordsShape(words: seq<string>, n: nat)
    requires AreWords(words) && n <= |words| && LastWords(words, n) != ""
    ensures IsBlock(LastWords(words, n)) && |Words(LastWords(words, n))| == n > 0
  {
    var last := words[|words| - n..];
    assert forall w :: w in last ==> w in words;
    if n > 0 {
      UnwordsShape(last);
    }
  }

  lemma TailShape(text: string, overlapTokens: int)
    requires Tail(text, overlapTokens) != ""
    ensures IsBlock(Tail(text, overlapTokens))
    ensures |Words(Tail(text, overlapTokens))| == TailWords(text, overlapTokens) > 0
  {
    WordsAreWords(text);
    LastWordsShape(Words(text), TailWords(text, overlapTokens));
  }

  lemma LongBlockHolds(p: Packing, block: string, done: seq<string>, maxTokens: int, overlapTokens: int)
    requires p.current == [] && Holds(p, done, maxTokens, overlapTokens)
    ensures Holds(AddPieces(p, SplitPieces(block, maxTokens)), done + Words(block), maxTokens, overlapTokens)
  {
    SplitFacts(block, maxTokens);
    KeptConcat(done, Words(block), maxTokens);
    PiecesHold(p, SplitPieces(block, maxTokens), done, Words(block), maxTokens, overlapTokens);
  }

  lemma PiecesHold(p: Packing, pieces: seq<string>,
    done: seq<string>, words: seq<string>, maxTokens: int, overlapTokens: int)
    requires p.current == [] && Holds(p, done, maxTokens, overlapTokens) && AreFitting(pieces, maxTokens)
    requires Kept(done + words, maxTokens) == Kept(done, maxTokens) + AllWords(pieces)
    ensures Holds(AddPieces(p, pieces), done + words, maxTokens, overlapTokens)
  {
    AddPiecesChunks(p, pieces, maxTokens, overlapTokens);
    NothingCurrent(p, Reassembled(p.chunks, p.origins));
    NothingCurrent(AddPieces(p, pieces), Reassembled(p.chunks, p.origins) + AllWords(pieces));
    IdleOk(p, AddPieces(p, pieces), maxTokens, overlapTokens);
  }

  lemma NothingCurrent(p: Packing, words: seq<string>)
    requires p.current == [] && p.overlap == 0
    ensures words + Fresh(AllWords(p.current), p.overlap) == words
  {}

  lemma IdleOk(p: Packing, q: Packing, maxTokens: int, overlapTokens: int)
    requires CurrentOk(p, maxTokens, overlapTokens) && p.current == [] == q.current
    requires q.tokens == p.tokens && q.overlap == p.overlap
    ensures CurrentOk(q, maxTokens, overlapTokens)
  {}

  lemma FullHolds(p: Packing, block: string, done: seq<string>, maxTokens: int, overlapTokens: int)
    requires p.current == [] && Holds(p, done, maxTokens, overlapTokens)
    requires maxTokens >= 1 && IsBlock(block) && Estimate(block) <= maxTokens
    ensures Holds(AddBlock(StartWithTail(p, overlapTokens), block), done + Words(block), maxTokens, overlapTokens)
  {
    StartWithTailHolds(p, done, maxTokens, overlapTokens);
    var q := StartWithTail(p, overlapTokens);
    StartTokens(q, maxTokens, overlapTokens);
    AddBlockHolds(q, block, done, maxTokens, overlapTokens);
  }

  lemma StartTokens(q: Packing, maxTokens: int, overlapTokens: int)
    requires CurrentOk(q, maxTokens, overlapTokens) && (q.current == [] || |q.current| == 1)
    ensures q.tokens == if q.current == [] then 0 else Estimate(q.current[0])
  {
    if q.current != [] {
      assert q.current[..0] == [] && SumEstimates([]) == 0;
    }
  }

  lemma StepHolds(p: Packing, block: string, done: seq<string>, maxTokens: int, overlapTokens: int)
    requires maxTokens >= 1 && IsBlock(block) && Holds(p, done, maxTokens, overlapTokens)
    ensures Holds(Step(p, block, maxTokens, overlapTokens), done + Words(block), maxTokens, overlapTokens)
  {
    FlushHolds(p, done, maxTokens, overlapTokens);
    if Estimate(block) > maxTokens {
      LongBlockHolds(Flush(p), block, done, maxTokens, overlapTokens);
    } else if p.current != [] && p.tokens + Estimate(block) > maxTokens {
      FullHolds(Flush(p), block, done, maxTokens, overlapTokens);
    } else {
      AddBlockHolds(p, block, done, maxTokens, overlapTokens);
    }
  }

  // ---- The theorems ----------------------------------------------------------

  lemma {:induction false} PackHolds(blocks: seq<string>, maxTokens: int, overlapTokens: int)
    requires maxTokens >= 1 && AreBlocks(blocks)
    ensures Holds(Pack(blocks, maxTokens, overlapTokens), AllWords(blocks), maxTokens, overlapTokens)
  {
    if blocks != [] {
      var n := |blocks| - 1;
      assert blocks == blocks[..n] + [blocks[n]] && blocks[n] in blocks;
      PackHolds(blocks[..n], maxTokens, overlapTokens);
      StepHolds(Pack(blocks[..n], maxTokens, overlapTokens), blocks[n],
        AllWords(blocks[..n]), maxTokens, overlapTokens);
      AllWordsConcat(blocks[..n], [blocks[n]]);
      AllWordsOne(blocks[n]);
    }
  }

  /**
   Chunking loses and reorders nothing. Taking from every chunk the overlap it repeats from the
   chunk before and concatenating gives the words of the text in order, without the words that are
   oversized on their own; the chunks are numbered from zero, none is empty, each is within its
   size bound, and each overlap is the tail of the previous chunk.
   */
  lemma ChunkingIsFaithful(text: string, maxTokens: int, overlapTokens: int)
    requires maxTokens >= 1
    ensures var p := Chunked(text, maxTokens, overlapTokens);
      && ChunksOk(p, maxTokens, overlapTokens)
      && Reassembled(p.chunks, p.origins) == Kept(Words(text), maxTokens)
  {
    var blocks := SplitBlocks(text);
    PackHolds(blocks, maxTokens, overlapTokens);
    SplitBlocksWords(text);
    FlushHolds(Pack(blocks, maxTokens, overlapTokens), Words(text), maxTokens, overlapTokens);
  }

  /** Exactly the texts without an oversized word are chunked without loss. */
  lemma LosslessIff(text: string, maxTokens: int, overlapTokens: int)
    requires maxTokens >= 1
    ensures var p := Chunked(text, maxTokens, overlapTokens);
      && |p.chunks| == |p.origins|
      && (Reassembled(p.chunks, p.origins) == Words(text) <==>
        forall w :: w in Words(text) ==> Estimate(w) <= maxTokens)
  {
    ChunkingIsFaithful(text, maxTokens, overlapTokens);
    KeptWhole(Words(text), maxTokens);
  }

  lemma {:induction false} KeptWhole(ws: seq<string>, maxTokens: int)
    ensures |Kept(ws, maxTokens)| <= |ws|
    ensures Kept(ws, maxTokens) == ws <==> forall w :: w in ws ==> Estimate(w) <= maxTokens
  {
    if ws != [] {
      KeptWhole(ws[1..], maxTokens);
      assert ws == [ws[0]] + ws[1..];
      if Estimate(ws[0]) > maxTokens {
        assert ws[0] in ws;
      }
    }
  }

  lemma KeptNone(word: string, maxTokens: int)
    requires maxTokens < Estimate(word)
    ensures Kept([word], maxTokens) == []
  {
    assert [word][1..] == [];
  }

  /** A text that is one oversized word vanishes. */
  lemma OversizedWordVanishes(word: string, maxTokens: int, overlapTokens: int)
    requires IsWord(word) && 1 <= maxTokens < Estimate(word)
    ensures Words(word) == [word]
    ensures var p := Chunked(word, maxTokens, overlapTokens);
      |p.chunks| == |p.origins| && Reassembled(p.chunks, p.origins) == []
  {
    WordsOfWord(word);
    ChunkingIsFaithful(word, maxTokens, overlapTokens);
    KeptNone(word, maxTokens);
  }

  /** The loss is real: one word of eight letters does not fit a budget of one token. */
  lemma OversizedWordIsDropped() returns (text: string, maxTokens: int)
    ensures text == "abcdefgh" && maxTokens == 1
    ensures var p := Chunked(text, maxTokens, 0);
      Words(text) == [text] && |p.chunks| == |p.origins| && Reassembled(p.chunks, p.origins) == []
  {
    text, maxTokens := "abcdefgh", 1;
    EstimateOfLetters(text);
    OversizedWordVanishes(text, maxTokens, 0);
  }

  lemma EstimateOfLetters(text: string)
    requires text == "abcdefgh"
    ensures IsWord(text) && Estimate(text) == 2
  {
    WordsOfWord(text);
  }
}
