/** The chunker: paragraph blocks packed up to a token budget. */
module Chunking {
  import opened Wrappers
  import opened Text

  function Max(a: int, b: int): int {
    if a >= b then a else b
  }

  /** A conservative token estimate: words, or a quarter of the characters. */
  function Estimate(text: string): (n: nat) {
    var s := Strip(text);
    if s == "" then 0 else Max(|Words(s)|, |s| / 4)
  }

  // ---- Paragraph blocks --------------------------------------------------

  /** `text.replace("\r\n", "\n")`. */
  function ReplaceCrLf(s: string): string {
    if |s| < 2 then s
    else if s[0] == '\r' && s[1] == '\n' then "\n" + ReplaceCrLf(s[2..])
    else [s[0]] + ReplaceCrLf(s[1..])
  }

  /** Position of the first blank line, or the length. */
  function FirstGap(s: string): (i: nat)
    ensures i <= |s|
    ensures i < |s| ==> i + 1 < |s| && s[i] == '\n' && s[i + 1] == '\n'
  {
    if |s| < 2 then |s|
    else if s[0] == '\n' && s[1] == '\n' then 0
    else 1 + FirstGap(s[1..])
  }

  /** `re.split(r"\n{2,}", s)`. */
  function SplitParagraphs(s: string): seq<string>
    decreases |s|
  {
    var i := FirstGap(s);
    if i == |s| then [s]
    else [s[..i]] + SplitParagraphs(s[GapEnd(s, i)..])
  }

  /** Where the run of line ends that starts at `i` ends. */
  function GapEnd(s: string, i: nat): (j: nat)
    requires i < |s|
    ensures i < j <= |s|
  {
    i + 1 + Run(Newline, s[i + 1..])
  }

  /** Strip every paragraph and keep the non-empty ones. */
  function KeepParagraphs(ps: seq<string>): (r: seq<string>)
    ensures forall b :: b in r ==> IsBlock(b)
  {
    if ps == [] then []
    else (if Strip(ps[0]) == "" then [] else [Strip(ps[0])]) + KeepParagraphs(ps[1..])
  }

  predicate IsBlock(b: string) {
    b != "" && Trimmed(b)
  }

  function SplitBlocks(text: string): (r: seq<string>)
    ensures forall b :: b in r ==> IsBlock(b)
  {
    BlocksIn(ReplaceCrLf(text))
  }

  /** The blocks of a text in Unix line ends. */
  function BlocksIn(unix: string): (r: seq<string>)
    ensures forall b :: b in r ==> IsBlock(b)
  {
    var normalized := Strip(unix);
    if normalized == "" then []
    else
      var blocks := KeepParagraphs(SplitParagraphs(normalized));
      if blocks == [] then [normalized] else blocks
  }

  /** All words of several texts, in order. */
  function AllWords(texts: seq<string>): seq<string> {
    if texts == [] then [] else Words(texts[0]) + AllWords(texts[1..])
  }

  lemma {:induction false} AllWordsConcat(a: seq<string>, b: seq<string>)
    ensures AllWords(a + b) == AllWords(a) + AllWords(b)
  {
    if a == [] {
      assert a + b == b;
    } else {
      assert (a + b)[1..] == a[1..] + b;
      AllWordsConcat(a[1..], b);
    }
  }

  lemma AllWordsOne(t: string)
    ensures AllWords([t]) == Words(t)
  {
    assert [t][1..] == [];
  }

  lemma ReplaceCrLfStep(c: char, t: string)
    requires c != '\r'
    ensures ReplaceCrLf([c] + t) == [c] + ReplaceCrLf(t)
  {
    assert ([c] + t)[1..] == t;
  }

  lemma {:induction false} ReplaceCrLfHead(w: string, b: string)
    requires forall c :: c in w ==> !IsSpace(c)
    ensures ReplaceCrLf(w + b) == w + ReplaceCrLf(b)
  {
    if w == "" {
      assert w + b == b;
    } else {
      assert w[0] in w;
      ReplaceCrLfStep(w[0], w[1..] + b);
      assert w + b == [w[0]] + (w[1..] + b);
      ReplaceCrLfHead(w[1..], b);
    }
  }

  lemma ReplaceCrLfStart(s: string)
    ensures s != "" ==> ReplaceCrLf(s) != "" && (IsSpace(s[0]) <==> IsSpace(ReplaceCrLf(s)[0]))
  {}

  lemma {:induction false} ReplaceCrLfWords(s: string)
    ensures Words(ReplaceCrLf(s)) == Words(s)
    decreases |s|
  {
    if |s| < 2 {
    } else if s[0] == '\r' && s[1] == '\n' {
      ReplaceCrLfWords(s[2..]);
      WordsDropSpaces("\n", ReplaceCrLf(s[2..]));
      WordsDropSpaces("\r\n", s[2..]);
      assert s == "\r\n" + s[2..];
    } else if IsSpace(s[0]) {
      ReplaceCrLfWords(s[1..]);
      WordsDropSpaces([s[0]], ReplaceCrLf(s[1..]));
    } else {
      var n := Run(NonSpace, s);
      RunEnds(NonSpace, s);
      var w, b := s[..n], s[n..];
      assert s == w + b && IsWord(w);
      ReplaceCrLfHead(w, b);
      ReplaceCrLfStart(b);
      WordsStep(w, b);
      WordsStep(w, ReplaceCrLf(b));
      ReplaceCrLfWords(b);
    }
  }

  lemma Reassemble(s: string, i: nat, j: nat)
    requires i <= j <= |s|
    ensures s == s[..i] + (s[i..j] + s[j..])
  {}

  lemma GapWords(a: string, gap: string, b: string)
    requires gap != "" && forall c :: c in gap ==> IsSpace(c)
    ensures Words(a + (gap + b)) == Words(a) + Words(b)
  {
    assert gap[0] in gap;
    WordsDropSpaces(gap, b);
    WordsConcat(a, gap + b);
  }

  lemma GapIsSpace(s: string, i: nat)
    requires i < |s| && IsSpace(s[i])
    ensures forall c :: c in s[i..GapEnd(s, i)] ==> IsSpace(c)
  {
    var n := Run(Newline, s[i + 1..]);
    RunEnds(Newline, s[i + 1..]);
    assert s[i..i + 1 + n] == [s[i]] + s[i + 1..][..n];
  }

  lemma AllWordsCons(p: string, ps: seq<string>)
    ensures AllWords([p] + ps) == Words(p) + AllWords(ps)
  {
    assert ([p] + ps)[1..] == ps;
  }

  lemma {:induction false} SplitParagraphsWords(s: string)
    ensures AllWords(SplitParagraphs(s)) == Words(s)
    decreases |s|
  {
    var i := FirstGap(s);
    if i == |s| {
      AllWordsOne(s);
    } else {
      var j := GapEnd(s, i);
      GapIsSpace(s, i);
      GapWords(s[..i], s[i..j], s[j..]);
      Reassemble(s, i, j);
      SplitParagraphsWords(s[j..]);
      assert SplitParagraphs(s) == [s[..i]] + SplitParagraphs(s[j..]);
      AllWordsCons(s[..i], SplitParagraphs(s[j..]));
    }
  }

  lemma {:induction false} KeepParagraphsWords(ps: seq<string>)
    ensures AllWords(KeepParagraphs(ps)) == AllWords(ps)
  {
    if ps != [] {
      KeepParagraphsWords(ps[1..]);
      WordsStrip(ps[0]);
      AllWordsOne(Strip(ps[0]));
      AllWordsConcat(if Strip(ps[0]) == "" then [] else [Strip(ps[0])], KeepParagraphs(ps[1..]));
    }
  }

  /** Splitting into blocks loses and reorders no word. */
  lemma SplitBlocksWords(text: string)
    ensures AllWords(SplitBlocks(text)) == Words(text)
  {
    var unix := ReplaceCrLf(text);
    ReplaceCrLfWords(text);
    WordsStrip(unix);
    SplitParagraphsWords(Strip(unix));
    KeepParagraphsWords(SplitParagraphs(Strip(unix)));
    AllWordsOne(Strip(unix));
  }

  // ---- Words joined by single blanks --------------------------------------

  function Unwords(ws: seq<string>): string {
    Join(ws, " ")
  }

  predicate AreWords(ws: seq<string>) {
    forall w :: w in ws ==> IsWord(w)
  }

  lemma {:induction false} UnwordsShape(ws: seq<string>)
    requires AreWords(ws) && ws != []
    ensures IsBlock(Unwords(ws)) && Words(Unwords(ws)) == ws
    ensures forall w :: w in ws ==> |w| <= |Unwords(ws)|
  {
    var w, rest := ws[0], ws[1..];
    assert ws == [w] + rest && w in ws;
    if rest == [] {
      WordIsBlock(w);
    } else {
      assert AreWords(rest) by {
        assert forall v :: v in rest ==> v in ws;
      }
      UnwordsShape(rest);
      UnwordsCons(w, rest);
    }
  }

  lemma WordIsBlock(w: string)
    requires IsWord(w)
    ensures IsBlock(w) && Words(w) == [w]
  {
    assert w[0] in w && w[|w| - 1] in w;
    WordsOfWord(w);
  }

  /** One more word in front of a joined run. */
  lemma UnwordsCons(w: string, rest: seq<string>)
    requires IsWord(w) && rest != [] && IsBlock(Unwords(rest)) && Words(Unwords(rest)) == rest
    ensures var s := Unwords([w] + rest);
      IsBlock(s) && Words(s) == [w] + rest && |s| == |w| + 1 + |Unwords(rest)|
  {
    var tail := Unwords(rest);
    assert ([w] + rest)[1..] == rest;
    assert Unwords([w] + rest) == w + (" " + tail);
    WordIsBlock(w);
    BlockBehind(w, tail);
    WordsDropSpaces(" ", tail);
    WordsStep(w, " " + tail);
  }

  lemma BlockBehind(w: string, tail: string)
    requires IsBlock(w) && IsBlock(tail)
    ensures IsBlock(w + (" " + tail))
  {
    var s := w + (" " + tail);
    assert s[|s| - 1] == tail[|tail| - 1];
  }

  /** A joined run is at least as long, in estimate, as each of its words. */
  lemma EstimateCoversWords(ws: seq<string>)
    requires AreWords(ws) && ws != []
    ensures forall w :: w in ws ==> Estimate(w) <= Estimate(Unwords(ws))
  {
    UnwordsShape(ws);
    forall w | w in ws
      ensures Estimate(w) <= Estimate(Unwords(ws))
    {
      EstimateGrows(w, Unwords(ws));
    }
  }

  lemma EstimateGrows(w: string, s: string)
    requires IsWord(w) && IsBlock(s) && |w| <= |s|
    ensures Estimate(w) <= Estimate(s)
  {
    assert w[0] in w && w[|w| - 1] in w;
    WordsOfWord(w);
  }

  /** The words that are not oversized on their own. */
  function Kept(ws: seq<string>, maxTokens: int): seq<string> {
    if ws == [] then []
    else KeptWord(ws[0], maxTokens) + Kept(ws[1..], maxTokens)
  }

  function KeptWord(w: string, maxTokens: int): seq<string> {
    if Estimate(w) <= maxTokens then [w] else []
  }

  lemma KeptCons(w: string, ws: seq<string>, maxTokens: int)
    ensures Kept([w] + ws, maxTokens) == KeptWord(w, maxTokens) + Kept(ws, maxTokens)
  {
    assert ([w] + ws)[1..] == ws;
  }

  lemma Associative<T>(a: seq<T>, b: seq<T>, c: seq<T>)
    ensures (a + b) + c == a + (b + c)
  {}

  lemma KeptConcatCons(w: string, rest: seq<string>, b: seq<string>, maxTokens: int)
    requires Kept(rest + b, maxTokens) == Kept(rest, maxTokens) + Kept(b, maxTokens)
    ensures Kept([w] + rest + b, maxTokens) == Kept([w] + rest, maxTokens) + Kept(b, maxTokens)
  {
    KeptCons(w, rest, maxTokens);
    KeptCons(w, rest + b, maxTokens);
    Associative([w], rest, b);
    Associative(KeptWord(w, maxTokens), Kept(rest, maxTokens), Kept(b, maxTokens));
  }

  lemma {:induction false} KeptConcat(a: seq<string>, b: seq<string>, maxTokens: int)
    ensures Kept(a + b, maxTokens) == Kept(a, maxTokens) + Kept(b, maxTokens)
  {
    if a == [] {
      assert a + b == b;
    } else {
      KeptConcat(a[1..], b, maxTokens);
      KeptConcatCons(a[0], a[1..], b, maxTokens);
      assert a == [a[0]] + a[1..];
    }
  }

  lemma {:induction false} KeptAll(ws: seq<string>, maxTokens: int)
    requires forall w :: w in ws ==> Estimate(w) <= maxTokens
    ensures Kept(ws, maxTokens) == ws
  {
    if ws != [] {
      assert ws[0] in ws;
      KeptAll(ws[1..], maxTokens);
      assert ws == [ws[0]] + ws[1..];
    }
  }

  // ---- The fallback splitter ----------------------------------------------

  /** A run of words, from `start` up to `end`. */
  datatype Span = Span(start: nat, end: nat)

  /** Whether a run of words fits the budget. */
  type Fitting = (nat, nat) -> bool

  function Fits(words: seq<string>, maxTokens: int): Fitting {
    (start: nat, end: nat) => start <= end && end <= |words| && Estimate(Unwords(words[start..end])) <= maxTokens
  }

  /** Where the greedy run from `start` ends, given that it reaches `end`. */
  function RunEnd(fits: Fitting, n: nat, start: nat, end: nat): (r: nat)
    requires start <= end <= n
    ensures end <= r <= n
    decreases n - end
  {
    if end < n && fits(start, end + 1) then RunEnd(fits, n, start, end + 1) else end
  }

  /** The greedy runs from `start` on; a word that does not fit on its own is skipped. */
  function Runs(fits: Fitting, n: nat, start: nat): seq<Span>
    requires start <= n
    decreases n - start
  {
    if start == n then []
    else
      var end := RunEnd(fits, n, start, start);
      if end == start then Runs(fits, n, start + 1) else [Span(start, end)] + Runs(fits, n, end)
  }

  /** A maximal run: it fits, and with one more word it would not. */
  predicate Maximal(fits: Fitting, n: nat, s: Span) {
    && s.start < s.end <= n
    && fits(s.start, s.end)
    && (s.end < n ==> !fits(s.start, s.end + 1))
  }

  lemma {:induction false} RunEndMaximal(fits: Fitting, n: nat, start: nat, end: nat)
    requires start <= end <= n && (start < end ==> fits(start, end))
    ensures var r := RunEnd(fits, n, start, end);
      (start < r ==> fits(start, r)) && (r < n ==> !fits(start, r + 1))
    decreases n - end
  {
    if end < n && fits(start, end + 1) {
      RunEndMaximal(fits, n, start, end + 1);
    }
  }

  lemma {:induction false} RunsMaximal(fits: Fitting, n: nat, start: nat)
    requires start <= n
    ensures forall s :: s in Runs(fits, n, start) ==> Maximal(fits, n, s)
    decreases n - start
  {
    if start < n {
      var end := RunEnd(fits, n, start, start);
      RunEndMaximal(fits, n, start, start);
      RunsMaximal(fits, n, if end == start then start + 1 else end);
    }
  }

  /** The texts of some runs. */
  function Pieces(words: seq<string>, spans: seq<Span>): (r: seq<string>)
    ensures |r| == |spans|
  {
    seq(|spans|, i requires 0 <= i < |spans| => SpanText(words, spans[i]))
  }

  function SpanText(words: seq<string>, s: Span): string {
    if s.start <= s.end <= |words| then Unwords(words[s.start..s.end]) else ""
  }

  /** A run that fits is a block whose words are all kept. */
  lemma FittingRun(words: seq<string>, start: nat, end: nat, maxTokens: int)
    requires AreWords(words) && start < end <= |words| && Fits(words, maxTokens)(start, end)
    ensures IsBlock(SpanText(words, Span(start, end)))
    ensures Words(SpanText(words, Span(start, end))) == Kept(words[start..end], maxTokens)
    ensures Estimate(SpanText(words, Span(start, end))) <= maxTokens
  {
    var run := words[start..end];
    assert forall w :: w in run ==> w in words;
    UnwordsShape(run);
    EstimateCoversWords(run);
    KeptAll(run, maxTokens);
  }

  lemma SkippedWord(words: seq<string>, start: nat, maxTokens: int)
    requires start < |words| && !Fits(words, maxTokens)(start, start + 1)
    ensures Kept(words[start..], maxTokens) == Kept(words[start + 1..], maxTokens)
  {
    assert words[start..start + 1] == [words[start]];
    assert words[start..][1..] == words[start + 1..];
  }

  lemma PiecesCons(words: seq<string>, s: Span, rest: seq<Span>)
    ensures Pieces(words, [s] + rest) == [SpanText(words, s)] + Pieces(words, rest)
  {}

  /** The pieces hold every word but the ones that are oversized on their own, in order. */
  lemma {:induction false} RunsKeepWords(words: seq<string>, start: nat, maxTokens: int)
    requires AreWords(words) && start <= |words|
    ensures AllWords(Pieces(words, Runs(Fits(words, maxTokens), |words|, start))) == Kept(words[start..], maxTokens)
    decreases |words| - start
  {
    if start < |words| {
      var fits := Fits(words, maxTokens);
      var end := RunEnd(fits, |words|, start, start);
      RunEndMaximal(fits, |words|, start, start);
      if end == start {
        RunsKeepWords(words, start + 1, maxTokens);
        SkippedWord(words, start, maxTokens);
      } else {
        RunsKeepWords(words, end, maxTokens);
        FittingRun(words, start, end, maxTokens);
        ConsPiece(words, start, end, Runs(fits, |words|, end), maxTokens);
      }
    }
  }

  lemma KeptSlices(words: seq<string>, start: nat, end: nat, maxTokens: int)
    requires start <= end <= |words|
    ensures Kept(words[start..], maxTokens) == Kept(words[start..end], maxTokens) + Kept(words[end..], maxTokens)
  {
    assert words[start..] == words[start..end] + words[end..];
    KeptConcat(words[start..end], words[end..], maxTokens);
  }

  lemma ConsPiece(words: seq<string>, start: nat, end: nat, rest: seq<Span>, maxTokens: int)
    requires start < end <= |words|
    requires Words(SpanText(words, Span(start, end))) == Kept(words[start..end], maxTokens)
    requires AllWords(Pieces(words, rest)) == Kept(words[end..], maxTokens)
    ensures AllWords(Pieces(words, [Span(start, end)] + rest)) == Kept(words[start..], maxTokens)
  {
    var text, texts := SpanText(words, Span(start, end)), Pieces(words, rest);
    PiecesCons(words, Span(start, end), rest);
    AllWordsCons(text, texts);
    KeptSlices(words, start, end, maxTokens);
  }

  /** Splits an oversized block into its greedy runs. */
  method SplitLongBlock(block: string, maxTokens: int) returns (pieces: seq<string>)
    ensures pieces == SplitPieces(block, maxTokens)
  {
    var words := Words(Strip(block));
    WordsStrip(block);
    WordsAreWords(block);
    forall start: nat, end: nat | start < end && Fits(words, maxTokens)(start, end)
      ensures SpanText(words, Span(start, end)) != ""
    {
      FittingRun(words, start, end, maxTokens);
    }
    pieces := SplitWords(words, Fits(words, maxTokens));
  }

  /** The run found by the inner loop is the next greedy run. */
  lemma RunsStep(words: seq<string>, fits: Fitting, start: nat, end: nat)
    requires start < |words| && end == RunEnd(fits, |words|, start, start)
    ensures var next := PiecesFrom(words, fits, Max(start + 1, end));
      PiecesFrom(words, fits, start) ==
        if end == start then next else [SpanText(words, Span(start, end))] + next
    ensures end == start ==> SpanText(words, Span(start, end)) == ""
  {
    if end > start {
      PiecesCons(words, Span(start, end), Runs(fits, |words|, end));
    } else {
      assert words[start..start] == [];
    }
  }

  /** What is still to be emitted from `start` on. */
  function PiecesFrom(words: seq<string>, fits: Fitting, start: nat): seq<string>
    requires start <= |words|
  {
    Pieces(words, Runs(fits, |words|, start))
  }

  /** The inner loop of the splitter: the first end that does not fit any more. */
  method GreedyEnd(words: seq<string>, fits: Fitting, start: nat) returns (end: nat)
    requires start < |words|
    ensures end == RunEnd(fits, |words|, start, start) + 1
    ensures end - 1 > start ==> fits(start, end - 1)
  {
    end := start + 1;
    while end <= |words| && fits(start, end)
      invariant start < end <= |words| + 1
      invariant RunEnd(fits, |words|, start, end - 1) == RunEnd(fits, |words|, start, start)
      invariant end - 1 > start ==> fits(start, end - 1)
      decreases |words| - end
    {
      end := end + 1;
    }
  }

  /** Emitting the run, unless it is empty, keeps what is emitted in the end. */
  lemma EmitStep(words: seq<string>, fits: Fitting, start: nat, end: nat, pieces: seq<string>)
    requires start < |words| && end == RunEnd(fits, |words|, start, start)
    requires end > start ==> SpanText(words, Span(start, end)) != ""
    ensures var piece := SpanText(words, Span(start, end));
      pieces + PiecesFrom(words, fits, start) ==
        (if piece == "" then pieces else pieces + [piece]) + PiecesFrom(words, fits, Max(start + 1, end))
  {
    RunsStep(words, fits, start, end);
    var piece, rest := SpanText(words, Span(start, end)), PiecesFrom(words, fits, Max(start + 1, end));
    if end > start {
      assert pieces + ([piece] + rest) == (pieces + [piece]) + rest;
    }
  }

  /** The splitter, for any notion of what fits. */
  method SplitWords(words: seq<string>, fits: Fitting) returns (pieces: seq<string>)
    requires forall start: nat, end: nat :: start < end && fits(start, end) ==> SpanText(words, Span(start, end)) != ""
    ensures pieces == PiecesFrom(words, fits, 0)
  {
    pieces := [];
    var start := 0;
    while start < |words|
      invariant start <= |words|
      invariant pieces + PiecesFrom(words, fits, start) == PiecesFrom(words, fits, 0)
    {
      var end := GreedyEnd(words, fits, start);
      if end - 1 == start {
        end := start + 1;
      }
      var piece := SpanText(words, Span(start, end - 1));
      EmitStep(words, fits, start, end - 1, pieces);
      if piece != "" {
        pieces := pieces + [piece];
      }
      start := Max(start + 1, end - 1);
    }
  }

  function SplitPieces(block: string, maxTokens: int): seq<string> {
    Pieces(Words(block), Runs(Fits(Words(block), maxTokens), |Words(block)|, 0))
  }

  /** What a split block consists of: blocks that fit and are maximal, holding all words that fit. */
  lemma SplitFacts(block: string, maxTokens: int)
    ensures var words := Words(block);
      var spans := Runs(Fits(words, maxTokens), |words|, 0);
      var pieces := SplitPieces(block, maxTokens);
      && |pieces| == |spans|
      && (forall i :: 0 <= i < |spans| ==> Maximal(Fits(words, maxTokens), |words|, spans[i]))
      && (forall i :: 0 <= i < |pieces| ==> IsBlock(pieces[i]) && Estimate(pieces[i]) <= maxTokens)
      && AllWords(pieces) == Kept(words, maxTokens)
  {
    var words := Words(block);
    var fits := Fits(words, maxTokens);
    var spans := Runs(fits, |words|, 0);
    WordsAreWords(block);
    RunsMaximal(fits, |words|, 0);
    RunsKeepWords(words, 0, maxTokens);
    assert words[0..] == words;
    forall i | 0 <= i < |spans|
      ensures Maximal(fits, |words|, spans[i])
      ensures IsBlock(SpanText(words, spans[i])) && Estimate(SpanText(words, spans[i])) <= maxTokens
    {
      assert spans[i] in spans;
      FittingRun(words, spans[i].start, spans[i].end, maxTokens);
    }
  }

  // ---- The overlap --------------------------------------------------------

  function LastWords(words: seq<string>, n: nat): string {
    if n <= |words| then Unwords(words[|words| - n..]) else ""
  }

  /** Whether the last `n` words reach the overlap. */
  function Reaches(words: seq<string>, overlapTokens: int): nat -> bool {
    (n: nat) => Estimate(LastWords(words, n)) >= overlapTokens
  }

  /** The least number of words from `n` on that reaches the overlap, or all of them. */
  function TailCount(reaches: nat -> bool, total: nat, n: nat): (r: nat)
    requires n <= total
    ensures n <= r <= total
    ensures r < total ==> reaches(r)
    ensures forall m: nat :: n <= m < r ==> !reaches(m)
    decreases total - n
  {
    if n == total || reaches(n) then n else TailCount(reaches, total, n + 1)
  }

  /** How many words of a text its overlap takes: at least one, if there are any. */
  function TailWords(text: string, overlapTokens: int): (n: nat)
    ensures n <= |Words(text)|
  {
    var words := Words(text);
    if words == [] then 0 else TailCount(Reaches(words, overlapTokens), |words|, 1)
  }

  function Tail(text: string, overlapTokens: int): string {
    LastWords(Words(text), TailWords(text, overlapTokens))
  }

  method TailTokens(text: string, overlapTokens: int) returns (tail: string)
    ensures tail == Tail(text, overlapTokens)
  {
    var words := Words(text);
    if words == [] {
      return "";
    }
    var n := CollectTail(words, Reaches(words, overlapTokens));
    tail := LastWords(words, n);
  }

  /** The loop over the reversed words, for any notion of reaching the overlap. */
  method CollectTail(words: seq<string>, reaches: nat -> bool) returns (n: nat)
    requires words != []
    ensures n == TailCount(reaches, |words|, 1)
  {
    n := 0;
    while n < |words|
      invariant n <= |words|
      invariant n < |words| ==> TailCount(reaches, |words|, n + 1) == TailCount(reaches, |words|, 1)
      invariant n == |words| ==> TailCount(reaches, |words|, 1) == n
    {
      n := n + 1;
      if reaches(n) {
        break;
      }
    }
  }

  // ---- Chunks --------------------------------------------------------------

  datatype TextChunk = TextChunk(index: nat, content: string, tokenCount: nat)

  /** Where a chunk comes from: a piece of a long block, or joined items, the first `overlap` words of them repeated. */
  datatype Origin = Piece | Merged(items: seq<string>, overlap: nat)

  /** The chunks so far and the items collected for the next one. */
  datatype Packing = Packing(
    chunks: seq<TextChunk>, index: nat, origins: seq<Origin>, current: seq<string>, tokens: int, overlap: nat)

  const EMPTY := Packing([], 0, [], [], 0, 0)

  function Glue(items: seq<string>): string {
    Join(items, "\n\n")
  }

  function Flush(p: Packing): Packing {
    if p.current == [] then p
    else
      var content := Strip(Glue(p.current));
      if content == "" then p.(current := [], tokens := 0, overlap := 0)
      else Packing(
        p.chunks + [TextChunk(p.index, content, Estimate(content))], p.index + 1,
        p.origins + [Merged(p.current, p.overlap)], [], 0, 0)
  }

  function AddPieces(p: Packing, pieces: seq<string>): Packing {
    if pieces == [] then p
    else
      var piece := pieces[|pieces| - 1];
      var q := AddPieces(p, pieces[..|pieces| - 1]);
      q.(
        chunks := q.chunks + [TextChunk(q.index, piece, Estimate(piece))],
        index := q.index + 1,
        origins := q.origins + [Piece])
  }

  function StartWithTail(p: Packing, overlapTokens: int): Packing {
    if overlapTokens == 0 || p.chunks == [] then p
    else
      var last := p.chunks[|p.chunks| - 1].content;
      StartWith(p, Tail(last, overlapTokens), TailWords(last, overlapTokens))
  }

  function StartWith(p: Packing, tail: string, words: nat): Packing {
    if tail == "" then p else p.(current := [tail], tokens := Estimate(tail), overlap := words)
  }

  function AddBlock(p: Packing, block: string): Packing {
    p.(current := p.current + [block], tokens := p.tokens + Estimate(block))
  }

  /** One block. */
  function Step(p: Packing, block: string, maxTokens: int, overlapTokens: int): Packing {
    if Estimate(block) > maxTokens then AddPieces(Flush(p), SplitPieces(block, maxTokens))
    else if p.current != [] && p.tokens + Estimate(block) > maxTokens then
      AddBlock(StartWithTail(Flush(p), overlapTokens), block)
    else AddBlock(p, block)
  }

  function Pack(blocks: seq<string>, maxTokens: int, overlapTokens: int): Packing {
    if blocks == [] then EMPTY
    else Step(Pack(blocks[..|blocks| - 1], maxTokens, overlapTokens), blocks[|blocks| - 1], maxTokens, overlapTokens)
  }

  function Chunked(text: string, maxTokens: int, overlapTokens: int): Packing {
    Flush(Pack(SplitBlocks(text), maxTokens, overlapTokens))
  }

  /** The chunker: the chunks of the packing, or the two configuration errors. */
  method ChunkText(text: string, maxTokens: int, overlapTokens: int) returns (r: Result<seq<TextChunk>, string>)
    ensures r.Err? <==> maxTokens < 1 || overlapTokens >= maxTokens
    ensures r.Ok? ==> r.value == Chunked(text, maxTokens, overlapTokens).chunks
  {
    if maxTokens < 1 {
      return Err("max_tokens must be positive");
    }
    if overlapTokens >= maxTokens {
      return Err("overlap_tokens must be smaller than max_tokens");
    }
    var blocks := SplitBlocks(text);
    if blocks == [] {
      return Ok([]);
    }
    var chunks := PackAll(blocks, maxTokens, overlapTokens);
    r := Ok(chunks);
  }

  /** The loop over the blocks, and the last flush. */
  method PackAll(blocks: seq<string>, maxTokens: int, overlapTokens: int) returns (chunks: seq<TextChunk>)
    ensures chunks == Flush(Pack(blocks, maxTokens, overlapTokens)).chunks
  {
    chunks := [];
    var current: seq<string> := [];
    var currentTokens := 0;
    var index := 0;
    for i := 0 to |blocks|
      invariant Tracks(Pack(blocks[..i], maxTokens, overlapTokens), chunks, index, current, currentTokens)
    {
      PackSnoc(blocks, i, maxTokens, overlapTokens);
      chunks, index, current, currentTokens := PackBlock(
        chunks, index, current, currentTokens, blocks[i], maxTokens, overlapTokens,
        Pack(blocks[..i], maxTokens, overlapTokens));
    }
    assert blocks[..|blocks|] == blocks;
    chunks, index, current, currentTokens :=
      FlushInto(chunks, index, current, currentTokens, Pack(blocks, maxTokens, overlapTokens));
  }

  lemma PackSnoc(blocks: seq<string>, i: nat, maxTokens: int, overlapTokens: int)
    requires i < |blocks|
    ensures Pack(blocks[..i + 1], maxTokens, overlapTokens) ==
      Step(Pack(blocks[..i], maxTokens, overlapTokens), blocks[i], maxTokens, overlapTokens)
  {
    assert blocks[..i + 1][..i] == blocks[..i];
  }

  /** One round of the loop over the blocks. */
  method PackBlock(
    chunks: seq<TextChunk>, index: nat, current: seq<string>, tokens: int,
    block: string, maxTokens: int, overlapTokens: int, ghost p: Packing)
    returns (chunks': seq<TextChunk>, index': nat, current': seq<string>, tokens': int)
    requires Tracks(p, chunks, index, current, tokens)
    ensures Tracks(Step(p, block, maxTokens, overlapTokens), chunks', index', current', tokens')
  {
    chunks', index', current', tokens' := chunks, index, current, tokens;
    var blockTokens := Estimate(block);
    if blockTokens > maxTokens {
      chunks', index', current', tokens' := FlushInto(chunks, index, current, tokens, p);
      var pieces := SplitLongBlock(block, maxTokens);
      chunks', index' := AppendPieces(chunks', index', pieces, Flush(p));
    } else {
      if current != [] && tokens + blockTokens > maxTokens {
        chunks', index', current', tokens' := FlushInto(chunks, index, current, tokens, p);
        current', tokens' := TailInto(chunks', current', tokens', overlapTokens, Flush(p));
      }
      current' := current' + [block];
      tokens' := tokens' + blockTokens;
    }
  }

  /** The local variables of the loop are those of the packing. */
  predicate Tracks(p: Packing, chunks: seq<TextChunk>, index: nat, current: seq<string>, tokens: int) {
    p.chunks == chunks && p.index == index && p.current == current && p.tokens == tokens
  }

  /** The inner function `flush`. */
  method FlushInto(chunks: seq<TextChunk>, index: nat, current: seq<string>, tokens: int, ghost p: Packing)
    returns (chunks': seq<TextChunk>, index': nat, current': seq<string>, tokens': int)
    requires Tracks(p, chunks, index, current, tokens)
    ensures Tracks(Flush(p), chunks', index', current', tokens')
  {
    chunks', index', current', tokens' := chunks, index, current, tokens;
    if current == [] {
      return;
    }
    var content := Strip(Glue(current));
    if content != "" {
      chunks' := chunks' + [TextChunk(index', content, Estimate(content))];
      index' := index' + 1;
    }
    current', tokens' := [], 0;
  }

  /** Starts the next chunk with the tail of the last one. */
  method TailInto(chunks: seq<TextChunk>, current: seq<string>, tokens: int, overlapTokens: int, ghost p: Packing)
    returns (current': seq<string>, tokens': int)
    requires p.chunks == chunks && p.current == current && p.tokens == tokens
    ensures Tracks(StartWithTail(p, overlapTokens), chunks, p.index, current', tokens')
  {
    current', tokens' := current, tokens;
    if overlapTokens != 0 && chunks != [] {
      var last := chunks[|chunks| - 1].content;
      var tail := TailTokens(last, overlapTokens);
      current', tokens' := TailStarts(tail, current, tokens, TailWords(last, overlapTokens), p);
    }
  }

  method TailStarts(tail: string, current: seq<string>, tokens: int, ghost words: nat, ghost p: Packing)
    returns (current': seq<string>, tokens': int)
    requires p.current == current && p.tokens == tokens
    ensures Tracks(StartWith(p, tail, words), p.chunks, p.index, current', tokens')
  {
    current', tokens' := current, tokens;
    if tail != "" {
      current', tokens' := [tail], Estimate(tail);
    }
  }

  /** The loop that appends the pieces of a long block. */
  method AppendPieces(chunks: seq<TextChunk>, index: nat, pieces: seq<string>, ghost p: Packing)
    returns (chunks': seq<TextChunk>, index': nat)
    requires p.chunks == chunks && p.index == index
    ensures Tracks(AddPieces(p, pieces), chunks', index', p.current, p.tokens)
  {
    chunks', index' := chunks, index;
    for k := 0 to |pieces|
      invariant Tracks(AddPieces(p, pieces[..k]), chunks', index', p.current, p.tokens)
    {
      assert pieces[..k + 1][..k] == pieces[..k];
      chunks' := chunks' + [TextChunk(index', pieces[k], Estimate(pieces[k]))];
      index' := index' + 1;
    }
    assert pieces[..|pieces|] == pieces;
  }
}
