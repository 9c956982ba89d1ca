/**
 How a text is cut into paragraphs between blank lines, what its size estimate is, and which of its
 words make up its tail.
 */
module Paragraphs {
  import opened Text
  import opened Chunking

  // ---- Paragraphs -------------------------------------------------------------------

  /** Trimmed, with no blank line inside and in Unix line ends. */
  predicate IsParagraph(p: string) {
    && IsBlock(p) && '\r' !in p
    && forall i :: 0 <= i < |p| - 1 ==> !(p[i] == '\n' && p[i + 1] == '\n')
  }

  predicate AreParagraphs(ps: seq<string>) {
    forall p :: p in ps ==> IsParagraph(p)
  }

  /** Two or more line ends. */
  predicate IsGap(gap: string) {
    |gap| >= 2 && forall c :: c in gap ==> c == '\n'
  }

  /** The first blank line behind a paragraph is the one that ends it. */
  lemma {:induction false} FirstGapBehind(p: string, rest: string)
    requires p == "" || p[|p| - 1] != '\n'
    requires forall i :: 0 <= i < |p| - 1 ==> !(p[i] == '\n' && p[i + 1] == '\n')
    requires |rest| >= 2 && rest[0] == '\n' && rest[1] == '\n'
    ensures FirstGap(p + rest) == |p|
  {
    if p == "" {
      assert p + rest == rest;
    } else {
      assert (p + rest)[1..] == p[1..] + rest;
      FirstGapBehind(p[1..], rest);
    }
  }

  lemma {:induction false} NoGap(p: string)
    requires forall i :: 0 <= i < |p| - 1 ==> !(p[i] == '\n' && p[i + 1] == '\n')
    ensures FirstGap(p) == |p|
  {
    if |p| >= 2 {
      NoGap(p[1..]);
    }
  }

  lemma GapRun(gap: string, rest: string)
    requires IsGap(gap) && rest != "" && rest[0] != '\n'
    ensures Run(Newline, gap[1..] + rest) == |gap| - 1 && gap[0] == '\n' && gap[1] == '\n'
  {
    var more := gap[1..];
    assert gap[0] in gap && gap[1] in gap;
    assert forall c :: c in more ==> c in gap;
    RunOfPrefix(Newline, more, rest);
  }

  lemma GapEndsBehind(p: string, gap: string, rest: string)
    requires IsGap(gap) && rest != "" && rest[0] != '\n'
    ensures GapEnd(p + (gap + rest), |p|) == |p| + |gap|
  {
    GapRun(gap, rest);
    SlicesAtGap(p, gap, rest);
  }

  lemma SplitParts(s: string, i: nat, n: nat, p: string, rest: string)
    requires i == FirstGap(s) < |s| && n == GapEnd(s, i) && p == s[..i] && rest == s[n..]
    ensures SplitParagraphs(s) == [p] + SplitParagraphs(rest)
  {}

  lemma SplitAtGap(p: string, gap: string, rest: string)
    requires IsParagraph(p) && IsGap(gap) && rest != "" && rest[0] != '\n'
    ensures SplitParagraphs(p + (gap + rest)) == [p] + SplitParagraphs(rest)
  {
    GapRun(gap, rest);
    FirstGapBehind(p, gap + rest);
    GapEndsBehind(p, gap, rest);
    SlicesAtGap(p, gap, rest);
    SplitParts(p + (gap + rest), |p|, |p| + |gap|, p, rest);
  }

  lemma SlicesAtGap(p: string, gap: string, rest: string)
    requires gap != ""
    ensures var s := p + (gap + rest);
      s[..|p|] == p && s[|p| + 1..] == gap[1..] + rest && s[|p| + |gap|..] == rest
  {}

  lemma {:induction false} JoinedShape(ps: seq<string>, gap: string)
    requires ps != [] && AreParagraphs(ps) && IsGap(gap)
    ensures IsBlock(Join(ps, gap)) && '\r' !in Join(ps, gap)
  {
    assert ps[0] in ps;
    if |ps| > 1 {
      JoinedShape(ps[1..], gap);
      var head, tail := ps[0] + gap, Join(ps[1..], gap);
      assert Join(ps, gap) == head + tail;
      assert (head + tail)[|head| + |tail| - 1] == tail[|tail| - 1];
    }
  }

  lemma {:induction false} SplitJoined(ps: seq<string>, gap: string)
    requires ps != [] && AreParagraphs(ps) && IsGap(gap)
    ensures SplitParagraphs(Join(ps, gap)) == ps
  {
    assert ps[0] in ps;
    if |ps| == 1 {
      NoGap(ps[0]);
    } else {
      SplitJoined(ps[1..], gap);
      JoinedShape(ps[1..], gap);
      SplitJoinedCons(ps[0], ps[1..], gap);
      assert ps == [ps[0]] + ps[1..];
    }
  }

  lemma SplitJoinedCons(p: string, ps: seq<string>, gap: string)
    requires ps != [] && IsParagraph(p) && IsGap(gap)
    requires IsBlock(Join(ps, gap)) && SplitParagraphs(Join(ps, gap)) == ps
    ensures SplitParagraphs(Join([p] + ps, gap)) == [p] + ps
  {
    var rest := Join(ps, gap);
    JoinCons(p, ps, gap);
    SplitAtGap(p, gap, rest);
  }

  lemma JoinCons(p: string, ps: seq<string>, gap: string)
    requires ps != []
    ensures Join([p] + ps, gap) == p + (gap + Join(ps, gap))
  {
    assert ([p] + ps)[1..] == ps;
  }

  lemma {:induction false} KeepAll(ps: seq<string>)
    requires AreParagraphs(ps)
    ensures KeepParagraphs(ps) == ps
  {
    if ps != [] {
      assert ps[0] in ps;
      KeepAll(ps[1..]);
      assert ps == [ps[0]] + ps[1..];
    }
  }

  lemma {:induction false} NoCarriageReturn(s: string)
    requires '\r' !in s
    ensures ReplaceCrLf(s) == s
  {
    if |s| >= 2 {
      assert s[0] in s;
      NoCarriageReturn(s[1..]);
      assert s == [s[0]] + s[1..];
    }
  }

  /** The blocks of paragraphs joined by blank lines, however many, are the paragraphs. */
  lemma BlocksRoundTrip(ps: seq<string>, gap: string)
    requires AreParagraphs(ps) && IsGap(gap)
    ensures SplitBlocks(Join(ps, gap)) == ps
  {
    if ps != [] {
      JoinedShape(ps, gap);
      NoCarriageReturn(Join(ps, gap));
      SplitJoined(ps, gap);
      KeepAll(ps);
    }
  }

  // ---- Windows line ends -----------------------------------------------------------------

  lemma {:induction false} ReplaceBehind(a: string, b: string)
    requires '\r' !in a
    ensures ReplaceCrLf(a + b) == a + ReplaceCrLf(b)
  {
    if a == "" {
      assert a + b == b;
    } else {
      assert a[0] in a;
      ReplaceCrLfStep(a[0], a[1..] + b);
      assert a + b == [a[0]] + (a[1..] + b);
      ReplaceBehind(a[1..], b);
    }
  }

  const WINDOWS_GAP := "\r\n\r\n"

  lemma ReplaceGap(rest: string)
    ensures ReplaceCrLf(WINDOWS_GAP + rest) == "\n\n" + ReplaceCrLf(rest)
  {
    var s := WINDOWS_GAP + rest;
    assert s[2..] == "\r\n" + rest;
    assert s[2..][2..] == rest;
    assert "\n" + ("\n" + ReplaceCrLf(rest)) == "\n\n" + ReplaceCrLf(rest);
  }

  lemma {:induction false} ReplaceJoined(ps: seq<string>)
    requires AreParagraphs(ps)
    ensures ReplaceCrLf(Join(ps, WINDOWS_GAP)) == Join(ps, "\n\n")
  {
    if ps != [] {
      assert ps[0] in ps;
      if |ps| == 1 {
        NoCarriageReturn(ps[0]);
      } else {
        var rest := Join(ps[1..], WINDOWS_GAP);
        ReplaceJoined(ps[1..]);
        ReplaceBehind(ps[0], WINDOWS_GAP + rest);
        ReplaceGap(rest);
        assert Join(ps, WINDOWS_GAP) == ps[0] + (WINDOWS_GAP + rest);
        assert ps[0] + ("\n\n" + Join(ps[1..], "\n\n")) == Join(ps, "\n\n");
      }
    }
  }

  /** Windows line ends make no difference. */
  lemma WindowsBlocks(ps: seq<string>)
    requires AreParagraphs(ps)
    ensures SplitBlocks(Join(ps, WINDOWS_GAP)) == ps
  {
    ReplaceJoined(ps);
    BlocksRoundTrip(ps, "\n\n");
    if ps != [] {
      JoinedShape(ps, "\n\n");
    }
    NoCarriageReturn(Join(ps, "\n\n"));
    SameBlocks(Join(ps, WINDOWS_GAP), Join(ps, "\n\n"));
  }

  lemma SameBlocks(a: string, b: string)
    requires ReplaceCrLf(a) == b && ReplaceCrLf(b) == b
    ensures SplitBlocks(a) == SplitBlocks(b)
  {}

  // ---- Size and tail ---------------------------------------------------------------------

  /** The estimate is the least number that covers the words and the full quarters of the trimmed length. */
  lemma EstimateIsLeast(text: string, n: nat)
    ensures Estimate(text) <= n <==> |Words(text)| <= n && |Strip(text)| < 4 * n + 4
  {
    WordsStrip(text);
    LongerThanWords(Strip(text));
  }

  lemma LongerThanWords(s: string)
    ensures s == "" ==> Words(s) == []
  {}

  lemma CountIsLeast(words: seq<string>, overlapTokens: int, m: nat)
    requires words != []
    ensures var n := TailCount(Reaches(words, overlapTokens), |words|, 1);
      && (n < |words| ==> Estimate(LastWords(words, n)) >= overlapTokens)
      && (1 <= m < n ==> Estimate(LastWords(words, m)) < overlapTokens)
  {
    var reaches := Reaches(words, overlapTokens);
    var n := TailCount(reaches, |words|, 1);
    assert n < |words| ==> reaches(n);
    assert 1 <= m < n ==> !reaches(m);
  }

  /**
   The tail is made of the last words: enough to reach the overlap, unless all of them do not, and
   with fewer it would not be reached; it has at least one word if there is one.
   */
  lemma TailIsLeast(text: string, overlapTokens: int, m: nat)
    ensures Tail(text, overlapTokens) == LastWords(Words(text), TailWords(text, overlapTokens))
    ensures Words(text) != [] ==> TailWords(text, overlapTokens) >= 1
    ensures TailWords(text, overlapTokens) < |Words(text)| ==> Estimate(Tail(text, overlapTokens)) >= overlapTokens
    ensures 1 <= m < TailWords(text, overlapTokens) ==> Estimate(LastWords(Words(text), m)) < overlapTokens
  {
    if Words(text) != [] {
      CountIsLeast(Words(text), overlapTokens, m);
    }
  }

  lemma LastWordsAre(words: seq<string>, last: seq<string>, n: nat)
    requires AreWords(words) && n <= |words| && last == words[|words| - n..]
    ensures Words(LastWords(words, n)) == last
  {
    assert forall w :: w in last ==> w in words;
    if last != [] {
      UnwordsShape(last);
    }
  }

  /** The words of a tail are the last words of the text. */
  lemma TailIsSuffix(text: string, overlapTokens: int)
    ensures Words(Tail(text, overlapTokens)) ==
      Words(text)[|Words(text)| - TailWords(text, overlapTokens)..]
  {
    var words, n := Words(text), TailWords(text, overlapTokens);
    WordsAreWords(text);
    LastWordsAre(words, words[|words| - n..], n);
  }
}
