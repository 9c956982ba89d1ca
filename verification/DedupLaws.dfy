/** What similarity and title compatibility mean for concrete texts. */
module DedupLaws {
  import opened Text
  import opened Chunking
  import opened Dedup

  /** The trigrams are the runs of three characters of the text with two blanks before and one behind it. */
  lemma TrigramsAre(folded: string, g: string)
    ensures g in Trigrams(folded) <==>
      folded != "" && exists i :: 0 <= i < |folded| + 1 && g == Gram("  " + folded + " ", i)
  {}

  lemma TrigramsOfCat()
    ensures Trigrams("cat") == {"  c", " ca", "cat", "at "}
  {
    var padded := "  " + "cat" + " ";
    assert padded == "  cat ";
    assert Gram(padded, 0) == "  c" && Gram(padded, 1) == " ca" && Gram(padded, 2) == "cat" && Gram(padded, 3) == "at ";
  }

  /** A text is fully similar to itself, and not at all to one without a common trigram. */
  lemma SimilarityExtremes(a: string, b: string)
    ensures a != "" ==> Similarity(a, a) == 1.0
    ensures Similarity(a, b) == 0.0 <==> forall g :: g in Trigrams(a) ==> g !in Trigrams(b)
  {
    JaccardLaws(Trigrams(a), Trigrams(a));
    JaccardLaws(Trigrams(a), Trigrams(b));
    if a != "" {
      assert Gram("  " + a + " ", 0) in Trigrams(a);
    }
    if forall g :: g in Trigrams(a) ==> g !in Trigrams(b) {
      assert Trigrams(a) * Trigrams(b) == {};
    } else {
      var g :| g in Trigrams(a) && g in Trigrams(b);
      assert g in Trigrams(a) * Trigrams(b);
    }
  }

  /** A word without brackets, commas, slashes or dashes. */
  predicate IsPlainWord(w: string) {
    IsWord(w) && forall c :: c in w ==> !IsSeparator(c)
  }

  predicate ArePlainWords(ws: seq<string>) {
    forall w :: w in ws ==> IsPlainWord(w)
  }

  lemma {:induction false} PlainTitle(ws: seq<string>)
    requires ArePlainWords(ws)
    ensures forall c :: c in Unwords(ws) ==> !IsSeparator(c)
  {
    if ws != [] {
      assert ws[0] in ws;
      if |ws| > 1 {
        PlainTitle(ws[1..]);
      }
    }
  }

  /** The markers of a title of plain words are those among its words. */
  lemma MarkersOfWords(ws: seq<string>)
    requires ArePlainWords(ws)
    ensures SeniorityTokens(Unwords(ws)) == set w | w in ws && w in SENIORITY
  {
    var title := Unwords(ws);
    PlainTitle(ws);
    SpacedPlain(title);
    if ws != [] {
      UnwordsShape(ws);
    }
  }

  lemma SpacedPlain(title: string)
    requires forall c :: c in title ==> !IsSeparator(c)
    ensures Spaced(title) == title
  {}

  /** A separator in a title counts as a blank. */
  lemma SeparatorIsBlank(a: string, c: char, b: string)
    requires IsSeparator(c)
    ensures SeniorityTokens(a + [c] + b) == SeniorityTokens(a + " " + b)
  {
    assert Spaced(a + [c] + b) == Spaced(a + " " + b);
  }

  /** Titles of plain words are compatible exactly when they carry the same seniority markers. */
  lemma CompatibleIff(left: seq<string>, right: seq<string>)
    requires ArePlainWords(left) && ArePlainWords(right)
    ensures TitlesCompatible(Unwords(left), Unwords(right)) <==>
      forall w :: w in SENIORITY ==> (w in left <==> w in right)
  {
    MarkersOfWords(left);
    MarkersOfWords(right);
    var l, r := set w | w in left && w in SENIORITY, set w | w in right && w in SENIORITY;
    if l == r {
      forall w | w in SENIORITY
        ensures w in left <==> w in right
      {
        assert w in left <==> w in l;
        assert w in right <==> w in r;
      }
    }
  }

  /** Different rungs of the ladder in front of the same plain title are never compatible. */
  lemma DifferentRungs(a: string, b: string, title: seq<string>)
    requires a in {"junior", "senior", "staff", "principal", "lead"}
      || a in {"intern", "graduate", "associate", "fellow", "director"}
    requires a != b && a !in title && ArePlainWords([a] + title) && ArePlainWords([b] + title)
    ensures !TitlesCompatible(Unwords([a] + title), Unwords([b] + title))
  {
    CompatibleIff([a] + title, [b] + title);
    assert a in [a] + title && a !in [b] + title;
  }
}
