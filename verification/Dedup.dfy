/** Duplicate detection: trigram similarity and the best-match scan of the similarity probes. */
module Dedup {
  import opened Wrappers
  import opened Text
  import opened Rounding

  // ---- Trigram similarity --------------------------------------------------------

  /** Character trigrams of a normalised, case-folded text, padded at the edges. */
  function Trigrams(folded: string): set<string> {
    if folded == "" then {}
    else
      var padded := "  " + folded + " ";
      set i | 0 <= i < |padded| - 2 :: Gram(padded, i)
  }

  function Gram(s: string, i: nat): string {
    if i + 3 <= |s| then s[i..i + 3] else ""
  }

  /** Jaccard similarity of two trigram sets. */
  function Jaccard(a: set<string>, b: set<string>): real {
    if a == {} || b == {} || |a * b| == 0 then 0.0 else |a * b| as real / |a + b| as real
  }

  function Similarity(left: string, right: string): real {
    Jaccard(Trigrams(left), Trigrams(right))
  }

  lemma UnionSize(a: set<string>, b: set<string>)
    ensures |a * b| <= |a + b|
    ensures |a * b| == |a + b| <==> a == b
  {
    var rest := (a + b) - (a * b);
    assert a + b == (a * b) + rest;
    if |a * b| == |a + b| {
      assert |rest| == 0;
      assert a * b == a + b;
      assert a == b;
    }
  }

  lemma FractionBounds(n: nat, m: nat)
    requires 0 < n <= m
    ensures 0.0 < n as real / m as real <= 1.0
    ensures n as real / m as real == 1.0 <==> n == m
  {}

  /** Similarity is symmetric, lies in [0, 1], is 1 exactly for equal trigram sets and 0 exactly for disjoint ones. */
  lemma JaccardLaws(a: set<string>, b: set<string>)
    ensures Jaccard(a, b) == Jaccard(b, a)
    ensures 0.0 <= Jaccard(a, b) <= 1.0
    ensures Jaccard(a, b) == 1.0 <==> a == b && a != {}
    ensures Jaccard(a, b) == 0.0 <==> a * b == {}
  {
    assert a * b == b * a && a + b == b + a;
    UnionSize(a, b);
    if |a * b| != 0 {
      FractionBounds(|a * b|, |a + b|);
    }
  }

  // ---- Seniority -----------------------------------------------------------------------

  const SENIORITY: set<string> := {
    "junior", "senior", "staff", "principal", "lead", "intern", "graduate", "associate", "fellow", "director"}

  predicate IsSeparator(c: char) {
    c in "()[],/-" || c == '\U{2013}' || c == '\U{2014}'
  }

  /** The seniority markers of a normalised, case-folded title. */
  function SeniorityTokens(folded: string): set<string> {
    set w | w in Words(Spaced(folded)) && w in SENIORITY
  }

  /** With blanks for separators. */
  function Spaced(s: string): string {
    seq(|s|, i requires 0 <= i < |s| => if IsSeparator(s[i]) then ' ' else s[i])
  }

  predicate TitlesCompatible(left: string, right: string) {
    SeniorityTokens(left) == SeniorityTokens(right)
  }

  // ---- The scan ---------------------------------------------------------------------------

  /** A row as the scan sees it. */
  datatype Scanned = Scanned(id: nat, compatible: bool, ratio: real)

  /** The similarity counts ten-thousandths. */
  datatype Best = Best(id: nat, similarity: int)

  predicate Eligible(c: Scanned, threshold: real) {
    c.compatible && c.ratio >= threshold
  }

  /** Position `m` holds the greatest ratio among the compatible rows. */
  predicate IsMaximum(rows: seq<Scanned>, m: nat)
    requires m < |rows|
  {
    rows[m].compatible && forall i :: 0 <= i < |rows| && rows[i].compatible ==> rows[i].ratio <= rows[m].ratio
  }

  /** The scan picked row `k`: it is within one quantum of the best, whose rounding is reported. */
  predicate Picked(rows: seq<Scanned>, threshold: real, best: Best, k: nat, m: nat)
    requires k < |rows| && m < |rows|
  {
    && IsMaximum(rows, m) && Eligible(rows[m], threshold)
    && Eligible(rows[k], threshold) && rows[k].id == best.id
    && best.similarity == HalfEven(rows[m].ratio, 10000) == HalfEven(rows[k].ratio, 10000)
    && rows[m].ratio - rows[k].ratio <= 0.0001
  }

  lemma SameRounding(a: real, b: real)
    requires a <= b && HalfEven(a, 10000) == HalfEven(b, 10000)
    ensures b - a <= 0.0001
  {
    HalfEvenClose(a, 10000);
    HalfEvenClose(b, 10000);
  }

  /** A ratio above the rounded value rounds at least as high; one not above it rounds no higher. */
  lemma AgainstRounded(ratio: real, rounded: int)
    ensures ratio > rounded as real / 10000.0 ==> HalfEven(ratio, 10000) >= rounded
    ensures ratio <= rounded as real / 10000.0 ==> HalfEven(ratio, 10000) <= rounded
  {
    HalfEvenExact(rounded, 10000);
    if ratio > rounded as real / 10000.0 {
      HalfEvenMonotone(rounded as real / 10000.0, ratio, 10000);
    } else {
      HalfEvenMonotone(ratio, rounded as real / 10000.0, 10000);
    }
  }

  /** What a further row does to the pick. */
  lemma ScanStep(rows: seq<Scanned>, c: Scanned, threshold: real, best: Best, k: nat, m: nat)
    requires k < |rows| && m < |rows| && Picked(rows, threshold, best, k, m)
    ensures var rows' := rows + [c];
      var m' := if c.compatible && c.ratio > rows[m].ratio then |rows| else m;
      if Eligible(c, threshold) && c.ratio > best.similarity as real / 10000.0 then
        Picked(rows', threshold, Best(c.id, HalfEven(c.ratio, 10000)), |rows|, m')
      else Picked(rows', threshold, best, k, m')
  {
    var top := rows[m].ratio;
    AgainstRounded(c.ratio, best.similarity);
    if c.ratio > top {
      HalfEvenMonotone(top, c.ratio, 10000);
      if HalfEven(c.ratio, 10000) == best.similarity {
        SameRounding(rows[k].ratio, c.ratio);
      }
    } else {
      HalfEvenMonotone(c.ratio, top, 10000);
      if HalfEven(c.ratio, 10000) == best.similarity {
        SameRounding(c.ratio, top);
      }
    }
  }

  /**
   The loop of the similarity probes. It compares each raw ratio with the rounded best so far, and
   still reports exactly the rounding of the true maximum over the compatible rows, fires exactly
   when some compatible row reaches the threshold, and picks a row within 0.0001 of the best.
   */
  method ScanBest(rows: seq<Scanned>, threshold: real) returns (best: Option<Best>)
    ensures best.Some? <==> exists i :: 0 <= i < |rows| && Eligible(rows[i], threshold)
    ensures best.Some? ==>
      exists k, m :: 0 <= k < |rows| && 0 <= m < |rows| && Picked(rows, threshold, best.value, k, m)
  {
    best := None;
    ghost var k, m := 0, 0;
    for n := 0 to |rows|
      invariant best.None? ==> forall i :: 0 <= i < n ==> !Eligible(rows[i], threshold)
      invariant best.Some? ==> k < n && m < n && Picked(rows[..n], threshold, best.value, k, m)
    {
      var c := rows[n];
      if !c.compatible {
        if best.Some? {
          ScanStep(rows[..n], c, threshold, best.value, k, m);
          assert rows[..n + 1] == rows[..n] + [c];
        }
        continue;
      }
      if best.Some? {
        ScanStep(rows[..n], c, threshold, best.value, k, m);
        assert rows[..n + 1] == rows[..n] + [c];
        m := if c.ratio > rows[m].ratio then n else m;
      }
      if c.ratio >= threshold && (best.None? || c.ratio > best.value.similarity as real / 10000.0) {
        if best.None? {
          m := n;
          assert forall i :: 0 <= i < n && rows[i].compatible ==> rows[i].ratio < threshold;
        }
        best := Some(Best(c.id, HalfEven(c.ratio, 10000)));
        k := n;
      }
    }
    assert rows[..|rows|] == rows;
  }
}
