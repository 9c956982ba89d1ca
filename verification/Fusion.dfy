/** Reciprocal rank fusion of ranked passage lists. */
module Fusion {
  import opened Wrappers
  import opened StableSort

  const RRF_K := 60

  /** A passage is identified by its chunk, or by the hash of its content when it has none. */
  datatype PassageKey = ChunkKey(id: nat) | ProfileKey(hash: int)

  datatype Passage = Passage(chunk: Option<nat>, content: string, document: Option<nat>)

  datatype Fused = Fused(passage: Passage, score: real)

  type Hash = string -> int

  function KeyOf(p: Passage, hash: Hash): PassageKey {
    if p.chunk.Some? then ChunkKey(p.chunk.value) else ProfileKey(hash(p.content))
  }

  /** What rank `i` (counted from zero) is worth. */
  function Gain(i: nat): real {
    1.0 / (RRF_K + 1 + i) as real
  }

  /** Passages are the same exactly when they have the same chunk, or none and the same content hash. */
  lemma SameKeyIff(p: Passage, q: Passage, hash: Hash)
    ensures KeyOf(p, hash) == KeyOf(q, hash) <==>
      p.chunk == q.chunk && (p.chunk.Some? || hash(p.content) == hash(q.content))
  {}

  /** The first rank is worth one sixty-first, and rank i of all one (60 + i)-th. */
  lemma GainIs(i: nat)
    ensures Gain(i) * (61 + i) as real == 1.0
  {}

  // ---- The declarative score --------------------------------------------------

  /** What one list gives a key: the sum over its occurrences at position `from` and after. */
  function ListScore(k: PassageKey, ranked: seq<Passage>, hash: Hash): real {
    if ranked == [] then 0.0
    else
      var n := |ranked| - 1;
      ListScore(k, ranked[..n], hash) + if KeyOf(ranked[n], hash) == k then Gain(n) else 0.0
  }

  /** What all lists give a key. */
  function Score(k: PassageKey, lists: seq<seq<Passage>>, hash: Hash): real {
    if lists == [] then 0.0
    else
      var n := |lists| - 1;
      Score(k, lists[..n], hash) + ListScore(k, lists[n], hash)
  }

  /** The key occurs in some list. */
  predicate Occurs(k: PassageKey, lists: seq<seq<Passage>>, hash: Hash) {
    exists i, j :: 0 <= i < |lists| && 0 <= j < |lists[i]| && KeyOf(lists[i][j], hash) == k
  }

  /** The last passage under a key. */
  function Last(k: PassageKey, passages: seq<Passage>, hash: Hash): Option<Passage> {
    if passages == [] then None
    else
      var n := |passages| - 1;
      if KeyOf(passages[n], hash) == k then Some(passages[n]) else Last(k, passages[..n], hash)
  }

  function Flatten(lists: seq<seq<Passage>>): seq<Passage> {
    if lists == [] then [] else Flatten(lists[..|lists| - 1]) + lists[|lists| - 1]
  }

  /** The distinct keys in order of first occurrence: the insertion order of the dictionary. */
  function FirstKeys(passages: seq<Passage>, hash: Hash): seq<PassageKey> {
    if passages == [] then []
    else
      var n := |passages| - 1;
      var rest, k := FirstKeys(passages[..n], hash), KeyOf(passages[n], hash);
      if k in rest then rest else rest + [k]
  }

  predicate Distinct(keys: seq<PassageKey>) {
    forall i, j :: 0 <= i < j < |keys| ==> keys[i] != keys[j]
  }

  lemma DistinctSnoc(keys: seq<PassageKey>, k: PassageKey)
    requires Distinct(keys) && k !in keys
    ensures Distinct(keys + [k])
  {}

  lemma {:induction false} FirstKeysShape(passages: seq<Passage>, hash: Hash)
    ensures Distinct(FirstKeys(passages, hash))
    ensures forall k :: k in FirstKeys(passages, hash) <==> Last(k, passages, hash).Some?
  {
    if passages != [] {
      var n := |passages| - 1;
      FirstKeysShape(passages[..n], hash);
      var rest, k := FirstKeys(passages[..n], hash), KeyOf(passages[n], hash);
      if k !in rest {
        DistinctSnoc(rest, k);
      }
    }
  }

  // ---- The dictionaries ----------------------------------------------------------

  /** The state of the double loop: the two dictionaries, and their keys in insertion order. */
  datatype Tally = Tally(keys: seq<PassageKey>, scores: map<PassageKey, real>, passages: map<PassageKey, Passage>)

  function ScoreIn(t: Tally, k: PassageKey): real {
    if k in t.scores then t.scores[k] else 0.0
  }

  function PassageIn(t: Tally, k: PassageKey): Option<Passage> {
    if k in t.passages then Some(t.passages[k]) else None
  }

  /** The dictionaries hold exactly the scores and the last passages of what was seen. */
  ghost predicate Tallies(t: Tally, lists: seq<seq<Passage>>, current: seq<Passage>, hash: Hash) {
    var seen := Flatten(lists) + current;
    && t.scores.Keys == t.passages.Keys
    && t.keys == FirstKeys(seen, hash)
    && (forall k :: ScoreIn(t, k) == Score(k, lists, hash) + ListScore(k, current, hash))
    && (forall k :: PassageIn(t, k) == Last(k, seen, hash))
  }

  function Add(t: Tally, k: PassageKey, gain: real, p: Passage): Tally {
    Tally(
      if k in t.scores then t.keys else t.keys + [k],
      t.scores[k := ScoreIn(t, k) + gain],
      t.passages[k := p])
  }

  lemma Snoc<T>(s: seq<T>, x: T)
    ensures (s + [x])[..|s|] == s && (s + [x])[|s|] == x
  {}

  lemma TallyStep(t: Tally, lists: seq<seq<Passage>>, current: seq<Passage>, p: Passage, hash: Hash)
    requires Tallies(t, lists, current, hash)
    ensures Tallies(Add(t, KeyOf(p, hash), Gain(|current|), p), lists, current + [p], hash)
  {
    var seen := Flatten(lists) + current;
    var t' := Add(t, KeyOf(p, hash), Gain(|current|), p);
    Snoc(current, p);
    Snoc(seen, p);
    FirstKeysShape(seen, hash);
    assert Flatten(lists) + (current + [p]) == seen + [p];
    assert KeyOf(p, hash) in t.keys <==> PassageIn(t, KeyOf(p, hash)).Some?;
    forall k
      ensures ScoreIn(t', k) == Score(k, lists, hash) + ListScore(k, current + [p], hash)
      ensures PassageIn(t', k) == Last(k, seen + [p], hash)
    {
      assert ScoreIn(t, k) == Score(k, lists, hash) + ListScore(k, current, hash);
      assert PassageIn(t, k) == Last(k, seen, hash);
    }
  }

  lemma TallyNext(t: Tally, lists: seq<seq<Passage>>, current: seq<Passage>, hash: Hash)
    requires Tallies(t, lists, current, hash)
    ensures Tallies(t, lists + [current], [], hash)
  {
    Snoc(lists, current);
    assert Flatten(lists + [current]) + [] == Flatten(lists) + current;
    forall k
      ensures ScoreIn(t, k) == Score(k, lists + [current], hash) + ListScore(k, [], hash)
    {
      assert ScoreIn(t, k) == Score(k, lists, hash) + ListScore(k, current, hash);
    }
  }

  // ---- Ranking ------------------------------------------------------------------------

  predicate HasAll(m: map<PassageKey, real>, keys: seq<PassageKey>) {
    forall k :: k in keys ==> k in m
  }

  /** The score under a key of the dictionary. */
  function ScoreOf(m: map<PassageKey, real>): PassageKey -> real {
    (k: PassageKey) => if k in m then m[k] else 0.0
  }

  // ---- The fusion -------------------------------------------------------------------------

  /** `s[:limit]`, which drops from the end for a negative limit. */
  function Prefix<T>(s: seq<T>, limit: int): seq<T> {
    if limit >= |s| then s else if limit >= 0 then s[..limit] else if -limit <= |s| then s[..|s| + limit] else []
  }

  /** All keys of the lists in the order of the result. */
  ghost predicate IsOrder(order: seq<PassageKey>, lists: seq<seq<Passage>>, hash: Hash) {
    var keys := FirstKeys(Flatten(lists), hash);
    && multiset(order) == multiset(keys)
    && forall i, j :: 0 <= i < j < |order| ==> Ahead(order[i], order[j], lists, hash)
  }

  /** A higher fused score, or the same and an earlier first occurrence. */
  ghost predicate Ahead(a: PassageKey, b: PassageKey, lists: seq<seq<Passage>>, hash: Hash) {
    var keys := FirstKeys(Flatten(lists), hash);
    || Score(a, lists, hash) > Score(b, lists, hash)
    || (Score(a, lists, hash) == Score(b, lists, hash) &&
       exists i, j :: 0 <= i < j < |keys| && keys[i] == a && keys[j] == b)
  }

  /** What is reported for a key: its last passage and its fused score. */
  ghost predicate Reports(f: Fused, k: PassageKey, lists: seq<seq<Passage>>, hash: Hash) {
    Last(k, Flatten(lists), hash) == Some(f.passage) && f.score == Score(k, lists, hash)
  }

  /** The result reports the first keys of an order. */
  ghost predicate IsFusion(r: seq<Fused>, order: seq<PassageKey>, lists: seq<seq<Passage>>, limit: int, hash: Hash) {
    && IsOrder(order, lists, hash)
    && |r| == |Prefix(order, limit)|
    && forall i :: 0 <= i < |r| ==> Reports(r[i], order[i], lists, hash)
  }

  /**
   Fuses the lists. Every key that occurs is ranked by the sum over its occurrences of
   1 / (60 + rank), ties by first occurrence; the first `limit` are reported.
   */
  method ReciprocalRankFusion(lists: seq<seq<Passage>>, limit: int, hash: Hash) returns (r: seq<Fused>)
    ensures exists order :: IsFusion(r, order, lists, limit, hash)
  {
    var t := Count(lists, hash);
    var sorted := SortDesc(t.keys, ScoreOf(t.scores));
    SortDescRanked(t.keys, ScoreOf(t.scores));
    SameMembers(sorted, t.keys);
    RankedIsOrder(sorted, t, lists, hash);
    var top := Prefix(sorted, limit);
    PrefixIsPrefix(sorted, limit);
    r := seq(|top|, i requires 0 <= i < |top| => Report(t, sorted[i]));
    assert IsFusion(r, sorted, lists, limit, hash);
  }

  /** What the dictionaries hold once every list has been counted. */
  ghost predicate Complete(t: Tally, lists: seq<seq<Passage>>, hash: Hash) {
    && t.keys == FirstKeys(Flatten(lists), hash)
    && HasAll(t.scores, t.keys)
    && t.scores.Keys == t.passages.Keys
    && (forall k :: k in t.scores ==> t.scores[k] == Score(k, lists, hash))
    && (forall k :: k in t.passages ==> Last(k, Flatten(lists), hash) == Some(t.passages[k]))
  }

  function Report(t: Tally, k: PassageKey): Fused
    requires k in t.passages && k in t.scores
  {
    Fused(t.passages[k], t.scores[k])
  }

  /** An order ranked by the counted scores is one ranked by the fused scores. */
  lemma RankedIsOrder(order: seq<PassageKey>, t: Tally, lists: seq<seq<Passage>>, hash: Hash)
    requires Complete(t, lists, hash) && multiset(order) == multiset(t.keys)
    requires HasAll(t.scores, order) && Ranked(order, t.keys, ScoreOf(t.scores))
    ensures IsOrder(order, lists, hash)
  {
    forall i, j | 0 <= i < j < |order|
      ensures Ahead(order[i], order[j], lists, hash)
    {
      assert order[i] in t.scores && order[j] in t.scores;
      assert Precedes(order[i], order[j], t.keys, ScoreOf(t.scores));
      ScoredAhead(order[i], order[j], t, lists, hash);
    }
  }

  lemma ScoredAhead(a: PassageKey, b: PassageKey, t: Tally, lists: seq<seq<Passage>>, hash: Hash)
    requires Complete(t, lists, hash) && a in t.scores && b in t.scores
    requires Precedes(a, b, t.keys, ScoreOf(t.scores))
    ensures Ahead(a, b, lists, hash)
  {}

  /** The loop over the lists. */
  method Count(lists: seq<seq<Passage>>, hash: Hash) returns (t: Tally)
    ensures Complete(t, lists, hash)
  {
    t := Tally([], map[], map[]);
    for i := 0 to |lists|
      invariant Tallies(t, lists[..i], [], hash)
    {
      assert lists[..i + 1] == lists[..i] + [lists[i]];
      t := CountList(t, lists[..i], lists[i], hash);
    }
    TallyComplete(t, lists, hash);
  }

  /** The loop over one list. */
  method CountList(before: Tally, ghost lists: seq<seq<Passage>>, ranked: seq<Passage>, hash: Hash) returns (t: Tally)
    requires Tallies(before, lists, [], hash)
    ensures Tallies(t, lists + [ranked], [], hash)
  {
    t := before;
    for j := 0 to |ranked|
      invariant Tallies(t, lists, ranked[..j], hash)
    {
      TallyStep(t, lists, ranked[..j], ranked[j], hash);
      assert ranked[..j + 1] == ranked[..j] + [ranked[j]];
      t := Add(t, KeyOf(ranked[j], hash), 1.0 / (RRF_K + (j + 1)) as real, ranked[j]);
    }
    assert ranked[..|ranked|] == ranked;
    TallyNext(t, lists, ranked, hash);
  }

  /** What the dictionaries hold after the loops. */
  lemma TallyComplete(t: Tally, lists: seq<seq<Passage>>, hash: Hash)
    requires Tallies(t, lists[..|lists|], [], hash)
    ensures Complete(t, lists, hash)
  {
    assert lists[..|lists|] == lists && Flatten(lists) + [] == Flatten(lists);
    FirstKeysShape(Flatten(lists), hash);
    forall k
      ensures k in t.scores ==> t.scores[k] == Score(k, lists, hash)
      ensures k in t.passages ==> Last(k, Flatten(lists), hash) == Some(t.passages[k])
      ensures k in t.keys ==> k in t.scores
    {
      assert ScoreIn(t, k) == Score(k, lists, hash) + ListScore(k, [], hash);
      assert PassageIn(t, k) == Last(k, Flatten(lists), hash);
    }
  }

  // ---- Mass and dominance ------------------------------------------------------------------

  /** The worth of all positions of a list. */
  function Positions(n: nat): real {
    if n == 0 then 0.0 else Positions(n - 1) + Gain(n - 1)
  }

  function AllPositions(lists: seq<seq<Passage>>): real {
    if lists == [] then 0.0 else AllPositions(lists[..|lists| - 1]) + Positions(|lists[|lists| - 1]|)
  }

  function Mass(keys: seq<PassageKey>, lists: seq<seq<Passage>>, hash: Hash): real {
    if keys == [] then 0.0 else Score(keys[0], lists, hash) + Mass(keys[1..], lists, hash)
  }

  function ListMass(keys: seq<PassageKey>, ranked: seq<Passage>, hash: Hash): real {
    if keys == [] then 0.0 else ListScore(keys[0], ranked, hash) + ListMass(keys[1..], ranked, hash)
  }

  /** One more position gives its worth to exactly one key. */
  lemma {:induction false} ListMassStep(keys: seq<PassageKey>, ranked: seq<Passage>, hash: Hash)
    requires ranked != [] && Distinct(keys)
    ensures var n := |ranked| - 1;
      ListMass(keys, ranked, hash) ==
        ListMass(keys, ranked[..n], hash) + if KeyOf(ranked[n], hash) in keys then Gain(n) else 0.0
  {
    if keys != [] {
      ListMassStep(keys[1..], ranked, hash);
      assert keys == [keys[0]] + keys[1..];
      assert keys[0] !in keys[1..];
    }
  }

  lemma {:induction false} ListMassIsPositions(keys: seq<PassageKey>, ranked: seq<Passage>, hash: Hash)
    requires Distinct(keys) && forall i :: 0 <= i < |ranked| ==> KeyOf(ranked[i], hash) in keys
    ensures ListMass(keys, ranked, hash) == Positions(|ranked|)
  {
    if ranked == [] {
      EmptyListMass(keys, hash);
    } else {
      ListMassStep(keys, ranked, hash);
      ListMassIsPositions(keys, ranked[..|ranked| - 1], hash);
    }
  }

  lemma {:induction false} EmptyListMass(keys: seq<PassageKey>, hash: Hash)
    ensures ListMass(keys, [], hash) == 0.0
  {
    if keys != [] {
      EmptyListMass(keys[1..], hash);
    }
  }

  lemma {:induction false} MassStep(keys: seq<PassageKey>, lists: seq<seq<Passage>>, hash: Hash)
    ensures lists == [] ==> Mass(keys, lists, hash) == 0.0
    ensures lists != [] ==>
      Mass(keys, lists, hash) == Mass(keys, lists[..|lists| - 1], hash) + ListMass(keys, lists[|lists| - 1], hash)
  {
    if keys != [] {
      MassStep(keys[1..], lists, hash);
    }
  }

  predicate KeysCover(keys: seq<PassageKey>, lists: seq<seq<Passage>>, hash: Hash) {
    forall i, j :: 0 <= i < |lists| && 0 <= j < |lists[i]| ==> KeyOf(lists[i][j], hash) in keys
  }

  /** No mass is lost or invented: the scores of all keys sum to the worth of all list positions. */
  lemma {:induction false} MassIsConserved(keys: seq<PassageKey>, lists: seq<seq<Passage>>, hash: Hash)
    requires Distinct(keys) && KeysCover(keys, lists, hash)
    ensures Mass(keys, lists, hash) == AllPositions(lists)
  {
    MassStep(keys, lists, hash);
    if lists != [] {
      var n := |lists| - 1;
      forall i, j | 0 <= i < n && 0 <= j < |lists[..n][i]|
        ensures KeyOf(lists[..n][i][j], hash) in keys
      {
        assert lists[..n][i] == lists[i];
      }
      MassIsConserved(keys, lists[..n], hash);
      ListMassIsPositions(keys, lists[n], hash);
    }
  }

  predicate NoRepeats(ranked: seq<Passage>, hash: Hash) {
    forall i, j :: 0 <= i < j < |ranked| ==> KeyOf(ranked[i], hash) != KeyOf(ranked[j], hash)
  }

  /** `k` stands at position `i`. */
  predicate StandsAt(k: PassageKey, ranked: seq<Passage>, i: int, hash: Hash) {
    0 <= i < |ranked| && KeyOf(ranked[i], hash) == k
  }

  lemma {:induction false} ListScoreNonNegative(k: PassageKey, ranked: seq<Passage>, hash: Hash)
    ensures ListScore(k, ranked, hash) >= 0.0
    ensures (forall i :: !StandsAt(k, ranked, i, hash)) ==> ListScore(k, ranked, hash) == 0.0
  {
    if ranked != [] {
      var n := |ranked| - 1;
      ListScoreNonNegative(k, ranked[..n], hash);
      if forall i :: !StandsAt(k, ranked, i, hash) {
        assert !StandsAt(k, ranked, n, hash);
        assert forall i :: StandsAt(k, ranked[..n], i, hash) ==> StandsAt(k, ranked, i, hash);
      }
    }
  }

  /** Without repeats, a list is worth exactly the position. */
  lemma {:induction false} ListScoreIsGain(k: PassageKey, ranked: seq<Passage>, i: nat, hash: Hash)
    requires NoRepeats(ranked, hash) && StandsAt(k, ranked, i, hash)
    ensures ListScore(k, ranked, hash) == Gain(i)
  {
    var n := |ranked| - 1;
    if i == n {
      assert forall j :: 0 <= j < n ==> KeyOf(ranked[j], hash) != KeyOf(ranked[n], hash);
      assert forall j :: !StandsAt(k, ranked[..n], j, hash);
      ListScoreNonNegative(k, ranked[..n], hash);
    } else {
      assert KeyOf(ranked[i], hash) != KeyOf(ranked[n], hash);
      assert StandsAt(k, ranked[..n], i, hash);
      ListScoreIsGain(k, ranked[..n], i, hash);
    }
  }

  lemma InverseDecreases(x: real, y: real)
    requires 0.0 < x < y
    ensures 0.0 < 1.0 / y < 1.0 / x
  {
    var g, h := 1.0 / y, 1.0 / x;
    assert g * y == 1.0 && h * x == 1.0;
    assert g * x < g * y;
    assert h <= g ==> h * x <= g * x;
  }

  lemma GainDecreases(i: nat, j: nat)
    requires i < j
    ensures 0.0 < Gain(j) < Gain(i)
  {
    InverseDecreases((RRF_K + 1 + i) as real, (RRF_K + 1 + j) as real);
  }

  /** In this list, `a` stands ahead of `b` wherever `b` stands. */
  ghost predicate Dominates(a: PassageKey, b: PassageKey, ranked: seq<Passage>, hash: Hash) {
    forall j :: StandsAt(b, ranked, j, hash) ==> exists i :: i < j && StandsAt(a, ranked, i, hash)
  }

  lemma DominatedScore(a: PassageKey, b: PassageKey, ranked: seq<Passage>, hash: Hash)
    requires NoRepeats(ranked, hash) && Dominates(a, b, ranked, hash)
    ensures ListScore(a, ranked, hash) >= ListScore(b, ranked, hash)
    ensures (exists j :: StandsAt(b, ranked, j, hash)) ==> ListScore(a, ranked, hash) > ListScore(b, ranked, hash)
  {
    ListScoreNonNegative(a, ranked, hash);
    ListScoreNonNegative(b, ranked, hash);
    if j :| StandsAt(b, ranked, j, hash) {
      var i :| i < j && StandsAt(a, ranked, i, hash);
      ListScoreIsGain(a, ranked, i, hash);
      ListScoreIsGain(b, ranked, j, hash);
      GainDecreases(i, j);
    }
  }

  lemma {:induction false} DominatedTotal(a: PassageKey, b: PassageKey, lists: seq<seq<Passage>>, hash: Hash)
    requires forall l :: 0 <= l < |lists| ==> NoRepeats(lists[l], hash) && Dominates(a, b, lists[l], hash)
    ensures Score(a, lists, hash) >= Score(b, lists, hash)
    ensures Occurs(b, lists, hash) ==> Score(a, lists, hash) > Score(b, lists, hash)
  {
    if lists != [] {
      var n := |lists| - 1;
      DominatedTotal(a, b, lists[..n], hash);
      DominatedScore(a, b, lists[n], hash);
      if Occurs(b, lists, hash) {
        var i, j :| 0 <= i < |lists| && 0 <= j < |lists[i]| && KeyOf(lists[i][j], hash) == b;
        if i < n {
          assert lists[..n][i] == lists[i];
          assert Occurs(b, lists[..n], hash);
        } else {
          assert StandsAt(b, lists[n], j, hash);
        }
      }
    }
  }

  /**
   For lists without repeats, a passage that stands ahead of another in every list holding the other
   always precedes it in the result, so it is never cut while the other is kept.
   */
  lemma DominantPrecedes(a: PassageKey, b: PassageKey, lists: seq<seq<Passage>>,
    order: seq<PassageKey>, limit: int, hash: Hash)
    requires forall l :: 0 <= l < |lists| ==> NoRepeats(lists[l], hash) && Dominates(a, b, lists[l], hash)
    requires IsOrder(order, lists, hash) && Occurs(b, lists, hash)
    ensures exists i, j :: 0 <= i < j < |order| && order[i] == a && order[j] == b
    ensures b in Prefix(order, limit) ==> a in Prefix(order, limit)
  {
    DominatedTotal(a, b, lists, hash);
    OccursInOrder(a, b, lists, hash);
    SameMembers(order, FirstKeys(Flatten(lists), hash));
    var i :| 0 <= i < |order| && order[i] == a;
    var j :| 0 <= j < |order| && order[j] == b;
    HigherIsEarlier(order, i, j, lists, hash);
    if b in Prefix(order, limit) {
      PrefixIsPrefix(order, limit);
      var m :| 0 <= m < |Prefix(order, limit)| && Prefix(order, limit)[m] == b;
      HigherIsEarlier(order, i, m, lists, hash);
      assert Prefix(order, limit)[i] == a;
    }
  }

  lemma {:induction false} LastHasKey(k: PassageKey, passages: seq<Passage>, hash: Hash)
    requires Last(k, passages, hash).Some?
    ensures KeyOf(Last(k, passages, hash).value, hash) == k
  {
    var n := |passages| - 1;
    if KeyOf(passages[n], hash) != k {
      LastHasKey(k, passages[..n], hash);
    }
  }

  /** In the result itself: wherever the dominated passage is reported, the dominant one is reported before it. */
  lemma DominantIsReported(
    a: PassageKey, b: PassageKey, lists: seq<seq<Passage>>, r: seq<Fused>, order: seq<PassageKey>,
    limit: int, hash: Hash, j: nat)
    requires forall l :: 0 <= l < |lists| ==> NoRepeats(lists[l], hash) && Dominates(a, b, lists[l], hash)
    requires IsFusion(r, order, lists, limit, hash) && Occurs(b, lists, hash)
    requires j < |r| && KeyOf(r[j].passage, hash) == b
    ensures exists i :: 0 <= i < j && KeyOf(r[i].passage, hash) == a && r[i].score > r[j].score
  {
    PrefixIsPrefix(order, limit);
    assert Reports(r[j], order[j], lists, hash);
    LastHasKey(order[j], Flatten(lists), hash);
    DominatedTotal(a, b, lists, hash);
    OccursInOrder(a, b, lists, hash);
    SameMembers(order, FirstKeys(Flatten(lists), hash));
    var i :| 0 <= i < |order| && order[i] == a;
    HigherIsEarlier(order, i, j, lists, hash);
    assert Reports(r[i], order[i], lists, hash);
    LastHasKey(order[i], Flatten(lists), hash);
  }

  lemma PrefixIsPrefix<T>(s: seq<T>, limit: int)
    ensures Prefix(s, limit) <= s
  {}

  lemma HigherIsEarlier(order: seq<PassageKey>, i: nat, j: nat, lists: seq<seq<Passage>>, hash: Hash)
    requires IsOrder(order, lists, hash) && i < |order| && j < |order|
    requires Score(order[i], lists, hash) > Score(order[j], lists, hash)
    ensures i < j
  {
    forall p, q | 0 <= p < q < |order|
      ensures Score(order[p], lists, hash) >= Score(order[q], lists, hash)
    {
      assert Ahead(order[p], order[q], lists, hash);
    }
  }

  /** Both passages are among the ranked keys. */
  lemma OccursInOrder(a: PassageKey, b: PassageKey, lists: seq<seq<Passage>>, hash: Hash)
    requires Occurs(b, lists, hash) && forall l :: 0 <= l < |lists| ==> Dominates(a, b, lists[l], hash)
    ensures a in FirstKeys(Flatten(lists), hash) && b in FirstKeys(Flatten(lists), hash)
  {
    var l, j :| 0 <= l < |lists| && 0 <= j < |lists[l]| && KeyOf(lists[l][j], hash) == b;
    assert StandsAt(b, lists[l], j, hash);
    var i :| i < j && StandsAt(a, lists[l], i, hash);
    FlattenHolds(lists, l, i, hash);
    FlattenHolds(lists, l, j, hash);
    FirstKeysShape(Flatten(lists), hash);
  }

  lemma {:induction false} FlattenHolds(lists: seq<seq<Passage>>, l: nat, i: nat, hash: Hash)
    requires l < |lists| && i < |lists[l]|
    ensures Last(KeyOf(lists[l][i], hash), Flatten(lists), hash).Some?
  {
    var n := |lists| - 1;
    var k := KeyOf(lists[l][i], hash);
    if l == n {
      assert Flatten(lists)[|Flatten(lists[..n])| + i] == lists[l][i];
      LastFinds(Flatten(lists), |Flatten(lists[..n])| + i, hash);
    } else {
      FlattenHolds(lists[..n], l, i, hash);
      LastAppend(k, Flatten(lists[..n]), lists[n], hash);
    }
  }

  lemma {:induction false} LastFinds(passages: seq<Passage>, i: nat, hash: Hash)
    requires i < |passages|
    ensures Last(KeyOf(passages[i], hash), passages, hash).Some?
  {
    if i < |passages| - 1 {
      LastFinds(passages[..|passages| - 1], i, hash);
    }
  }

  lemma {:induction false} LastAppend(k: PassageKey, a: seq<Passage>, b: seq<Passage>, hash: Hash)
    requires Last(k, a, hash).Some?
    ensures Last(k, a + b, hash).Some?
  {
    if b == [] {
      assert a + b == a;
    } else {
      LastAppend(k, a, b[..|b| - 1], hash);
      assert (a + b)[..|a + b| - 1] == a + b[..|b| - 1];
    }
  }
}
