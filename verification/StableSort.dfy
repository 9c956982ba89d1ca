/**
 Python's `sorted(..., reverse=True)` by a score: descending, and stable, so that elements of equal
 score stay in the order they came.
 */
module StableSort {

  /** Inserts a later element behind every element that scores at least as much. */
  function InsertDesc<T>(x: T, sorted: seq<T>, score: T -> real): (r: seq<T>)
    ensures multiset(r) == multiset(sorted) + multiset{x}
  {
    if sorted == [] then [x]
    else
      var n := |sorted| - 1;
      assert sorted == sorted[..n] + [sorted[n]];
      if score(sorted[n]) >= score(x) then sorted + [x] else InsertDesc(x, sorted[..n], score) + [sorted[n]]
  }

  function SortDesc<T>(xs: seq<T>, score: T -> real): (r: seq<T>)
    ensures multiset(r) == multiset(xs)
  {
    if xs == [] then []
    else
      var n := |xs| - 1;
      assert xs == xs[..n] + [xs[n]];
      InsertDesc(xs[n], SortDesc(xs[..n], score), score)
  }

  lemma InsertSnoc<T>(x: T, front: seq<T>, last: T, score: T -> real)
    ensures InsertDesc(x, front + [last], score) ==
      if score(last) >= score(x) then front + [last] + [x] else InsertDesc(x, front, score) + [last]
  {
    assert (front + [last])[..|front|] == front;
  }

  /** `a` belongs before `b`: it scores more, or as much and comes first in `xs`. */
  ghost predicate Precedes<T>(a: T, b: T, xs: seq<T>, score: T -> real) {
    score(a) > score(b) || (score(a) == score(b) && exists i, j :: 0 <= i < j < |xs| && xs[i] == a && xs[j] == b)
  }

  ghost predicate Ranked<T>(order: seq<T>, xs: seq<T>, score: T -> real) {
    forall i, j :: 0 <= i < j < |order| ==> Precedes(order[i], order[j], xs, score)
  }

  lemma SameMembers<T>(a: seq<T>, b: seq<T>)
    requires multiset(a) == multiset(b)
    ensures forall x :: x in a <==> x in b
  {
    assert forall x :: x in a <==> x in multiset(a);
    assert forall x :: x in b <==> x in multiset(b);
  }

  /** Sorting ranks by score, and elements of equal score as they came. */
  lemma {:induction false} SortDescRanked<T>(xs: seq<T>, score: T -> real)
    ensures Ranked(SortDesc(xs, score), xs, score)
  {
    if xs != [] {
      var n := |xs| - 1;
      var rest := SortDesc(xs[..n], score);
      SortDescRanked(xs[..n], score);
      forall a | a in rest
        ensures a in xs[..n]
      {
        assert a in multiset(rest);
        assert a in multiset(xs[..n]);
      }
      InsertDescRanked(xs[n], rest, xs[..n], score);
      assert xs == xs[..n] + [xs[n]];
    }
  }

  lemma {:induction false} InsertDescRanked<T>(x: T, sorted: seq<T>, xs: seq<T>, score: T -> real)
    requires Ranked(sorted, xs, score) && forall a :: a in sorted ==> a in xs
    ensures Ranked(InsertDesc(x, sorted, score), xs + [x], score)
  {
    if sorted != [] {
      var n := |sorted| - 1;
      assert sorted[n] in sorted;
      if score(sorted[n]) < score(x) {
        InsertDescRanked(x, sorted[..n], xs, score);
        RankedSnoc(x, sorted, InsertDesc(x, sorted[..n], score), xs, score);
      } else {
        RankedLast(x, sorted, xs, score);
      }
    }
  }

  /** The last element stays last when a better one is inserted before it. */
  lemma RankedSnoc<T>(x: T, sorted: seq<T>, front: seq<T>, xs: seq<T>, score: T -> real)
    requires sorted != [] && Ranked(sorted, xs, score)
    requires multiset(front) == multiset(sorted[..|sorted| - 1]) + multiset{x}
    requires Ranked(front, xs + [x], score) && score(sorted[|sorted| - 1]) < score(x)
    ensures Ranked(front + [sorted[|sorted| - 1]], xs + [x], score)
  {
    var n := |sorted| - 1;
    forall i | 0 <= i < |front|
      ensures Precedes(front[i], sorted[n], xs + [x], score)
    {
      assert front[i] in multiset(front);
      if front[i] != x {
        assert front[i] in multiset(sorted[..n]);
        var j :| 0 <= j < n && sorted[j] == front[i];
        assert Precedes(sorted[j], sorted[n], xs, score);
        StillPrecedes(sorted[j], sorted[n], xs, x, score);
      }
    }
  }

  lemma RankedLast<T>(x: T, sorted: seq<T>, xs: seq<T>, score: T -> real)
    requires sorted != [] && Ranked(sorted, xs, score)
    requires score(sorted[|sorted| - 1]) >= score(x) && forall a :: a in sorted ==> a in xs
    ensures Ranked(sorted + [x], xs + [x], score)
  {
    var r := sorted + [x];
    forall i, j | 0 <= i < j < |r|
      ensures Precedes(r[i], r[j], xs + [x], score)
    {
      assert sorted[i] in sorted;
      if j < |sorted| {
        assert Precedes(sorted[i], sorted[j], xs, score);
        StillPrecedes(sorted[i], sorted[j], xs, x, score);
      } else {
        LaterElement(sorted, i, xs, x, score);
      }
    }
  }

  lemma StillPrecedes<T>(a: T, b: T, xs: seq<T>, x: T, score: T -> real)
    requires Precedes(a, b, xs, score)
    ensures Precedes(a, b, xs + [x], score)
  {
    if score(a) == score(b) {
      var i, j :| 0 <= i < j < |xs| && xs[i] == a && xs[j] == b;
      assert (xs + [x])[i] == a && (xs + [x])[j] == b;
    }
  }

  /** An element inserted behind the last of a ranked list is preceded by all of it. */
  lemma LaterElement<T>(sorted: seq<T>, i: nat, xs: seq<T>, x: T, score: T -> real)
    requires i < |sorted| && Ranked(sorted, xs, score)
    requires score(sorted[|sorted| - 1]) >= score(x) && sorted[i] in xs
    ensures Precedes(sorted[i], x, xs + [x], score)
  {
    var n := |sorted| - 1;
    assert i < n ==> Precedes(sorted[i], sorted[n], xs, score);
    var p :| 0 <= p < |xs| && xs[p] == sorted[i];
    assert (xs + [x])[p] == sorted[i] && (xs + [x])[|xs|] == x;
  }
}
