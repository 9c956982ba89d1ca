/** The sliding-window counter behind both rate limiters, over whole call histories. */
module SlidingWindow {

  /** Whether a hit at `x` has left a window that starts at `cutoff`. */
  predicate Old(closed: bool, x: real, cutoff: real) {
    if closed then x < cutoff else x <= cutoff
  }

  /** Whether a hit at `x` lies in the window that ends at `t`. */
  predicate InWindow(closed: bool, width: real, x: real, t: real) {
    x <= t && !Old(closed, x, t - width)
  }

  /** The half-open window is (t - width, t], the closed one [t - width, t]. */
  lemma WindowBounds(width: real, x: real, t: real)
    ensures InWindow(false, width, x, t) <==> t - width < x <= t
    ensures InWindow(true, width, x, t) <==> t - width <= x <= t
  {}

  /** How many hits at the front have left the window. */
  function Expired(deque: seq<real>, cutoff: real, closed: bool): (n: nat)
    ensures n <= |deque|
    ensures n < |deque| ==> !Old(closed, deque[n], cutoff)
    ensures forall i :: 0 <= i < n ==> Old(closed, deque[i], cutoff)
  {
    if deque != [] && Old(closed, deque[0], cutoff) then 1 + Expired(deque[1..], cutoff, closed) else 0
  }

  /** One key: the hits the limiter remembers, and the accepted hits it has forgotten. */
  datatype Window = Window(deque: seq<real>, gone: seq<real>)

  const FRESH := Window([], [])

  function Accepted(s: Window): seq<real> {
    s.gone + s.deque
  }

  /** What a limiter is configured with for one key. */
  datatype Rule = Rule(limit: int, width: real, closed: bool)

  function Purge(s: Window, now: real, rule: Rule): Window {
    var n := Expired(s.deque, now - rule.width, rule.closed);
    Window(s.deque[n..], s.gone + s.deque[..n])
  }

  predicate Admits(s: Window, now: real, rule: Rule) {
    |Purge(s, now, rule).deque| < rule.limit
  }

  /** One hit. */
  function Hit(s: Window, now: real, rule: Rule): Window {
    var p := Purge(s, now, rule);
    if Admits(s, now, rule) then Window(p.deque + [now], p.gone) else p
  }

  predicate Sorted(xs: seq<real>) {
    forall i, j :: 0 <= i <= j < |xs| ==> xs[i] <= xs[j]
  }

  /** A hit and the one `limit` hits later never share a window. */
  predicate Spaced(xs: seq<real>, rule: Rule) {
    forall i, j :: 0 <= i < j < |xs| && j - i >= rule.limit ==> Old(rule.closed, xs[i], xs[j] - rule.width)
  }

  /** All hits so far lie in the past, and the forgotten ones outside the window. */
  predicate Forgotten(s: Window, rule: Rule, last: real) {
    && (forall i :: 0 <= i < |Accepted(s)| ==> Accepted(s)[i] <= last)
    && (forall i :: 0 <= i < |s.gone| ==> Old(rule.closed, s.gone[i], last - rule.width))
  }

  /** What every hit keeps; `last` is the time of the latest one. */
  predicate Valid(s: Window, rule: Rule, last: real) {
    && (Accepted(s) != [] ==> |s.deque| <= rule.limit && rule.limit >= 1)
    && Sorted(Accepted(s))
    && Spaced(Accepted(s), rule)
    && Forgotten(s, rule, last)
  }

  lemma OldLater(closed: bool, x: real, a: real, b: real)
    requires Old(closed, x, a) && a <= b
    ensures Old(closed, x, b)
  {}

  /** Expiring only moves hits that have left the window. */
  lemma PurgeAccepted(s: Window, rule: Rule, now: real)
    ensures Accepted(Purge(s, now, rule)) == Accepted(s)
  {
    var n := Expired(s.deque, now - rule.width, rule.closed);
    assert s.deque == s.deque[..n] + s.deque[n..];
    assert (s.gone + s.deque[..n]) + s.deque[n..] == s.gone + (s.deque[..n] + s.deque[n..]);
  }

  lemma PurgeValid(s: Window, rule: Rule, last: real, now: real)
    requires Valid(s, rule, last) && last <= now
    ensures Valid(Purge(s, now, rule), rule, now)
  {
    PurgeAccepted(s, rule, now);
    var p := Purge(s, now, rule);
    forall i | 0 <= i < |p.gone|
      ensures Old(rule.closed, p.gone[i], now - rule.width)
    {
      if i < |s.gone| {
        OldLater(rule.closed, s.gone[i], last - rule.width, now - rule.width);
      }
    }
  }

  lemma AcceptValid(p: Window, rule: Rule, now: real)
    requires Valid(p, rule, now) && |p.deque| < rule.limit && rule.width >= 0.0
    ensures Valid(Window(p.deque + [now], p.gone), rule, now)
  {
    var xs := Accepted(p) + [now];
    assert Accepted(Window(p.deque + [now], p.gone)) == xs;
    forall i, j | 0 <= i < j < |xs| && j - i >= rule.limit
      ensures Old(rule.closed, xs[i], xs[j] - rule.width)
    {
      if j == |Accepted(p)| {
        assert xs[i] == p.gone[i];
      } else {
        assert xs[i] == Accepted(p)[i] && xs[j] == Accepted(p)[j];
      }
    }
  }

  lemma HitValid(s: Window, rule: Rule, last: real, now: real)
    requires Valid(s, rule, last) && last <= now && rule.width >= 0.0
    ensures Valid(Hit(s, now, rule), rule, now)
  {
    var p := Purge(s, now, rule);
    assert Valid(p, rule, now) by {
      PurgeValid(s, rule, last, now);
    }
    if |p.deque| < rule.limit {
      assert Hit(s, now, rule) == Window(p.deque + [now], p.gone);
      AcceptValid(p, rule, now);
    } else {
      assert Hit(s, now, rule) == p;
    }
  }

  // ---- Counting hits in a window -------------------------------------------------

  function CountIn(xs: seq<real>, rule: Rule, t: real): nat {
    if xs == [] then 0
    else CountIn(xs[..|xs| - 1], rule, t) + if InWindow(rule.closed, rule.width, xs[|xs| - 1], t) then 1 else 0
  }

  /** Hits outside the window at the front do not count. */
  lemma {:induction false} CountSuffix(xs: seq<real>, m: nat, rule: Rule, t: real)
    requires m <= |xs| && forall i :: 0 <= i < m ==> !InWindow(rule.closed, rule.width, xs[i], t)
    ensures CountIn(xs, rule, t) <= |xs| - m
    ensures (forall i :: m <= i < |xs| ==> InWindow(rule.closed, rule.width, xs[i], t)) ==>
      CountIn(xs, rule, t) == |xs| - m
  {
    if xs != [] {
      var n := |xs| - 1;
      CountSuffix(xs[..n], if m <= n then m else n, rule, t);
    }
  }

  /** Spaced hits never put more than `limit` into one window, wherever it ends. */
  lemma {:induction false} SpacedCount(xs: seq<real>, rule: Rule, t: real)
    requires Sorted(xs) && Spaced(xs, rule) && rule.limit >= 1
    ensures CountIn(xs, rule, t) <= rule.limit
  {
    if xs != [] {
      var n := |xs| - 1;
      if xs[n] > t {
        SpacedCount(xs[..n], rule, t);
      } else {
        var m := if |xs| >= rule.limit then |xs| - rule.limit else 0;
        forall i | 0 <= i < m
          ensures !InWindow(rule.closed, rule.width, xs[i], t)
        {
          if rule.limit > n - i {
            assert false;
          }
          OldLater(rule.closed, xs[i], xs[n] - rule.width, t - rule.width);
        }
        CountSuffix(xs, m, rule, t);
      }
    }
  }

  /** The limiter's own count is the number of accepted hits in the window that ends now. */
  lemma PurgeCounts(s: Window, rule: Rule, last: real, now: real)
    requires Valid(s, rule, last) && last <= now
    ensures |Purge(s, now, rule).deque| == CountIn(Accepted(s), rule, now)
  {
    var p := Purge(s, now, rule);
    PurgeAccepted(s, rule, now);
    PurgeValid(s, rule, last, now);
    WindowIsDeque(p, rule, now);
    CountSuffix(Accepted(p), |p.gone|, rule, now);
  }

  lemma WindowIsDeque(p: Window, rule: Rule, now: real)
    requires Valid(p, rule, now) && (p.deque != [] ==> !Old(rule.closed, p.deque[0], now - rule.width))
    ensures forall i :: 0 <= i < |Accepted(p)| ==>
      (InWindow(rule.closed, rule.width, Accepted(p)[i], now) <==> i >= |p.gone|)
  {
    var xs := Accepted(p);
    forall i | 0 <= i < |xs|
      ensures InWindow(rule.closed, rule.width, xs[i], now) <==> i >= |p.gone|
    {
      if i < |p.gone| {
        assert xs[i] == p.gone[i];
      } else {
        assert xs[|p.gone|] == p.deque[0] && xs[|p.gone|] <= xs[i];
      }
    }
  }

  // ---- Whole histories -------------------------------------------------------------

  datatype Request = Request(key: string, now: real)

  type Rules = string -> Rule

  function WindowOf(m: map<string, Window>, key: string): Window {
    if key in m then m[key] else FRESH
  }

  /** The state after a history of hits on any keys. */
  function Run(history: seq<Request>, rules: Rules): map<string, Window> {
    if history == [] then map[]
    else
      var n := |history| - 1;
      var before, r := Run(history[..n], rules), history[n];
      before[r.key := Hit(WindowOf(before, r.key), r.now, rules(r.key))]
  }

  predicate Chronological(history: seq<Request>) {
    forall i, j :: 0 <= i <= j < |history| ==> history[i].now <= history[j].now
  }

  predicate UsableRules(rules: Rules, history: seq<Request>) {
    forall i :: 0 <= i < |history| ==> rules(history[i].key).width >= 0.0
  }

  predicate AllValid(m: map<string, Window>, rules: Rules, last: real) {
    forall k :: k in m ==> Valid(m[k], rules(k), last)
  }

  lemma ValidLater(s: Window, rule: Rule, last: real, now: real)
    requires Valid(s, rule, last) && last <= now
    ensures Valid(s, rule, now)
  {
    forall i | 0 <= i < |s.gone|
      ensures Old(rule.closed, s.gone[i], now - rule.width)
    {
      OldLater(rule.closed, s.gone[i], last - rule.width, now - rule.width);
    }
  }

  lemma AllValidLater(m: map<string, Window>, rules: Rules, last: real, now: real)
    requires AllValid(m, rules, last) && last <= now
    ensures AllValid(m, rules, now)
  {
    forall k | k in m
      ensures Valid(m[k], rules(k), now)
    {
      ValidLater(m[k], rules(k), last, now);
    }
  }

  lemma {:induction false} RunValid(history: seq<Request>, rules: Rules, last: real)
    requires Chronological(history) && UsableRules(rules, history)
    requires history != [] ==> last >= history[|history| - 1].now
    ensures AllValid(Run(history, rules), rules, last)
  {
    if history != [] {
      var n := |history| - 1;
      var before, r := Run(history[..n], rules), history[n];
      RunValid(history[..n], rules, r.now);
      HitValid(WindowOf(before, r.key), rules(r.key), r.now, r.now);
      AllValidLater(Run(history, rules), rules, r.now, last);
    }
  }

  /** The accepted hits of one key after a history. */
  function AcceptedBy(history: seq<Request>, rules: Rules, key: string): seq<real> {
    Accepted(WindowOf(Run(history, rules), key))
  }

  /**
   Safety over any history: for non-decreasing times and a fixed rule per key, no window of any key,
   wherever it ends, ever holds more accepted hits than the limit.
   */
  lemma NeverOverLimit(history: seq<Request>, rules: Rules, key: string, t: real)
    requires Chronological(history) && UsableRules(rules, history)
    ensures var n := CountIn(AcceptedBy(history, rules, key), rules(key), t);
      n == 0 || n <= rules(key).limit
  {
    RunValid(history, rules, if history == [] then 0.0 else history[|history| - 1].now);
    var xs := AcceptedBy(history, rules, key);
    if xs != [] {
      SpacedCount(xs, rules(key), t);
    }
  }

  /** A hit is refused exactly when the window that ends with it is full. */
  lemma RefusedOnlyWhenFull(history: seq<Request>, rules: Rules, key: string, now: real)
    requires Chronological(history) && UsableRules(rules, history)
    requires history != [] ==> now >= history[|history| - 1].now
    ensures Admits(WindowOf(Run(history, rules), key), now, rules(key)) <==>
      CountIn(AcceptedBy(history, rules, key), rules(key), now) < rules(key).limit
  {
    var s := WindowOf(Run(history, rules), key);
    assert Valid(s, rules(key), now) by {
      RunValid(history, rules, now);
    }
    PurgeCounts(s, rules(key), now, now);
  }
}
