/** The two in-process rate limiters: HTTP requests per identity, and tool calls per tool. */
module RateLimiters {
  import opened SlidingWindow

  /** `IndexError` is what an empty deque under a non-positive limit raises. */
  datatype Outcome = Allowed | Refused(retryAfter: int) | IndexError

  function HttpRule(limit: int, windowS: int): Rule {
    Rule(limit, windowS as real, false)
  }

  /** Whole seconds until the oldest remembered hit leaves the window, rounded up past it. */
  function RetryAfter(oldest: real, windowS: int, now: real): int {
    var wait := (oldest + windowS as real - now).Floor + 1;
    if wait >= 1 then wait else 1
  }

  /** The answer to a hit when these hits are left in the window. */
  function Decide(deque: seq<real>, limit: int, windowS: int, now: real): Outcome {
    if |deque| < limit then Allowed
    else if deque == [] then IndexError
    else Refused(RetryAfter(deque[0], windowS, now))
  }

  /** The answer to a hit. */
  function Answer(s: Window, limit: int, windowS: int, now: real): Outcome {
    Decide(Purge(s, now, HttpRule(limit, windowS)).deque, limit, windowS, now)
  }

  /** The answer and the new state in terms of what is left after expiry. */
  lemma ByPurge(s: Window, p: Window, limit: int, windowS: int, now: real)
    requires p == Purge(s, now, HttpRule(limit, windowS))
    ensures p.deque == s.deque[Expired(s.deque, now - windowS as real, false)..]
    ensures Answer(s, limit, windowS, now) == Decide(p.deque, limit, windowS, now)
    ensures SlidingWindow.Hit(s, now, HttpRule(limit, windowS)) ==
      if |p.deque| < limit then Window(p.deque + [now], p.gone) else p
  {}

  /** A limiter whose limit is not positive raises on every hit, and no other one ever does. */
  lemma IndexErrorIff(s: Window, limit: int, windowS: int, last: real, now: real)
    requires Valid(s, HttpRule(limit, windowS), last) && last <= now
    ensures Answer(s, limit, windowS, now) == IndexError <==> limit <= 0
  {
    PurgeAccepted(s, HttpRule(limit, windowS), now);
  }

  /**
   After a refusal and with no other hits, the next hit is accepted exactly from the moment the
   oldest remembered hit leaves the window; the reported wait is enough and overshoots by at most a second.
   */
  lemma RetryAfterIsEnough(s: Window, limit: int, windowS: int, last: real, now: real, t: real)
    requires Valid(s, HttpRule(limit, windowS), last) && last <= now <= t
    requires Answer(s, limit, windowS, now).Refused?
    ensures var rule := HttpRule(limit, windowS);
      var refused := Hit(s, now, rule);
      var answer := Answer(s, limit, windowS, now);
      && refused.deque != []
      && (Admits(refused, t, rule) <==> t >= refused.deque[0] + windowS as real)
      && (t >= now + answer.retryAfter as real ==> Admits(refused, t, rule))
      && 1 <= answer.retryAfter
      && now + answer.retryAfter as real <= refused.deque[0] + windowS as real + 1.0
  {
    var rule := HttpRule(limit, windowS);
    PurgeValid(s, rule, last, now);
    IndexErrorIff(s, limit, windowS, last, now);
    var p := Purge(s, now, rule);
    assert |p.deque| == limit;
  }

  /** The loop that pops the hits that have left the window. */
  method PopExpired(deque: seq<real>, cutoff: real, closed: bool) returns (rest: seq<real>)
    ensures rest == deque[Expired(deque, cutoff, closed)..]
  {
    rest := deque;
    ghost var n := 0;
    while rest != [] && Old(closed, rest[0], cutoff)
      invariant n <= |deque| && rest == deque[n..]
      invariant Expired(deque, cutoff, closed) == n + Expired(rest, cutoff, closed)
    {
      rest := rest[1..];
      n := n + 1;
    }
  }

  /** One hit on the deque of its key. */
  method HitWindow(deque: seq<real>, ghost s: Window, limit: int, windowS: int, now: real)
    returns (window: seq<real>, r: Outcome, ghost forgotten: seq<real>)
    requires deque == s.deque
    ensures r == Answer(s, limit, windowS, now)
    ensures Window(window, forgotten) == SlidingWindow.Hit(s, now, HttpRule(limit, windowS))
  {
    ghost var p := Purge(s, now, HttpRule(limit, windowS));
    ByPurge(s, p, limit, windowS, now);
    forgotten := p.gone;
    window := PopExpired(deque, now - windowS as real, false);
    if |window| >= limit {
      if window == [] {
        return window, IndexError, forgotten;
      }
      return window, Refused(RetryAfter(window[0], windowS, now)), forgotten;
    }
    window := window + [now];
    r := Allowed;
  }

  /** Requests per identity, counted in this process alone. */
  class InMemoryRateLimiter {
    var hits: map<string, seq<real>>
    ghost var gone: map<string, seq<real>>

    /** What the limiter remembers and has forgotten about a key. */
    ghost function State(key: string): Window
      reads this
    {
      Window(if key in hits then hits[key] else [], if key in gone then gone[key] else [])
    }

    constructor ()
      ensures forall key :: State(key) == FRESH
    {
      hits := map[];
      gone := map[];
    }

    method Hit(key: string, limit: int, windowS: int, now: real) returns (r: Outcome)
      modifies this
      ensures r == Answer(old(State(key)), limit, windowS, now)
      ensures State(key) == SlidingWindow.Hit(old(State(key)), now, HttpRule(limit, windowS))
      ensures forall other :: other != key ==> State(other) == old(State(other))
    {
      var window := if key in hits then hits[key] else [];
      ghost var s, forgotten := State(key), [];
      window, r, forgotten := HitWindow(window, s, limit, windowS, now);
      hits := hits[key := window];
      gone := gone[key := forgotten];
    }
  }

  /** Per-tool limits over a closed window. */
  class ToolRateLimiter {
    const windowS: real
    const defaultLimit: int
    const perToolLimit: map<string, int>
    var events: map<string, seq<real>>
    ghost var gone: map<string, seq<real>>

    function RuleOf(tool: string): (r: Rule)
      ensures r.closed && r.width == windowS
      ensures r.limit == (if tool in perToolLimit then perToolLimit[tool] else defaultLimit)
    {
      Rule(if tool in perToolLimit then perToolLimit[tool] else defaultLimit, windowS, true)
    }

    ghost function State(tool: string): Window
      reads this
    {
      Window(if tool in events then events[tool] else [], if tool in gone then gone[tool] else [])
    }

    constructor (windowS: real, defaultLimit: int, perToolLimit: map<string, int>)
      ensures this.windowS == windowS && this.defaultLimit == defaultLimit && this.perToolLimit == perToolLimit
      ensures forall tool :: State(tool) == FRESH
    {
      this.windowS, this.defaultLimit, this.perToolLimit := windowS, defaultLimit, perToolLimit;
      events := map[];
      gone := map[];
    }

    /** Records a call; `false` is the raised rate-limit error. */
    method Check(tool: string, now: real) returns (ok: bool)
      modifies this
      ensures ok == Admits(old(State(tool)), now, RuleOf(tool))
      ensures State(tool) == SlidingWindow.Hit(old(State(tool)), now, RuleOf(tool))
      ensures forall other :: other != tool ==> State(other) == old(State(other))
    {
      var limit := if tool in perToolLimit then perToolLimit[tool] else defaultLimit;
      var windowStart := now - windowS;
      var window := if tool in events then events[tool] else [];
      ghost var p := Purge(State(tool), now, RuleOf(tool));
      window := PopExpired(window, windowStart, true);
      gone := gone[tool := p.gone];
      if |window| >= limit {
        events := events[tool := window];
        return false;
      }
      events := events[tool := window + [now]];
      ok := true;
    }
  }

  /** A hit exactly one window old still counts for a tool, but not for a request. */
  lemma EdgeOfWindow(tool: Rule, request: Rule, at: real)
    requires tool.closed && !request.closed && tool.limit == 1 == request.limit
    ensures !Admits(Window([at], []), at + tool.width, tool)
    ensures Admits(Window([at], []), at + request.width, request)
  {}
}
