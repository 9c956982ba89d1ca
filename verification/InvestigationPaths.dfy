/** Which nodes a run visits, in order, and when it replans. */
module InvestigationPaths {
  import opened Investigation

  // ---- Straight lines ------------------------------------------------------------

  /** The nodes from `n` up to the next verification, when triage finds candidates. */
  function Lead(n: Node): seq<Node> {
    match n
    case Understand => [Understand, LoadContext, Plan, Discover, Triage, Evaluate]
    case LoadContext => [LoadContext, Plan, Discover, Triage, Evaluate]
    case Plan => [Plan, Discover, Triage, Evaluate]
    case Discover => [Discover, Triage, Evaluate]
    case Triage => [Triage, Evaluate]
    case Evaluate => [Evaluate]
    case _ => []
  }

  /** The nodes of the i-th replan: odd ones search again, even ones only evaluate again. */
  function Round(i: nat): seq<Node> {
    [Replan] + (if i % 2 == 1 then Lead(Discover) else Lead(Evaluate)) + [Verify]
  }

  /** The rounds number `from + 1` to `from + k`. */
  function Rounds(from: nat, k: nat): seq<Node>
    decreases k
  {
    if k == 0 then [] else Round(from + 1) + Rounds(from + 1, k - 1)
  }

  const CLOSING: seq<Node> := [Score, Contrarian, Decide, Report]

  lemma ClosingLine(s: State, answers: Answers, step: nat)
    requires Enterable(Score, s)
    ensures Run(Score, s, answers, step).nodes == CLOSING
    ensures Run(Score, s, answers, step).final.iterations == s.iterations
  {
    var s1 := Update(Score, s, answers(step));
    var s2 := Update(Contrarian, s1, answers(step + 1));
    var s3 := Update(Decide, s2, answers(step + 2));
    RunStep(Score, s, answers, step);
    RunStep(Contrarian, s1, answers, step + 1);
    RunStep(Decide, s2, answers, step + 2);
    RunStep(Report, s3, answers, step + 3);
  }

  lemma EmptyStep(n: Node, s: State, answers: Answers, step: nat)
    requires Enterable(n, s) && n != End && !EmptyTriage(n, s, answers, step)
    ensures var s' := Update(n, s, answers(step));
      && !EmptyTriage(Follow(EdgeOf(n), s'), s', answers, step + 1)
      && (n == Triage ==> s'.candidates != 0)
  {}

  /** Ahead of a verification the run is a straight line, unless a triage comes up empty. */
  lemma {:induction false} LeadsToVerify(n: Node, s: State, answers: Answers, step: nat) returns (s': State)
    requires Enterable(n, s) && Rank(n) >= Rank(Verify) && !EmptyTriage(n, s, answers, step)
    ensures Enterable(Verify, s') && s'.iterations == s.iterations && s'.maxIterations == s.maxIterations
    ensures !EmptyTriage(Verify, s', answers, step + |Lead(n)|)
    ensures var t, rest := Run(n, s, answers, step), Run(Verify, s', answers, step + |Lead(n)|);
      t.nodes == Lead(n) + rest.nodes && t.final == rest.final
    decreases Rank(n)
  {
    if n == Verify {
      s' := s;
      assert [] + Run(n, s, answers, step).nodes == Run(n, s, answers, step).nodes;
    } else {
      var next := Update(n, s, answers(step));
      EmptyStep(n, s, answers, step);
      RunStep(n, s, answers, step);
      LeadStep(n, next);
      var m := Follow(EdgeOf(n), next);
      s' := LeadsToVerify(m, next, answers, step + 1);
      assert step + 1 + |Lead(m)| == step + |Lead(n)|;
      JoinLine(n, m, Run(n, s, answers, step), Run(m, next, answers, step + 1),
        Run(Verify, s', answers, step + |Lead(n)|));
    }
  }

  lemma JoinLine(n: Node, m: Node, t: Trace, rest: Trace, v: Trace)
    requires t.nodes == [n] + rest.nodes && t.final == rest.final
    requires rest.nodes == Lead(m) + v.nodes && rest.final == v.final && Lead(n) == [n] + Lead(m)
    ensures t.nodes == Lead(n) + v.nodes && t.final == v.final
  {}

  lemma UpdateKeeps(n: Node, s: State, a: Answer)
    requires n != End
    ensures var s' := Update(n, s, a);
      && s'.maxIterations == s.maxIterations && s'.remaining == s.remaining
      && s'.iterations == s.iterations + if n == Replan then 1 else 0
  {}

  lemma LeadStep(n: Node, s: State)
    requires Rank(n) > Rank(Verify) && (n == Triage ==> s.candidates != 0)
    ensures Rank(Verify) <= Rank(Follow(EdgeOf(n), s)) < Rank(n) && Follow(EdgeOf(n), s) != Replan
    ensures Lead(n) == [n] + Lead(Follow(EdgeOf(n), s))
  {}

  // ---- The shape of a run -----------------------------------------------------------

  lemma RoundsCons(from: nat, k: nat, lead: seq<Node>, rest: seq<Node>)
    requires k > 0 && Round(from + 1) == [Replan] + lead + [Verify]
    ensures [Verify] + ([Replan] + (lead + ([Verify] + Rounds(from + 1, k - 1) + rest))) ==
      [Verify] + Rounds(from, k) + rest
  {}

  /** One replan leads from a verification to the next one. */
  lemma IntoRound(s: State, answers: Answers, step: nat) returns (s': State, next: Node, at: nat)
    requires Enterable(Verify, s) && !EmptyTriage(Verify, s, answers, step)
    requires RouteAfterVerify(Update(Verify, s, answers(step))) == Replan
    ensures Enterable(Verify, s') && !EmptyTriage(Verify, s', answers, at)
    ensures s'.iterations == s.iterations + 1 <= s'.maxIterations == s.maxIterations
    ensures next == if (s.iterations + 1) % 2 == 1 then Discover else Evaluate
    ensures var t, rest := Run(Verify, s, answers, step), Run(Verify, s', answers, at);
      t.nodes == [Verify] + ([Replan] + (Lead(next) + rest.nodes)) && t.final == rest.final
  {
    var s2 := ThroughReplan(s, answers, step);
    next := RouteAfterReplan(s2);
    s' := LeadsToVerify(next, s2, answers, step + 2);
    at := step + 2 + |Lead(next)|;
  }

  lemma ThroughReplan(s: State, answers: Answers, step: nat) returns (s': State)
    requires Enterable(Verify, s) && !EmptyTriage(Verify, s, answers, step)
    requires RouteAfterVerify(Update(Verify, s, answers(step))) == Replan
    ensures s'.iterations == s.iterations + 1 <= s'.maxIterations == s.maxIterations
    ensures var next := if (s.iterations + 1) % 2 == 1 then Discover else Evaluate;
      && RouteAfterReplan(s') == next && !EmptyTriage(next, s', answers, step + 2)
      && var t, rest := Run(Verify, s, answers, step), Run(next, s', answers, step + 2);
        t.nodes == [Verify] + ([Replan] + rest.nodes) && t.final == rest.final
  {
    var s1 := Update(Verify, s, answers(step));
    s' := Update(Replan, s1, answers(step + 1));
    RunStep(Verify, s, answers, step);
    EmptyStep(Verify, s, answers, step);
    RunStep(Replan, s1, answers, step + 1);
    EmptyStep(Replan, s1, answers, step + 1);
  }

  /** A trace that starts with a verification after `from` replans: the rounds of the others, then the closing line. */
  predicate Shaped(t: Trace, from: nat) {
    && t.final.iterations >= from
    && t.nodes == [Verify] + Rounds(from, t.final.iterations - from) + CLOSING
  }

  lemma StraightToScore(s: State, answers: Answers, step: nat)
    requires Enterable(Verify, s) && RouteAfterVerify(Update(Verify, s, answers(step))) == Score
    ensures Shaped(Run(Verify, s, answers, step), s.iterations)
  {
    RunStep(Verify, s, answers, step);
    ClosingLine(Update(Verify, s, answers(step)), answers, step + 1);
    assert [Verify] + [] + CLOSING == [Verify] + CLOSING;
  }

  lemma {:induction false} FromVerify(s: State, answers: Answers, step: nat)
    requires Enterable(Verify, s) && !EmptyTriage(Verify, s, answers, step)
    ensures Shaped(Run(Verify, s, answers, step), s.iterations)
    decreases ReplansLeft(s)
  {
    if RouteAfterVerify(Update(Verify, s, answers(step))) == Score {
      StraightToScore(s, answers, step);
    } else {
      var s', next, at := IntoRound(s, answers, step);
      FromVerify(s', answers, at);
      OneRound(s.iterations, next, Run(Verify, s, answers, step), Run(Verify, s', answers, at));
    }
  }

  lemma OneRound(from: nat, next: Node, t: Trace, rest: Trace)
    requires t.nodes == [Verify] + ([Replan] + (Lead(next) + rest.nodes)) && t.final == rest.final
    requires Shaped(rest, from + 1)
    requires next == if (from + 1) % 2 == 1 then Discover else Evaluate
    ensures Shaped(t, from)
  {
    assert Round(from + 1) == [Replan] + Lead(next) + [Verify];
    RoundsCons(from, t.final.iterations - from, Lead(next), CLOSING);
  }

  /** A run without an empty triage visits exactly these nodes, in this order. */
  lemma RunShape(maxIterations: int, remaining: real, answers: Answers)
    requires !EmptyTriage(Understand, Initial(maxIterations, remaining), answers, 0)
    ensures var t := Investigate(maxIterations, remaining, answers);
      t.final.iterations >= 0 &&
      t.nodes == Lead(Understand) + ([Verify] + Rounds(0, t.final.iterations) + CLOSING)
  {
    var s := LeadsToVerify(Understand, Initial(maxIterations, remaining), answers, 0);
    FromVerify(s, answers, |Lead(Understand)|);
  }

  // ---- When a run replans --------------------------------------------------------------

  function CountReplans(nodes: seq<Node>): nat {
    if nodes == [] then 0 else (if nodes[0] == Replan then 1 else 0) + CountReplans(nodes[1..])
  }

  /** There are candidates wherever they are worked on. */
  predicate Supplied(n: Node, s: State) {
    n in {Evaluate, Verify, Replan} ==> s.candidates > 0
  }

  lemma SuppliedStep(n: Node, s: State, a: Answer)
    requires Enterable(n, s) && n != End && Supplied(n, s)
    ensures Supplied(Follow(EdgeOf(n), Update(n, s, a)), Update(n, s, a))
  {}

  /** What makes a visit of verification, made after `done` replans, lead to another one. */
  predicate WantsReplan(a: Answer, done: int, maxIterations: int, remaining: real) {
    a.unresolved > 0 && done < maxIterations && remaining > 0.0
  }

  lemma VerifyStep(s: State, a: Answer)
    requires Supplied(Verify, s)
    ensures RouteAfterVerify(Update(Verify, s, a)) ==
      if WantsReplan(a, s.iterations, s.maxIterations, s.remaining) then Replan else Score
  {}

  lemma ShiftAt(nodes: seq<Node>, n: Node, rest: seq<Node>, i: nat)
    requires nodes == [n] + rest && 0 < i < |nodes|
    ensures nodes[i] == rest[i - 1] && (i + 1 < |nodes| ==> nodes[i + 1] == rest[i])
    ensures CountReplans(nodes[..i]) == (if n == Replan then 1 else 0) + CountReplans(rest[..i - 1])
  {
    assert nodes[..i] == [n] + rest[..i - 1];
    assert nodes[..i][1..] == rest[..i - 1];
  }

  /** What is claimed of position `i` of a path. */
  predicate ReplansRightly(nodes: seq<Node>, i: nat, a: Answer, s: State) {
    && i + 1 < |nodes|
    && (nodes[i + 1] == Replan <==>
      WantsReplan(a, s.iterations + CountReplans(nodes[..i]), s.maxIterations, s.remaining))
  }

  lemma ReplanHere(s: State, answers: Answers, step: nat)
    requires Enterable(Verify, s) && Supplied(Verify, s)
    ensures ReplansRightly(Run(Verify, s, answers, step).nodes, 0, answers(step), s)
  {
    var s' := Update(Verify, s, answers(step));
    VerifyStep(s, answers(step));
    RunStep(Verify, s, answers, step);
    RunStep(RouteAfterVerify(s'), s', answers, step + 1);
  }

  lemma {:induction false} ReplanAt(n: Node, s: State, answers: Answers, step: nat, i: nat)
    requires Enterable(n, s) && Supplied(n, s)
    requires i < |Run(n, s, answers, step).nodes| && Run(n, s, answers, step).nodes[i] == Verify
    ensures ReplansRightly(Run(n, s, answers, step).nodes, i, answers(step + i), s)
    decreases i
  {
    if i == 0 {
      ReplanHere(s, answers, step);
    } else {
      var s' := Update(n, s, answers(step));
      var next := Follow(EdgeOf(n), s');
      RunStep(n, s, answers, step);
      SuppliedStep(n, s, answers(step));
      UpdateKeeps(n, s, answers(step));
      ShiftAt(Run(n, s, answers, step).nodes, n, Run(next, s', answers, step + 1).nodes, i);
      ReplanAt(next, s', answers, step + 1, i - 1);
    }
  }

  /**
   Behind a visit of verification comes a replan exactly when its answer leaves claims unresolved, fewer
   replans than allowed were made before it, and there is money left; otherwise scoring comes.
   */
  lemma ReplanIff(maxIterations: int, remaining: real, answers: Answers, i: nat)
    requires var nodes := Investigate(maxIterations, remaining, answers).nodes;
      i < |nodes| && nodes[i] == Verify
    ensures var nodes := Investigate(maxIterations, remaining, answers).nodes;
      && i + 1 < |nodes|
      && (nodes[i + 1] == Replan <==>
        answers(i).unresolved > 0 && CountReplans(nodes[..i]) < maxIterations && remaining > 0.0)
  {
    ReplanAt(Understand, Initial(maxIterations, remaining), answers, 0, i);
  }

  /** The replans that the state counts are those on the path. */
  lemma {:induction false} ReplansAreVisits(n: Node, s: State, answers: Answers, step: nat)
    requires Enterable(n, s)
    ensures var t := Run(n, s, answers, step); t.final.iterations == s.iterations + CountReplans(t.nodes)
    decreases ReplansLeft(s), Rank(n)
  {
    if n != End {
      var s' := Update(n, s, answers(step));
      RunStep(n, s, answers, step);
      assert Run(n, s, answers, step).nodes[1..] == Run(Follow(EdgeOf(n), s'), s', answers, step + 1).nodes;
      ReplansAreVisits(Follow(EdgeOf(n), s'), s', answers, step + 1);
    }
  }

  lemma {:induction false} ContentNeverReplans(n: Node, s: State, answers: Answers, step: nat)
    requires Enterable(n, s) && n != Replan && forall i: nat :: answers(i).unresolved == 0
    ensures Run(n, s, answers, step).final.iterations == s.iterations
    decreases ReplansLeft(s), Rank(n)
  {
    if n != End {
      RunStep(n, s, answers, step);
      var s' := Update(n, s, answers(step));
      assert answers(step).unresolved == 0;
      ContentNeverReplans(Follow(EdgeOf(n), s'), s', answers, step + 1);
    }
  }

  /** Every answer has candidates and unresolved claims. */
  ghost predicate NeverContent(answers: Answers) {
    forall i: nat :: answers(i).candidates > 0 && answers(i).unresolved > 0
  }

  lemma {:induction false} UsesAllReplans(n: Node, s: State, answers: Answers, step: nat)
    requires Enterable(n, s) && Supplied(n, s) && NeverContent(answers) && s.remaining > 0.0
    requires Rank(n) >= Rank(Verify) || n == Replan
    requires n == Triage ==> s.candidates > 0
    ensures Run(n, s, answers, step).final.iterations ==
      if s.iterations < s.maxIterations then s.maxIterations else s.iterations
    decreases ReplansLeft(s), Rank(n)
  {
    var s' := Update(n, s, answers(step));
    var next := Follow(EdgeOf(n), s');
    assert answers(step).candidates > 0 && answers(step).unresolved > 0;
    RunStep(n, s, answers, step);
    SuppliedStep(n, s, answers(step));
    if n == Verify {
      VerifyStep(s, answers(step));
    }
    if next == Score {
      ClosingLine(s', answers, step + 1);
    } else {
      UsesAllReplans(next, s', answers, step + 1);
    }
  }

  /** Without unresolved claims there is no replan; with some in every answer, candidates and money, all are used. */
  lemma ReplanExtremes(maxIterations: int, remaining: real, answers: Answers)
    ensures var k := Investigate(maxIterations, remaining, answers).final.iterations;
      && ((forall i: nat :: answers(i).unresolved == 0) ==> k == 0)
      && (NeverContent(answers) && remaining > 0.0 ==> k == if maxIterations > 0 then maxIterations else 0)
  {
    var s := Initial(maxIterations, remaining);
    if forall i: nat :: answers(i).unresolved == 0 {
      ContentNeverReplans(Understand, s, answers, 0);
    }
    if NeverContent(answers) && remaining > 0.0 {
      UsesAllReplans(Understand, s, answers, 0);
    }
  }
}
