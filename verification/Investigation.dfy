/** The investigation graph, its runs for arbitrary answers, and the audit of a run. */
module Investigation {
  import opened Wrappers

  datatype Node =
    | Understand | LoadContext | Plan | Discover | Triage | Evaluate | Verify | Replan
    | Score | Contrarian | Decide | Report | End

  /** An unconditional edge, or one of the three routing functions. */
  datatype Edge = To(target: Node) | AfterTriage | AfterVerify | AfterReplan

  /** `END` is not a node of the graph. */
  const NODES: set<Node> := set n: Node | n != End

  function EdgeOf(n: Node): Edge
    requires n != End
  {
    match n
    case Understand => To(LoadContext)
    case LoadContext => To(Plan)
    case Plan => To(Discover)
    case Discover => To(Triage)
    case Triage => AfterTriage
    case Evaluate => To(Verify)
    case Verify => AfterVerify
    case Replan => AfterReplan
    case Score => To(Contrarian)
    case Contrarian => To(Decide)
    case Decide => To(Report)
    case Report => To(End)
  }

  /** The state graph under construction. */
  class StateGraph {
    var nodes: set<Node>
    var edges: map<Node, Edge>
    var entry: Node

    constructor ()
      ensures nodes == {} && edges == map[] && entry == End
    {
      nodes, edges, entry := {}, map[], End;
    }

    method AddNode(n: Node)
      modifies this`nodes
      ensures nodes == old(nodes) + {n}
    {
      nodes := nodes + {n};
    }

    method SetEntryPoint(n: Node)
      modifies this`entry
      ensures entry == n
    {
      entry := n;
    }

    method AddEdge(from: Node, e: Edge)
      requires from in nodes && (e.To? ==> e.target in nodes || e.target == End)
      modifies this`edges
      ensures edges == old(edges)[from := e]
    {
      edges := edges[from := e];
    }
  }

  /** Assembles the graph call by call. */
  method BuildInvestigationGraph() returns (g: StateGraph)
    ensures fresh(g)
    ensures g.nodes == NODES && g.entry == Understand
    ensures g.edges.Keys == NODES && forall n :: n in NODES ==> g.edges[n] == EdgeOf(n)
  {
    g := new StateGraph();
    AddEarlyNodes(g);
    AddLateNodes(g);
    g.SetEntryPoint(Understand);
    AddForwardEdges(g);
    AddBackEdges(g);
    EdgesOfAll();
  }

  method AddEarlyNodes(g: StateGraph)
    requires g.nodes == {}
    modifies g`nodes
    ensures forall n :: n in g.nodes <==> Rank(n) >= Rank(Evaluate)
  {
    g.AddNode(Understand);
    g.AddNode(LoadContext);
    g.AddNode(Plan);
    g.AddNode(Discover);
    g.AddNode(Triage);
    g.AddNode(Evaluate);
  }

  method AddLateNodes(g: StateGraph)
    requires forall n :: n in g.nodes <==> Rank(n) >= Rank(Evaluate)
    modifies g`nodes
    ensures g.nodes == NODES
  {
    g.AddNode(Verify);
    g.AddNode(Replan);
    g.AddNode(Score);
    g.AddNode(Contrarian);
    g.AddNode(Decide);
    g.AddNode(Report);
  }

  const FORWARD_EDGES: map<Node, Edge> := map[
    Understand := To(LoadContext), LoadContext := To(Plan), Plan := To(Discover),
    Discover := To(Triage), Triage := AfterTriage, Evaluate := To(Verify)]

  const ALL_EDGES: map<Node, Edge> :=
    FORWARD_EDGES[Verify := AfterVerify][Replan := AfterReplan][Score := To(Contrarian)]
    [Contrarian := To(Decide)][Decide := To(Report)][Report := To(End)]

  lemma EdgesOfAll()
    ensures ALL_EDGES.Keys == NODES && forall n :: n in NODES ==> ALL_EDGES[n] == EdgeOf(n)
  {}

  method AddForwardEdges(g: StateGraph)
    requires g.nodes == NODES && g.edges == map[]
    modifies g`edges
    ensures g.edges == FORWARD_EDGES
  {
    g.AddEdge(Understand, To(LoadContext));
    g.AddEdge(LoadContext, To(Plan));
    g.AddEdge(Plan, To(Discover));
    g.AddEdge(Discover, To(Triage));
    g.AddEdge(Triage, AfterTriage);
    g.AddEdge(Evaluate, To(Verify));
  }

  method AddBackEdges(g: StateGraph)
    requires g.nodes == NODES && g.edges == FORWARD_EDGES
    modifies g`edges
    ensures g.edges == ALL_EDGES
  {
    g.AddEdge(Verify, AfterVerify);
    g.AddEdge(Replan, AfterReplan);
    g.AddEdge(Score, To(Contrarian));
    g.AddEdge(Contrarian, To(Decide));
    g.AddEdge(Decide, To(Report));
    g.AddEdge(Report, To(End));
  }

  // ---- State and answers -----------------------------------------------------------

  /** The part of the state that routing and the audit depend on. */
  datatype State = State(
    iterations: int, maxIterations: int, remaining: real, candidates: nat, unresolved: nat,
    needsNewSources: bool, events: seq<Node>)

  function Initial(maxIterations: int, remaining: real): State {
    State(0, maxIterations, remaining, 0, 0, false, [])
  }

  /** What the database and the agents answer at one step: anything. */
  datatype Answer = Answer(candidates: nat, unresolved: nat, goalFound: bool)

  /** The answer at each step of a run. */
  type Answers = nat -> Answer

  /** The update of one node. */
  function Update(n: Node, s: State, a: Answer): State {
    var logged := s.(events := s.events + [n]);
    match n
    case Discover => logged.(candidates := a.candidates)
    case Verify => logged.(unresolved := if s.candidates == 0 then 0 else a.unresolved)
    case Replan =>
      logged.(iterations := s.iterations + 1, needsNewSources := (s.iterations + 1) % 2 == 1, unresolved := 0)
    case Score => if a.goalFound then logged else s
    case _ => logged
  }

  function RouteAfterTriage(s: State): Node {
    if s.candidates > 0 then Evaluate else Report
  }

  function RouteAfterVerify(s: State): Node {
    if s.unresolved > 0 && s.iterations < s.maxIterations && s.remaining > 0.0 then Replan else Score
  }

  function RouteAfterReplan(s: State): Node {
    if s.needsNewSources then Discover else Evaluate
  }

  function Follow(e: Edge, s: State): Node {
    match e
    case To(n) => n
    case AfterTriage => RouteAfterTriage(s)
    case AfterVerify => RouteAfterVerify(s)
    case AfterReplan => RouteAfterReplan(s)
  }

  // ---- Runs ---------------------------------------------------------------------------

  /** The visited nodes and the state at the end. */
  datatype Trace = Trace(nodes: seq<Node>, final: State)

  /** The remaining nodes of a run without replanning. */
  function Rank(n: Node): nat {
    match n
    case Understand => 11
    case LoadContext => 10
    case Plan => 9
    case Discover => 8
    case Triage => 7
    case Evaluate => 6
    case Verify => 5
    case Replan => 4
    case Score => 4
    case Contrarian => 3
    case Decide => 2
    case Report => 1
    case End => 0
  }

  function ReplansLeft(s: State): nat {
    if s.iterations < s.maxIterations then s.maxIterations - s.iterations else 0
  }

  /** Replanning is entered only below the cap. */
  predicate Enterable(n: Node, s: State) {
    s.iterations >= 0 && (n == Replan ==> s.iterations < s.maxIterations)
  }

  /** The run from a node on. That this function is total is termination, whatever the answers. */
  function Run(n: Node, s: State, answers: Answers, step: nat): Trace
    requires Enterable(n, s)
    decreases ReplansLeft(s), Rank(n)
  {
    if n == End then Trace([], s)
    else
      var s' := Update(n, s, answers(step));
      var rest := Run(Follow(EdgeOf(n), s'), s', answers, step + 1);
      Trace([n] + rest.nodes, rest.final)
  }

  /** A whole investigation. */
  function Investigate(maxIterations: int, remaining: real, answers: Answers): Trace {
    Run(Understand, Initial(maxIterations, remaining), answers, 0)
  }

  /** The nodes that replans number `from + 1` to `from + k` add: five when new sources are searched, else three. */
  function ReplanCost(from: nat, k: nat): nat
    decreases k
  {
    if k == 0 then 0 else (if (from + 1) % 2 == 1 then 5 else 3) + ReplanCost(from + 1, k - 1)
  }

  lemma {:induction false} ReplanCostClosed(from: nat, k: nat)
    ensures from % 2 == 0 ==> ReplanCost(from, k) == 5 * ((k + 1) / 2) + 3 * (k / 2)
    ensures from % 2 == 1 ==> ReplanCost(from, k) == 3 * ((k + 1) / 2) + 5 * (k / 2)
    decreases k
  {
    if k > 0 {
      ReplanCostClosed(from + 1, k - 1);
    }
  }

  /** From any node on: replans stay below the cap and the number of visited nodes follows from theirs. */
  lemma {:induction false} RunLength(n: Node, s: State, answers: Answers, step: nat)
    requires Enterable(n, s)
    ensures var t := Run(n, s, answers, step);
      var k := t.final.iterations - s.iterations;
      && t.final.maxIterations == s.maxIterations && t.final.remaining == s.remaining
      && 0 <= k <= ReplansLeft(s)
      && |t.nodes| <= Rank(n) + ReplanCost(s.iterations, k)
      && (Score in t.nodes || Rank(n) < Rank(Score) ==> |t.nodes| == Rank(n) + ReplanCost(s.iterations, k))
    decreases ReplansLeft(s), Rank(n)
  {
    if n != End {
      var s' := Update(n, s, answers(step));
      var next := Follow(EdgeOf(n), s');
      RunLength(next, s', answers, step + 1);
    }
  }

  /** Without money no replan is ever routed to. */
  lemma {:induction false} BrokeNeverReplans(n: Node, s: State, answers: Answers, step: nat)
    requires Enterable(n, s) && n != Replan && s.remaining <= 0.0
    ensures Run(n, s, answers, step).final.iterations == s.iterations
    decreases ReplansLeft(s), Rank(n)
  {
    if n != End {
      RunStep(n, s, answers, step);
      var s' := Update(n, s, answers(step));
      BrokeNeverReplans(Follow(EdgeOf(n), s'), s', answers, step + 1);
    }
  }

  /**
   Every investigation terminates, never replans more often than allowed, and visits at most
   11 + 5 * ceil(k / 2) + 3 * floor(k / 2) nodes for k replans: exactly that many when no triage comes up empty.
   */
  lemma InvestigationLength(maxIterations: int, remaining: real, answers: Answers)
    ensures var t := Investigate(maxIterations, remaining, answers);
      var k := t.final.iterations;
      var bound := 11 + 5 * ((k + 1) / 2) + 3 * (k / 2);
      && 0 <= k && (k == 0 || k <= maxIterations)
      && t.final.remaining == remaining && (remaining <= 0.0 ==> k == 0)
      && |t.nodes| <= bound
      && (!EmptyTriage(Understand, Initial(maxIterations, remaining), answers, 0) ==> |t.nodes| == bound)
  {
    var s := Initial(maxIterations, remaining);
    RunLength(Understand, s, answers, 0);
    ScoreReachedIff(Understand, s, answers, 0);
    if remaining <= 0.0 {
      BrokeNeverReplans(Understand, s, answers, 0);
    }
    ReplanCostClosed(0, Investigate(maxIterations, remaining, answers).final.iterations);
  }

  /** Some triage finds no candidate. */
  predicate EmptyTriage(n: Node, s: State, answers: Answers, step: nat)
    requires Enterable(n, s)
    decreases ReplansLeft(s), Rank(n)
  {
    n != End &&
      var s' := Update(n, s, answers(step));
      (n == Triage && s'.candidates == 0) || EmptyTriage(Follow(EdgeOf(n), s'), s', answers, step + 1)
  }

  /** Scoring is reached exactly when no triage comes up empty. */
  lemma {:induction false} ScoreReachedIff(n: Node, s: State, answers: Answers, step: nat)
    requires Enterable(n, s) && Rank(n) >= Rank(Score)
    ensures Score in Run(n, s, answers, step).nodes <==> !EmptyTriage(n, s, answers, step)
    decreases ReplansLeft(s), Rank(n)
  {
    var s' := Update(n, s, answers(step));
    var next := Follow(EdgeOf(n), s');
    if Rank(next) >= Rank(Score) {
      ScoreReachedIff(next, s', answers, step + 1);
    } else {
      TailOfRun(next, s', answers, step + 1);
    }
  }

  /** Behind scoring, or behind an empty triage, the run is a straight line. */
  lemma {:induction false} TailOfRun(n: Node, s: State, answers: Answers, step: nat)
    requires Enterable(n, s) && Rank(n) < Rank(Score)
    ensures Score !in Run(n, s, answers, step).nodes && !EmptyTriage(n, s, answers, step)
    ensures n != End ==> Report in Run(n, s, answers, step).nodes
    ensures Rank(n) >= Rank(Decide) ==> Decide in Run(n, s, answers, step).nodes
    ensures Rank(n) >= Rank(Contrarian) ==> Contrarian in Run(n, s, answers, step).nodes
    decreases Rank(n)
  {
    if n != End {
      TailOfRun(Follow(EdgeOf(n), Update(n, s, answers(step))), Update(n, s, answers(step)), answers, step + 1);
    }
  }

  // ---- The trace audit ------------------------------------------------------------------

  const REQUIRED_STAGES: set<Node> := {
    Understand, LoadContext, Plan, Discover, Triage, Evaluate, Verify, Score, Contrarian, Decide, Report}

  /** The nodes that record an agent task. */
  const REQUIRED_TASKS: set<Node> := {Understand, Plan, Verify, Contrarian}

  function Elements(events: seq<Node>): set<Node> {
    set n | n in events
  }

  /** A stored run: whether it succeeded, the stages of its logged events, its tasks, tool calls and result. */
  datatype RunRecord = RunRecord(
    succeeded: bool, hasResult: bool, events: seq<Node>, hasReport: bool, tasks: seq<Task>, toolCalls: nat)

  /** A task of a run, named by the node that starts it. */
  datatype Task = Task(node: Node, succeeded: bool)

  datatype MissingTasks = RunNotFound | Missing(tasks: set<Node>)

  datatype AuditResult = AuditResult(
    complete: bool, missingStages: set<Node>, missingTasks: MissingTasks, toolCalls: nat, taskCount: nat)

  /** The events of a result, if there is one. */
  function LoggedEvents(r: RunRecord): seq<Node> {
    if r.hasResult then r.events else []
  }

  function SucceededTasks(tasks: seq<Task>): set<Node> {
    set t | t in tasks && t.succeeded :: t.node
  }

  lemma NothingMissing(required: set<Node>, seen: set<Node>)
    ensures required - seen == {} <==> required <= seen
  {
    if required - seen == {} {
      assert forall n :: n in required ==> n in seen by {
        forall n | n in required
          ensures n in seen
        {
          assert n in required - seen || n in seen;
        }
      }
    }
  }

  /** The audit of a run, or of none: what is missing, and whether nothing is. */
  method AuditInvestigationTrace(run: Option<RunRecord>) returns (r: AuditResult)
    ensures run.None? ==> r == AuditResult(false, REQUIRED_STAGES, RunNotFound, 0, 0)
    ensures run.Some? ==>
      var events, done := Elements(LoggedEvents(run.value)), SucceededTasks(run.value.tasks);
      && r.missingStages == REQUIRED_STAGES - events
      && r.missingTasks == Missing(REQUIRED_TASKS - done)
      && r.toolCalls == run.value.toolCalls && r.taskCount == |run.value.tasks|
      && (r.complete <==>
        && run.value.succeeded && run.value.hasResult && run.value.hasReport
        && REQUIRED_STAGES <= events && REQUIRED_TASKS <= done)
  {
    if run.None? {
      return AuditResult(false, REQUIRED_STAGES, RunNotFound, 0, 0);
    }
    var observed := ObservedStages(LoggedEvents(run.value));
    var done := SucceededTasks(run.value.tasks);
    var missingStages := REQUIRED_STAGES - observed;
    var missingTasks := REQUIRED_TASKS - done;
    NothingMissing(REQUIRED_STAGES, observed);
    NothingMissing(REQUIRED_TASKS, done);
    var complete :=
      run.value.succeeded && missingStages == {} && missingTasks == {} && run.value.hasResult && run.value.hasReport;
    r := AuditResult(complete, missingStages, Missing(missingTasks), run.value.toolCalls, |run.value.tasks|);
  }

  /** The loop over the logged events. */
  method ObservedStages(events: seq<Node>) returns (observed: set<Node>)
    ensures observed == Elements(events)
  {
    observed := {};
    for i := 0 to |events|
      invariant observed == Elements(events[..i])
    {
      observed := observed + {events[i]};
    }
    assert events[..|events|] == events;
  }

  /** Every visited node logs its stage, except scoring without a goal. */
  lemma {:induction false} LoggedStages(n: Node, s: State, answers: Answers, step: nat)
    requires Enterable(n, s)
    ensures var t := Run(n, s, answers, step);
      && s.events <= t.final.events
      && forall m :: m in t.final.events <==>
        m in s.events || (m in t.nodes && (m == Score ==> GoalFound(n, s, answers, step)))
    decreases ReplansLeft(s), Rank(n)
  {
    if n != End {
      var s' := Update(n, s, answers(step));
      var next := Follow(EdgeOf(n), s');
      LoggedStages(next, s', answers, step + 1);
      GoalFoundAtScore(next, s', answers, step + 1);
      UpdateLogs(n, s, answers(step));
    }
  }

  lemma UpdateLogs(n: Node, s: State, a: Answer)
    ensures Update(n, s, a).events == if n == Score && !a.goalFound then s.events else s.events + [n]
  {}

  /** The goal is found at some visit of scoring. */
  predicate GoalFound(n: Node, s: State, answers: Answers, step: nat)
    requires Enterable(n, s)
    decreases ReplansLeft(s), Rank(n)
  {
    n != End &&
      var s' := Update(n, s, answers(step));
      (n == Score && answers(step).goalFound) || GoalFound(Follow(EdgeOf(n), s'), s', answers, step + 1)
  }

  lemma {:induction false} GoalFoundAtScore(n: Node, s: State, answers: Answers, step: nat)
    requires Enterable(n, s)
    ensures GoalFound(n, s, answers, step) ==> Score in Run(n, s, answers, step).nodes
    decreases ReplansLeft(s), Rank(n)
  {
    if n != End {
      var s' := Update(n, s, answers(step));
      GoalFoundAtScore(Follow(EdgeOf(n), s'), s', answers, step + 1);
    }
  }

  lemma RunStep(n: Node, s: State, answers: Answers, step: nat)
    requires Enterable(n, s) && n != End
    ensures var s' := Update(n, s, answers(step));
      var next := Follow(EdgeOf(n), s');
      && Enterable(next, s')
      && Run(n, s, answers, step).nodes == [n] + Run(next, s', answers, step + 1).nodes
      && Run(n, s, answers, step).final == Run(next, s', answers, step + 1).final
  {}

  /** The required stages ahead of a node are the node itself and those ahead of its successor. */
  lemma AheadStep(n: Node, s: State, m: Node)
    requires Rank(n) >= Rank(Score) && m in REQUIRED_STAGES && Rank(m) <= Rank(n)
    ensures var next := Follow(EdgeOf(n), s);
      m == n || Rank(m) <= Rank(next) || next == Report
  {}

  /** A run that reaches scoring visits every required node that lies ahead. */
  lemma {:induction false} ScoringVisitsAll(n: Node, s: State, answers: Answers, step: nat, m: Node)
    requires Enterable(n, s) && Score in Run(n, s, answers, step).nodes
    requires m in REQUIRED_STAGES && Rank(m) <= Rank(n)
    ensures m in Run(n, s, answers, step).nodes
    decreases ReplansLeft(s), Rank(n)
  {
    if Rank(n) < Rank(Score) {
      TailOfRun(n, s, answers, step);
    } else {
      var s' := Update(n, s, answers(step));
      var next := Follow(EdgeOf(n), s');
      RunStep(n, s, answers, step);
      AheadStep(n, s', m);
      if n == Score {
        TailOfRun(next, s', answers, step + 1);
        LateStages(m);
      } else if Rank(next) >= Rank(Score) && m != n {
        ScoringVisitsAll(next, s', answers, step + 1, m);
      } else if Rank(next) < Rank(Score) {
        TailOfRun(next, s', answers, step + 1);
      }
    }
  }

  lemma LateStages(m: Node)
    requires m in REQUIRED_STAGES && Rank(m) <= Rank(Score)
    ensures m in {Score, Contrarian, Decide, Report}
  {}

  /**
   The audit of a finished run misses no stage exactly when the run passed through scoring with its
   goal found; then no task is missing either.
   */
  lemma AuditIff(maxIterations: int, remaining: real, answers: Answers)
    ensures var t := Investigate(maxIterations, remaining, answers);
      var found := GoalFound(Understand, Initial(maxIterations, remaining), answers, 0);
      && (REQUIRED_STAGES <= Elements(t.final.events) <==> found)
      && (found ==> Score in t.nodes && REQUIRED_TASKS <= Elements(t.nodes))
  {
    var s := Initial(maxIterations, remaining);
    var t := Investigate(maxIterations, remaining, answers);
    LoggedStages(Understand, s, answers, 0);
    GoalFoundAtScore(Understand, s, answers, 0);
    if GoalFound(Understand, s, answers, 0) {
      forall m | m in REQUIRED_STAGES
        ensures m in t.nodes
      {
        assert Rank(m) <= 11;
        ScoringVisitsAll(Understand, s, answers, 0, m);
      }
      assert REQUIRED_TASKS <= REQUIRED_STAGES;
    } else {
      assert Score !in t.final.events;
    }
  }
}
