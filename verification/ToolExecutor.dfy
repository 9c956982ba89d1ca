/** Tool execution: budgets, the rate limiter, retries, and one recorded row per invocation. */
module ToolExecutor {
  import opened Wrappers
  import opened RateLimiters
  import SlidingWindow

  datatype Status = Succeeded | Failed | Denied | TimedOut

  datatype Tool = Tool(maxCalls: int, maxRetries: int, cost: real)

  /** How one execution of a tool body ends; `Retryable` covers tool, validation and application errors. */
  datatype Attempt = Returns | TimesOut | NotFound | Retryable | Crashes

  /** One invocation: what is asked for, and what permissions, argument parsing and the body will say. */
  datatype Invocation = Invocation(name: string, permitted: bool, argumentsOk: bool, now: real, body: nat -> Attempt)

  /** A persisted row; `hasError` says whether an error text is stored. */
  datatype CallRow = CallRow(tool: string, status: Status, hasError: bool, cost: real)

  datatype Budget = Budget(maxTotal: int, remaining: real, used: int, perTool: map<string, int>)

  function CountOf(b: Budget, tool: string): int {
    if tool in b.perTool then b.perTool[tool] else 0
  }

  predicate WithinBudget(b: Budget, name: string, tool: Tool) {
    b.used < b.maxTotal && CountOf(b, name) < tool.maxCalls
  }

  function NonNegative(x: real): real {
    if x >= 0.0 then x else 0.0
  }

  /** The charge for one successful call. */
  function Charge(b: Budget, name: string, cost: real): Budget {
    Budget(b.maxTotal, NonNegative(b.remaining - cost), b.used + 1, b.perTool[name := CountOf(b, name) + 1])
  }

  // ---- The retry loop --------------------------------------------------------------

  /** How the body ended, how often it ran, and whether an error was noted on the way. */
  datatype BodyResult = BodyResult(status: Status, runs: nat, hasError: bool)

  function RunBody(body: nat -> Attempt, attempts: int, i: nat, hasError: bool): (r: BodyResult)
    ensures r.runs <= if attempts > i then attempts else i
    ensures r.status in {Succeeded, Failed, TimedOut}
    decreases attempts - i
  {
    if i >= attempts then BodyResult(Failed, i, hasError)
    else
      match body(i)
      case Returns => BodyResult(Succeeded, i + 1, hasError)
      case TimesOut => BodyResult(TimedOut, i + 1, true)
      case NotFound => BodyResult(Failed, i + 1, true)
      case Crashes => BodyResult(Failed, i + 1, true)
      case Retryable =>
        if i + 1 < attempts then RunBody(body, attempts, i + 1, true) else BodyResult(Failed, i + 1, true)
  }

  /**
   The body succeeds exactly when it returns after nothing but retryable failures, within the allowed
   attempts. A success that needed a retry still carries the error of the failed attempt.
   */
  lemma {:induction false} SuccessIff(body: nat -> Attempt, attempts: int, i: nat, hasError: bool)
    requires i <= attempts
    ensures var r := RunBody(body, attempts, i, hasError);
      && (r.status == Succeeded <==> exists k: nat :: i <= k < attempts && FirstReturn(body, i, k))
      && (r.status == Succeeded ==> i < r.runs && FirstReturn(body, i, r.runs - 1))
      && (r.status == Succeeded ==> (r.hasError <==> hasError || r.runs > i + 1))
    decreases attempts - i
  {
    if i < attempts && body(i) == Retryable && i + 1 < attempts {
      var next := i + 1;
      SuccessIff(body, attempts, next, true);
      if k: nat :| next <= k < attempts && FirstReturn(body, next, k) {
        assert FirstReturn(body, i, k);
      }
      if k: nat :| i <= k < attempts && FirstReturn(body, i, k) {
        assert FirstReturn(body, next, k);
      }
    } else if i < attempts {
      assert body(i) == Returns ==> FirstReturn(body, i, i);
    }
  }

  /** Attempt `k` is the first one from `i` on that does not fail retryably. */
  predicate FirstEnd(body: nat -> Attempt, i: nat, k: nat) {
    i <= k && body(k) != Retryable && forall j: nat :: i <= j < k ==> body(j) == Retryable
  }

  /** The first attempt that does not fail retryably ends the body and decides its status; no other one is made. */
  lemma {:induction false} EndsAt(body: nat -> Attempt, attempts: int, i: nat, k: nat, hasError: bool)
    requires k < attempts && FirstEnd(body, i, k)
    ensures var r := RunBody(body, attempts, i, hasError);
      && r.runs == k + 1
      && (r.status == Succeeded <==> body(k) == Returns)
      && (r.status == TimedOut <==> body(k) == TimesOut)
      && (r.hasError <==> hasError || k > i || body(k) != Returns)
    decreases k - i
  {
    if i < k {
      assert body(i) == Retryable;
      EndsAt(body, attempts, i + 1, k, true);
    }
  }

  /** When every allowed attempt fails retryably, all are made and the call has failed. */
  lemma {:induction false} AllRetried(body: nat -> Attempt, attempts: int, i: nat, hasError: bool)
    requires i < attempts && forall j: nat :: i <= j < attempts ==> body(j) == Retryable
    ensures RunBody(body, attempts, i, hasError) == BodyResult(Failed, attempts, true)
    decreases attempts - i
  {
    if i + 1 < attempts {
      AllRetried(body, attempts, i + 1, true);
    }
  }

  /** From attempt `i` on, the first one that is not a retryable failure is attempt `k`, and it returns. */
  predicate FirstReturn(body: nat -> Attempt, i: nat, k: nat) {
    i <= k && body(k) == Returns && forall j: nat :: i <= j < k ==> body(j) == Retryable
  }

  // ---- One invocation on values ------------------------------------------------------

  /** The budget of a context, if it has one, and the rows written for its run. */
  datatype Ledger = Ledger(budget: Option<Budget>, rows: seq<CallRow>)

  predicate BudgetAllows(l: Ledger, name: string, tool: Tool) {
    l.budget.Some? ==> WithinBudget(l.budget.value, name, tool)
  }

  /** The row of an invocation; `admitted` is the rate limiter's answer. */
  function RowFor(l: Ledger, inv: Invocation, tool: Option<Tool>, admitted: bool): CallRow {
    if tool.None? then CallRow(inv.name, Failed, true, 0.0)
    else if !BudgetAllows(l, inv.name, tool.value) || !admitted || !inv.permitted then
      CallRow(inv.name, Denied, true, 0.0)
    else if !inv.argumentsOk then CallRow(inv.name, Failed, true, 0.0)
    else
      var r := RunBody(inv.body, tool.value.maxRetries + 1, 0, false);
      CallRow(inv.name, r.status, r.hasError, if r.status == Succeeded then tool.value.cost else 0.0)
  }

  function Invoked(l: Ledger, inv: Invocation, tool: Option<Tool>, admitted: bool, hasRun: bool): Ledger {
    var row := RowFor(l, inv, tool, admitted);
    Ledger(
      if row.status == Succeeded && l.budget.Some? && tool.Some? then
        Some(Charge(l.budget.value, inv.name, tool.value.cost))
      else l.budget,
      if hasRun then l.rows + [row] else l.rows)
  }

  // ---- The objects ---------------------------------------------------------------------

  class ToolBudget {
    var maxTotal: int
    var remainingUsd: real
    var callsUsed: int
    var perTool: map<string, int>

    ghost function Value(): Budget
      reads this
    {
      Budget(maxTotal, remainingUsd, callsUsed, perTool)
    }

    constructor (maxTotal: int, remainingUsd: real)
      ensures Value() == Budget(maxTotal, remainingUsd, 0, map[])
    {
      this.maxTotal, this.remainingUsd, callsUsed, perTool := maxTotal, remainingUsd, 0, map[];
    }

    /** `false` is the raised budget error. */
    method CheckTotal() returns (ok: bool)
      ensures ok <==> Value().used < Value().maxTotal
    {
      ok := callsUsed < maxTotal;
    }

    method CheckTool(name: string, maxCalls: int) returns (ok: bool)
      ensures ok <==> CountOf(Value(), name) < maxCalls
    {
      var used := if name in perTool then perTool[name] else 0;
      ok := used < maxCalls;
    }

    method Record(name: string, cost: real)
      modifies this
      ensures Value() == Charge(old(Value()), name, cost)
    {
      callsUsed := callsUsed + 1;
      perTool := perTool[name := (if name in perTool then perTool[name] else 0) + 1];
      remainingUsd := NonNegative(remainingUsd - cost);
    }
  }

  class Executor {
    const registry: map<string, Tool>
    var rows: seq<CallRow>

    constructor (registry: map<string, Tool>)
      ensures this.registry == registry && rows == []
    {
      this.registry, rows := registry, [];
    }

    function Find(name: string): Option<Tool> {
      if name in registry then Some(registry[name]) else None
    }

    ghost function Value(budget: ToolBudget?): Ledger
      reads this, budget
    {
      Ledger(if budget == null then None else Some(budget.Value()), rows)
    }

    method Persist(hasRun: bool, row: CallRow)
      modifies this
      ensures rows == if hasRun then old(rows) + [row] else old(rows)
    {
      if hasRun {
        rows := rows + [row];
      }
    }

    /** Checks the budget, the rate limiter, the permission and the arguments, in this order. */
    method Admit(inv: Invocation, tool: Tool, budget: ToolBudget?, limiter: ToolRateLimiter)
      returns (refusal: Option<Status>)
      requires budget != null ==> (budget as object) != limiter
      modifies limiter
      ensures var l := Value(budget);
        var s := old(limiter.State(inv.name));
        var admitted := SlidingWindow.Admits(s, inv.now, limiter.RuleOf(inv.name));
        && (refusal == Some(Denied) <==> !BudgetAllows(l, inv.name, tool) || !admitted || !inv.permitted)
        && (refusal == Some(Failed) <==>
          BudgetAllows(l, inv.name, tool) && admitted && inv.permitted && !inv.argumentsOk)
        && refusal in {None, Some(Denied), Some(Failed)}
        && limiter.State(inv.name) ==
          (if BudgetAllows(l, inv.name, tool) then SlidingWindow.Hit(s, inv.now, limiter.RuleOf(inv.name)) else s)
      ensures forall other :: other != inv.name ==> limiter.State(other) == old(limiter.State(other))
    {
      if budget != null {
        var total := budget.CheckTotal();
        if !total {
          return Some(Denied);
        }
        var perTool := budget.CheckTool(inv.name, tool.maxCalls);
        if !perTool {
          return Some(Denied);
        }
      }
      var admitted := limiter.Check(inv.name, inv.now);
      if !admitted || !inv.permitted {
        return Some(Denied);
      }
      refusal := if inv.argumentsOk then None else Some(Failed);
    }

    /** One invocation of a tool by a context. */
    method Invoke(inv: Invocation, budget: ToolBudget?, limiter: ToolRateLimiter, hasRun: bool) returns (ok: bool)
      requires budget != null ==> (budget as object) != limiter && (budget as object) != this
      requires (this as object) != limiter
      modifies this, limiter, budget
      ensures var l := old(Value(budget));
        var admitted := old(SlidingWindow.Admits(limiter.State(inv.name), inv.now, limiter.RuleOf(inv.name)));
        && Value(budget) == Invoked(l, inv, Find(inv.name), admitted, hasRun)
        && (ok <==> RowFor(l, inv, Find(inv.name), admitted).status == Succeeded)
      ensures var s := old(limiter.State(inv.name));
        limiter.State(inv.name) ==
          if Find(inv.name).Some? && BudgetAllows(old(Value(budget)), inv.name, Find(inv.name).value) then
            SlidingWindow.Hit(s, inv.now, limiter.RuleOf(inv.name))
          else s
      ensures forall other :: other != inv.name ==> limiter.State(other) == old(limiter.State(other))
    {
      var found := Find(inv.name);
      if found.None? {
        Persist(hasRun, CallRow(inv.name, Failed, true, 0.0));
        return false;
      }
      var tool := found.value;
      var refusal := Admit(inv, tool, budget, limiter);
      if refusal.Some? {
        Persist(hasRun, CallRow(inv.name, refusal.value, true, 0.0));
        return false;
      }
      var status, hasError, _ := Attempts(inv, tool, budget);
      ok := status == Succeeded;
      Persist(hasRun, CallRow(inv.name, status, hasError, if ok then tool.cost else 0.0));
    }

    /** The retry loop; `runs` counts the executions of the body. */
    method Attempts(inv: Invocation, tool: Tool, budget: ToolBudget?)
      returns (status: Status, hasError: bool, ghost runs: nat)
      modifies budget
      ensures runs <= if tool.maxRetries >= 0 then tool.maxRetries + 1 else 0
      ensures var r := RunBody(inv.body, tool.maxRetries + 1, 0, false);
        && status == r.status && hasError == r.hasError && runs == r.runs
        && (budget != null ==>
          budget.Value() ==
            if status == Succeeded then Charge(old(budget.Value()), inv.name, tool.cost) else old(budget.Value()))
    {
      var attempts := tool.maxRetries + 1;
      status, hasError, runs := Failed, false, 0;
      ghost var all := RunBody(inv.body, attempts, 0, false);
      var i := 0;
      while i < attempts
        invariant 0 <= i && (i <= attempts || i == 0)
        invariant status == Failed && runs == i
        invariant RunBody(inv.body, attempts, i, hasError) == all
        invariant budget != null ==> budget.Value() == old(budget.Value())
      {
        runs := runs + 1;
        match inv.body(i)
        case Returns =>
          status := Succeeded;
          if budget != null {
            budget.Record(inv.name, tool.cost);
          }
          return;
        case TimesOut =>
          status, hasError := TimedOut, true;
          return;
        case NotFound =>
          hasError := true;
          return;
        case Crashes =>
          hasError := true;
          return;
        case Retryable =>
          hasError := true;
          if i + 1 >= attempts {
            return;
          }
        i := i + 1;
      }
    }
  }

  // ---- Accounting over whole runs -------------------------------------------------------

  type Registry = map<string, Tool>

  function FindIn(registry: Registry, name: string): Option<Tool> {
    if name in registry then Some(registry[name]) else None
  }

  /** An invocation and the rate limiter's answer to it. */
  datatype Call = Call(inv: Invocation, admitted: bool)

  /** All invocations of one context with a run. */
  function RunCalls(l: Ledger, calls: seq<Call>, registry: Registry): Ledger {
    if calls == [] then l
    else
      var n := |calls| - 1;
      Invoked(RunCalls(l, calls[..n], registry), calls[n].inv, FindIn(registry, calls[n].inv.name),
        calls[n].admitted, true)
  }

  function Successes(rows: seq<CallRow>): nat {
    if rows == [] then 0 else Successes(rows[..|rows| - 1]) + if rows[|rows| - 1].status == Succeeded then 1 else 0
  }

  function SuccessesOf(rows: seq<CallRow>, tool: string): nat {
    if rows == [] then 0
    else
      var last := rows[|rows| - 1];
      SuccessesOf(rows[..|rows| - 1], tool) + if last.status == Succeeded && last.tool == tool then 1 else 0
  }

  /** What the rows cost; only successful ones cost anything. */
  function Spent(rows: seq<CallRow>): real {
    if rows == [] then 0.0 else Spent(rows[..|rows| - 1]) + rows[|rows| - 1].cost
  }

  function SumCounts(b: Budget, tools: seq<string>): int {
    if tools == [] then 0 else CountOf(b, tools[0]) + SumCounts(b, tools[1..])
  }

  predicate Lists(tools: seq<string>, b: Budget) {
    && (forall i, j :: 0 <= i < j < |tools| ==> tools[i] != tools[j])
    && forall t :: t in b.perTool ==> t in tools
  }

  /** The books agree with the rows, and no cap is exceeded. */
  ghost predicate Accounted(b: Budget, rows: seq<CallRow>, initial: Budget, registry: Registry) {
    && b.maxTotal == initial.maxTotal
    && b.used == Successes(rows)
    && (forall t :: CountOf(b, t) == SuccessesOf(rows, t))
    && b.remaining == NonNegative(initial.remaining - Spent(rows))
    && (Successes(rows) == 0 || Successes(rows) <= initial.maxTotal)
    && (forall t :: SuccessesOf(rows, t) == 0 || (t in registry && SuccessesOf(rows, t) <= registry[t].maxCalls))
  }

  lemma SpendTwice(initial: real, spent: real, cost: real)
    requires cost >= 0.0
    ensures NonNegative(NonNegative(initial - spent) - cost) == NonNegative(initial - (spent + cost))
  {}

  lemma AccountStep(b: Budget, rows: seq<CallRow>, initial: Budget, registry: Registry, inv: Invocation, admitted: bool)
    requires Accounted(b, rows, initial, registry)
    requires forall t :: t in registry ==> registry[t].cost >= 0.0
    ensures var l := Invoked(Ledger(Some(b), rows), inv, FindIn(registry, inv.name), admitted, true);
      l.budget.Some? && Accounted(l.budget.value, l.rows, initial, registry)
  {
    var row := RowFor(Ledger(Some(b), rows), inv, FindIn(registry, inv.name), admitted);
    var rows' := rows + [row];
    assert rows'[..|rows|] == rows;
    if row.status == Succeeded {
      SpendTwice(initial.remaining, Spent(rows), row.cost);
      var b' := Charge(b, inv.name, row.cost);
      forall t
        ensures CountOf(b', t) == SuccessesOf(rows', t)
      {
        assert CountOf(b, t) == SuccessesOf(rows, t);
      }
    }
  }

  /**
   Accounting over any sequence of invocations of one budgeted context with a run: one row each;
   successes within the total and every per-tool cap; the counters equal the successful rows; and the
   remaining money is the initial amount less all successful costs, floored at zero.
   */
  lemma {:induction false} RunIsAccounted(initial: Budget, calls: seq<Call>, registry: Registry)
    requires initial.used == 0 && initial.perTool == map[] && initial.remaining >= 0.0
    requires forall t :: t in registry ==> registry[t].cost >= 0.0
    ensures var l := RunCalls(Ledger(Some(initial), []), calls, registry);
      && |l.rows| == |calls|
      && l.budget.Some? && Accounted(l.budget.value, l.rows, initial, registry)
  {
    if calls != [] {
      var n := |calls| - 1;
      RunIsAccounted(initial, calls[..n], registry);
      var l := RunCalls(Ledger(Some(initial), []), calls[..n], registry);
      AccountStep(l.budget.value, l.rows, initial, registry, calls[n].inv, calls[n].admitted);
    }
  }

  lemma {:induction false} CountsOutside(b: Budget, tools: seq<string>, name: string, n: int)
    requires name !in tools
    ensures SumCounts(b.(perTool := b.perTool[name := n]), tools) == SumCounts(b, tools)
  {
    if tools != [] {
      assert tools[0] in tools;
      CountsOutside(b, tools[1..], name, n);
    }
  }

  lemma {:induction false} CountsOnce(b: Budget, tools: seq<string>, name: string, n: int)
    requires name in tools && forall i, j :: 0 <= i < j < |tools| ==> tools[i] != tools[j]
    ensures SumCounts(b.(perTool := b.perTool[name := n]), tools) == SumCounts(b, tools) - CountOf(b, name) + n
  {
    assert tools == [tools[0]] + tools[1..];
    if tools[0] == name {
      CountsOutside(b, tools[1..], name, n);
    } else {
      CountsOnce(b, tools[1..], name, n);
    }
  }

  lemma {:induction false} SumIgnoresRest(b: Budget, c: Budget, tools: seq<string>)
    requires b.perTool == c.perTool
    ensures SumCounts(b, tools) == SumCounts(c, tools)
  {
    if tools != [] {
      SumIgnoresRest(b, c, tools[1..]);
    }
  }

  lemma {:induction false} SumOfNothing(b: Budget, tools: seq<string>)
    requires b.perTool == map[]
    ensures SumCounts(b, tools) == 0
  {
    if tools != [] {
      SumOfNothing(b, tools[1..]);
    }
  }

  /** One call either leaves the budget alone or counts once, in total and for its tool. */
  lemma CountedOnce(l: Ledger, call: Call, registry: Registry)
    requires l.budget.Some?
    ensures var after := Invoked(l, call.inv, FindIn(registry, call.inv.name), call.admitted, true).budget;
      var b := l.budget.value;
      after == Some(b) || (
        && after.Some? && after.value.used == b.used + 1
        && after.value.perTool == b.perTool[call.inv.name := CountOf(b, call.inv.name) + 1])
  {}

  lemma SumStep(b: Budget, after: Budget, name: string, tools: seq<string>)
    requires Lists(tools, after) && b.used == SumCounts(b, tools)
    requires after.used == b.used + 1 && after.perTool == b.perTool[name := CountOf(b, name) + 1]
    ensures after.used == SumCounts(after, tools)
  {
    assert name in after.perTool;
    CountsOnce(b, tools, name, CountOf(b, name) + 1);
    SumIgnoresRest(b.(perTool := after.perTool), after, tools);
  }

  /** The total counter is the sum of the per-tool counters, over any list of all tools used. */
  lemma {:induction false} TotalIsSum(initial: Budget, calls: seq<Call>, registry: Registry, tools: seq<string>)
    requires initial.used == 0 && initial.perTool == map[]
    requires var l := RunCalls(Ledger(Some(initial), []), calls, registry);
      l.budget.Some? ==> Lists(tools, l.budget.value)
    ensures var l := RunCalls(Ledger(Some(initial), []), calls, registry);
      l.budget.Some? && l.budget.value.used == SumCounts(l.budget.value, tools)
  {
    if calls == [] {
      SumOfNothing(initial, tools);
    } else {
      var n := |calls| - 1;
      var l := RunCalls(Ledger(Some(initial), []), calls[..n], registry);
      StaysBudgeted(Ledger(Some(initial), []), calls[..n], registry);
      CountedOnce(l, calls[n], registry);
      var b, after := l.budget.value, RunCalls(Ledger(Some(initial), []), calls, registry).budget.value;
      assert forall t :: t in b.perTool ==> t in after.perTool;
      TotalIsSum(initial, calls[..n], registry, tools);
      if after != b {
        SumStep(b, after, calls[n].inv.name, tools);
      }
    }
  }

  lemma {:induction false} StaysBudgeted(l: Ledger, calls: seq<Call>, registry: Registry)
    requires l.budget.Some?
    ensures RunCalls(l, calls, registry).budget.Some?
  {
    if calls != [] {
      StaysBudgeted(l, calls[..|calls| - 1], registry);
    }
  }
}
