/** Every run ends, with bounds on replans and executor runs. */
module WorkflowTermination {
  import opened Common
  import opened AgentStates
  import opened Scheduler
  import opened Workflow

  function CountNode(events: seq<NodeEvent>, node: Node): nat {
    if events == [] then 0
    else CountNode(events[..|events| - 1], node) + (if events[|events| - 1].node == node then 1 else 0)
  }

  /** How many executor runs an event may cause: installing a plan, one per subtask and at
      least one; a failed planning or replanning, one. */
  function Load(e: NodeEvent): nat {
    match e.node
    case Planner | Replanner =>
      if e.update.plan.Some? && e.update.plan.value.Some?
      then
        var n := |e.update.plan.value.value.subtasks.GetOr([])|;
        if n == 0 then 1 else n
      else 1
    case _ => 0
  }

  function TotalLoad(events: seq<NodeEvent>): nat {
    if events == [] then 0 else TotalLoad(events[..|events| - 1]) + Load(events[|events| - 1])
  }

  /** Executor runs since the last replan (or since the start). */
  function ExecutorRunsSinceReplan(events: seq<NodeEvent>): nat {
    if events == [] || events[|events| - 1].node.Replanner? then 0
    else ExecutorRunsSinceReplan(events[..|events| - 1]) + (if events[|events| - 1].node.Executor? then 1 else 0)
  }

  lemma CountsExtend(events: seq<NodeEvent>, e: NodeEvent)
    ensures forall node :: CountNode(events + [e], node) == CountNode(events, node) + (if e.node == node then 1 else 0)
    ensures TotalLoad(events + [e]) == TotalLoad(events) + Load(e)
    ensures ExecutorRunsSinceReplan(events + [e])
            == if e.node.Replanner? then 0 else ExecutorRunsSinceReplan(events) + (if e.node.Executor? then 1 else 0)
  {
    assert (events + [e])[..|events|] == events;
  }

  predicate BeforePlanning(node: Node) {
    node.Supervisor? || node.SubAgents? || node.Reviewer? || node.Planner?
  }

  /** Executor runs that the current plan can still cause. */
  function Owed(c: Config): nat {
    match c.node
    case Executor => if Remaining(c.state) == 0 then 1 else Remaining(c.state)
    case ReflectionNode => Remaining(c.state)
    case _ => 0
  }

  ghost predicate Inv(limit: nat, c: Config) {
    && (BeforePlanning(c.node) ==>
          c.state.plan.None? && c.state.iterations == 0
          && forall e | e in c.events :: BeforePlanning(e.node) && !e.node.Planner?)
    && CountNode(c.events, Replanner) == c.state.iterations <= limit
    && CountNode(c.events, Executor) + Owed(c) <= TotalLoad(c.events)
    && CountNode(c.events, Planner) <= 1
    && (c.node.Replanner? ==> c.state.iterations < limit && Remaining(c.state) == 0)
    && (c.state.iterations >= limit ==> ExecutorRunsSinceReplan(c.events) <= 1)
    && (c.state.iterations >= limit && c.node.Executor? ==> ExecutorRunsSinceReplan(c.events) == 0)
  }

  lemma {:induction false} NothingCounted(events: seq<NodeEvent>)
    requires forall e | e in events :: BeforePlanning(e.node) && !e.node.Planner?
    ensures CountNode(events, Replanner) == CountNode(events, Executor) == CountNode(events, Planner) == 0
    ensures ExecutorRunsSinceReplan(events) == 0
  {
    if events != [] {
      NothingCounted(events[..|events| - 1]);
    }
  }

  lemma PlanningKeepsInv(limit: nat, c: Config, reply: Reply)
    requires Inv(limit, c) && BeforePlanning(c.node)
    ensures Inv(limit, Step(limit, c, Answers(reply)))
  {
    CountsExtend(c.events, NodeEvent(c.node, NodeOutput(limit, c.node, c.state, reply)));
    NothingCounted(c.events);
  }

  lemma LoopKeepsInv(limit: nat, c: Config, reply: Reply)
    requires Inv(limit, c) && !BeforePlanning(c.node) && !Done(c)
    ensures Inv(limit, Step(limit, c, Answers(reply)))
  {
    CountsExtend(c.events, NodeEvent(c.node, NodeOutput(limit, c.node, c.state, reply)));
  }

  lemma StepKeepsInv(limit: nat, c: Config, input: Input)
    requires Inv(limit, c)
    ensures Inv(limit, Step(limit, c, input))
  {
    if !Done(c) && input.Answers? {
      if BeforePlanning(c.node) {
        PlanningKeepsInv(limit, c, input.reply);
      } else {
        LoopKeepsInv(limit, c, input.reply);
      }
    }
  }

  lemma {:induction false} RunKeepsInv(limit: nat, c: Config, inputs: seq<Input>)
    requires Inv(limit, c)
    ensures Inv(limit, Run(limit, c, inputs))
    decreases |inputs|
  {
    if inputs != [] {
      StepKeepsInv(limit, c, inputs[0]);
      RunKeepsInv(limit, Step(limit, c, inputs[0]), inputs[1..]);
    }
  }

  /** In every run the replans are at most the limit, and executor runs are at most the sum of
      max(1, length) over the plans installed plus the number of failed (re)plannings. */
  lemma WorkIsBounded(limit: nat, goal: string, previous: seq<TaskResult>, retryFrom: Option<nat>, inputs: seq<Input>)
    ensures var c := Run(limit, Start(goal, previous, retryFrom), inputs);
            && CountNode(c.events, Planner) <= 1
            && CountNode(c.events, Replanner) <= limit
            && CountNode(c.events, Executor) <= TotalLoad(c.events)
  {
    RunKeepsInv(limit, Start(goal, previous, retryFrom), inputs);
  }

  /** After the last allowed replan only one executor step is taken. */
  lemma LastReplanGetsOneExecutorRun(limit: nat, goal: string, previous: seq<TaskResult>, retryFrom: Option<nat>, inputs: seq<Input>)
    ensures var c := Run(limit, Start(goal, previous, retryFrom), inputs);
            CountNode(c.events, Replanner) == limit ==> ExecutorRunsSinceReplan(c.events) <= 1
  {
    RunKeepsInv(limit, Start(goal, previous, retryFrom), inputs);
  }

  lemma ExecutorMoves(limit: nat, c: Config, reply: Reply)
    requires c.node.Executor? && Remaining(c.state) > 0
    ensures var d := Step(limit, c, Answers(reply));
            && d.node.ReflectionNode? && Subtasks(d.state) == Subtasks(c.state) && d.state.iterations == c.state.iterations
            && d.state.index == Next(Items(Subtasks(c.state)), c.state.index, CompletedIds(c.state.results))
  {
  }

  lemma ReflectionAtLimitEnds(limit: nat, d: Config, reply: Reply)
    requires d.node.ReflectionNode? && d.state.iterations >= limit
    ensures var e := Step(limit, d, Answers(reply));
            e.node.End? && Subtasks(e.state) == Subtasks(d.state) && e.state.index == d.state.index
  {
  }

  /** The next executor step runs the plan's last subtask. */
  predicate RunsLast(s: AgentState)
    requires Remaining(s) > 0
  {
    |Subtasks(s)| - 1 in Chosen(Items(Subtasks(s)), s.index, CompletedIds(s.results))
  }

  /** With the limit reached and work left, the run ends after one executor step and a reflection, and
      that step finishes the plan exactly when it runs the plan's last subtask. */
  lemma LastPlanIsFinishedIff(limit: nat, c: Config, first: Reply, second: Reply)
    requires c.node.Executor? && c.state.iterations >= limit && Remaining(c.state) > 0
    ensures var d := Run(limit, c, [Answers(first)] + ([Answers(second)] + []));
            && d.node.End? && Subtasks(d.state) == Subtasks(c.state)
            && (Remaining(d.state) == 0 <==> RunsLast(c.state))
  {
    var c1 := Step(limit, c, Answers(first));
    ExecutorMoves(limit, c, first);
    ReflectionSettles(limit, c, c1, second);
    RunTwo(limit, c, Answers(first), Answers(second));
  }

  lemma RunTwo(limit: nat, c: Config, first: Input, second: Input)
    ensures Run(limit, c, [first] + ([second] + [])) == Step(limit, Step(limit, c, first), second)
  {
    RunCons(limit, c, first, [second] + []);
    RunCons(limit, Step(limit, c, first), second, []);
  }

  lemma ReflectionSettles(limit: nat, c: Config, c1: Config, second: Reply)
    requires Remaining(c.state) > 0 && c1.node.ReflectionNode? && c1.state.iterations >= limit
    requires Subtasks(c1.state) == Subtasks(c.state)
    requires c1.state.index == Next(Items(Subtasks(c.state)), c.state.index, CompletedIds(c.state.results))
    ensures var d := Step(limit, c1, Answers(second));
            && d.node.End? && Subtasks(d.state) == Subtasks(c.state)
            && (Remaining(d.state) == 0 <==> RunsLast(c.state))
  {
    ReflectionAtLimitEnds(limit, c1, second);
    LastIsRunIff(Items(Subtasks(c.state)), c.state.index, CompletedIds(c.state.results));
  }

  lemma LastIsRunIff(items: seq<Item>, idx: nat, done: set<string>)
    requires idx < |items|
    ensures Next(items, idx, done) == |items| <==> |items| - 1 in Chosen(items, idx, done)
  {
    ChosenIsSorted(items, idx, done);
  }

  /** Of the last plan installed that one step runs everything exactly when the plan has a single
      subtask, or dependencies and every subtask is ready. */
  lemma LastPlanIsCompleteIff(items: seq<Item>, done: set<string>)
    requires items != []
    ensures (forall k | 0 <= k < |items| :: k in Chosen(items, 0, done)) <==>
              |items| == 1 || (HasDependencyKey(items) && forall k | 0 <= k < |items| :: Ready(items, k, done))
  {
    var chosen, ready := Chosen(items, 0, done), ReadyFrom(items, 0, done);
    ReadyFromIsExact(items, 0, done);
    assert chosen[0] in chosen;
    if |items| > 1 {
      TwoMembers(chosen);
      TwoMembers(ready);
    }
  }

  lemma TwoMembers(b: seq<nat>)
    ensures 0 in b && 1 in b ==> |b| > 1
  {
    if 0 in b && 1 in b {
      var x, y :| 0 <= x < |b| && 0 <= y < |b| && b[x] == 0 && b[y] == 1;
    }
  }

  /** Reusing an existing plan on retry never happens in a run: no plan exists before planning. */
  lemma RetryBranchIsDead(limit: nat, goal: string, previous: seq<TaskResult>, retryFrom: Option<nat>, inputs: seq<Input>, reply: Reply)
    ensures var c := Run(limit, Start(goal, previous, retryFrom), inputs);
            c.node.Planner? ==> MakePlan(c.state, reply).plan == Some(reply.plan)
  {
    RunKeepsInv(limit, Start(goal, previous, retryFrom), inputs);
  }

  // ---- termination ----

  /** Nodes before the planning loop come first, in this order. */
  function Stage(node: Node): nat {
    match node
    case Supervisor => 4
    case SubAgents => 3
    case Reviewer => 2
    case Planner => 2
    case Executor | ReflectionNode | Replanner => 1
    case End | Aborted => 0
  }

  /** Within one plan: executor, then reflection, then either the executor again with fewer
      subtasks left, or the replanner. */
  function Phase(c: Config): nat {
    match c.node
    case Executor => 2 * Remaining(c.state) + 2
    case ReflectionNode => 2 * Remaining(c.state) + (if Remaining(c.state) == 0 then 1 else 3)
    case _ => 0
  }

  /** Every step goes on to a later stage, or takes a replan, or works off the current plan. */
  ghost predicate Descends(c: Config, d: Config) {
    || Stage(d.node) < Stage(c.node)
    || (Stage(d.node) == Stage(c.node) && c.state.iterations < d.state.iterations)
    || (Stage(d.node) == Stage(c.node) && c.state.iterations == d.state.iterations && Phase(d) < Phase(c))
  }

  lemma ExecutorDescends(limit: nat, c: Config, reply: Reply)
    requires c.node.Executor?
    ensures Descends(c, Step(limit, c, Answers(reply)))
  {
  }

  lemma ReflectionDescends(limit: nat, c: Config, reply: Reply)
    requires c.node.ReflectionNode?
    ensures Descends(c, Step(limit, c, Answers(reply)))
  {
  }

  lemma StepDescends(limit: nat, c: Config, input: Input)
    requires Inv(limit, c) && !Done(c)
    ensures Descends(c, Step(limit, c, input))
  {
    if input.Answers? {
      if c.node.Executor? {
        ExecutorDescends(limit, c, input.reply);
      } else if c.node.ReflectionNode? {
        ReflectionDescends(limit, c, input.reply);
      }
    }
  }

  /** Whatever the model answers, forever, the run ends. */
  lemma {:induction false} Terminates(limit: nat, c: Config, oracle: nat -> Input, k: nat) returns (n: nat)
    requires Inv(limit, c)
    ensures Done(Run(limit, c, Inputs(oracle, k, n)))
    decreases Stage(c.node), limit - c.state.iterations, Phase(c)
  {
    if Done(c) {
      n := 0;
    } else {
      StepKeepsInv(limit, c, oracle(k));
      StepDescends(limit, c, oracle(k));
      var m := Terminates(limit, Step(limit, c, oracle(k)), oracle, k + 1);
      n := m + 1;
      assert Inputs(oracle, k, n)[1..] == Inputs(oracle, k + 1, m);
    }
  }

  lemma EveryRunEnds(limit: nat, goal: string, previous: seq<TaskResult>, retryFrom: Option<nat>, oracle: nat -> Input)
    ensures exists n :: Done(Run(limit, Start(goal, previous, retryFrom), Inputs(oracle, 0, n)))
  {
    var n := Terminates(limit, Start(goal, previous, retryFrom), oracle, 0);
  }
}
