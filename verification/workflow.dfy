/** The workflow graph: its nodes as functions from state to update, and its routing. */
module Workflow {
  import opened Common
  import opened AgentStates
  import opened Scheduler

  /** How the model and its tools fare on one subtask. */
  datatype Outcome = Success(text: string) | Failure(error: string)

  /** What the model answers while one node runs; only the part that the node asks for matters.
      A plan or verdict of None means that the call or the parsing of its answer failed. */
  datatype Reply = Reply(
    mode: Mode,
    assignments: seq<string>,
    plan: Option<Plan>,
    outcome: nat -> Outcome,
    verdict: Option<bool>,
    review: string,
    error: string)

  datatype Input = Answers(reply: Reply) | Raises

  datatype Node = Supervisor | SubAgents | Reviewer | Planner | Executor | ReflectionNode | Replanner
                | End | Aborted

  /** One element of the event stream: a node and the update it returned. */
  datatype NodeEvent = NodeEvent(node: Node, update: Update)

  const NO_PLAN_MESSAGE := "无有效执行计划。"
  const REPLAN_FAILED_PREFIX := "重新规划失败，终止执行。错误: "
  const PARALLEL_FAILED_PREFIX := "执行失败: "

  // ---- supervisor and the multi-agent branch ----

  function Supervise(reply: Reply): Update {
    if reply.mode.MultiAgent? && reply.assignments != []
    then NO_UPDATE.(mode := Some(MultiAgent), assignments := reply.assignments)
    else NO_UPDATE.(mode := Some(Single))
  }

  function Review(reply: Reply): Update {
    NO_UPDATE.(finalResult := Some(Some(reply.review)))
  }

  function RouteAfterSupervisor(s: AgentState): Node {
    if s.mode == Some(MultiAgent) && s.assignments != [] then SubAgents else Planner
  }

  // ---- planner ----

  predicate NonEmptyPlan(plan: Option<Plan>) {
    plan.Some? && (plan.value.subtasks.Some? || plan.value.otherKeys)
  }

  function MakePlan(s: AgentState, reply: Reply): Update {
    if s.retryFrom.Some? && NonEmptyPlan(s.plan) then
      NO_UPDATE.(index := s.retryFrom,
                 results := if s.retryFrom.value < |s.results| then s.results[..s.retryFrom.value] else s.results,
                 retryFrom := Some(None),
                 shouldReplan := Some(false))
    else
      NO_UPDATE.(plan := Some(reply.plan),
                 planVersion := Some(if reply.plan.Some? then 1 else 0),
                 index := Some(0),
                 iterations := Some(0),
                 shouldReplan := Some(false),
                 reflection := Some(None),
                 finalResult := Some(None))
  }

  function Replan(s: AgentState, reply: Reply): Update {
    if reply.plan.Some? then
      NO_UPDATE.(plan := Some(reply.plan),
                 planVersion := Some(s.planVersion + 1),
                 index := Some(0),
                 shouldReplan := Some(false),
                 iterations := Some(s.iterations + 1))
    else
      NO_UPDATE.(shouldReplan := Some(false),
                 iterations := Some(s.iterations + 1),
                 finalResult := Some(Some(REPLAN_FAILED_PREFIX + reply.error)))
  }

  // ---- executor ----

  predicate HasSubtasksKey(s: AgentState) {
    s.plan.Some? && s.plan.value.subtasks.Some?
  }

  /** The result record of the subtask at position i, run alone or in a parallel batch. */
  function ResultOf(tasks: seq<PlanTask>, i: nat, outcome: Outcome, parallel: bool): TaskResult
    requires i < |tasks|
  {
    var id, description := ItemAt(tasks, i).id, tasks[i].description;
    match outcome
    case Success(text) => TaskResult(id, description, Some(text), Completed, None)
    case Failure(error) =>
      if parallel then TaskResult(id, description, Some(PARALLEL_FAILED_PREFIX + error), Failed, None)
      else TaskResult(id, description, None, Failed, Some(error))
  }

  function ResultsOf(tasks: seq<PlanTask>, chosen: seq<nat>, outcome: nat -> Outcome): (results: seq<TaskResult>)
    requires forall k | k in chosen :: k < |tasks|
    ensures |results| == |chosen|
  {
    seq(|chosen|, n requires 0 <= n < |chosen| =>
      assert chosen[n] in chosen;
      ResultOf(tasks, chosen[n], outcome(chosen[n]), |chosen| > 1))
  }

  /** The positions the executor runs in state s; none without a plan or past its end. */
  function ChosenNow(s: AgentState): (chosen: seq<nat>)
    ensures forall k | k in chosen :: s.index <= k < |Subtasks(s)|
  {
    if s.index < |Subtasks(s)| then Chosen(Items(Subtasks(s)), s.index, CompletedIds(s.results)) else []
  }

  function Execute(s: AgentState, reply: Reply): Update {
    if !HasSubtasksKey(s) then
      NO_UPDATE.(finalResult := Some(Some(NO_PLAN_MESSAGE)))
    else if s.index >= |Subtasks(s)| then
      NO_UPDATE
    else
      NO_UPDATE.(index := Some(Next(Items(Subtasks(s)), s.index, CompletedIds(s.results))),
                 results := ResultsOf(Subtasks(s), ChosenNow(s), reply.outcome))
  }

  // ---- reflection ----

  /** The lines on one result: title and status, then result and error if there are any. */
  function Section(i: nat, r: TaskResult): string {
    ("\n" + ("## 步骤 " + Decimal(i) + ": " + r.description))
    + ("\n" + ("**状态**: " + (if r.status.Completed? then "completed" else "failed") + "\n"))
    + (if Truthy(r.result) then "\n" + ("**结果**:\n" + r.result.value + "\n") else "")
    + (if Truthy(r.error) then "\n" + ("**错误**: " + r.error.value + "\n") else "")
  }

  function Sections(results: seq<TaskResult>): string {
    if results == [] then ""
    else Sections(results[..|results| - 1]) + Section(|results|, results[|results| - 1])
  }

  function Heading(goal: string): string {
    "# 任务执行结果\n\n**目标**: " + goal + "\n"
  }

  /** The final report: a heading and one section per result. */
  function Report(results: seq<TaskResult>, goal: string): (text: string)
    ensures text != ""
  {
    Heading(goal) + Sections(results)
  }

  /** Lines joined by line breaks. */
  function Joined(lines: seq<string>): string {
    if lines == [] then ""
    else if |lines| == 1 then lines[0]
    else Joined(lines[..|lines| - 1]) + "\n" + lines[|lines| - 1]
  }

  lemma JoinedOneMore(lines: seq<string>, line: string)
    requires lines != []
    ensures Joined(lines + [line]) == Joined(lines) + ("\n" + line)
  {
    assert (lines + [line])[..|lines|] == lines;
  }

  lemma Regroup(a: string, b: string, c: string)
    ensures (a + b) + c == a + (b + c)
  {
  }

  /** The report is put together line by line. */
  method SynthesizeResults(results: seq<TaskResult>, goal: string) returns (text: string)
    ensures text == Report(results, goal)
  {
    var lines := ["# 任务执行结果\n\n**目标**: " + goal + "\n"];
    for i := 0 to |results|
      invariant lines != [] && Joined(lines) == Report(results[..i], goal)
    {
      assert results[..i + 1][..i] == results[..i];
      Regroup(Heading(goal), Sections(results[..i]), Section(i + 1, results[i]));
      lines := AddSection(lines, i + 1, results[i]);
    }
    assert results[..|results|] == results;
    text := Joined(lines);
  }

  method AddSection(lines: seq<string>, i: nat, r: TaskResult) returns (longer: seq<string>)
    requires lines != []
    ensures longer != [] && Joined(longer) == Joined(lines) + Section(i, r)
  {
    longer := AddLine(lines, "## 步骤 " + Decimal(i) + ": " + r.description);
    longer := AddLine(longer, "**状态**: " + (if r.status.Completed? then "completed" else "failed") + "\n");
    ghost var head := ("\n" + ("## 步骤 " + Decimal(i) + ": " + r.description))
                      + ("\n" + ("**状态**: " + (if r.status.Completed? then "completed" else "failed") + "\n"));
    ghost var result := if Truthy(r.result) then "\n" + ("**结果**:\n" + r.result.value + "\n") else "";
    ghost var error := if Truthy(r.error) then "\n" + ("**错误**: " + r.error.value + "\n") else "";
    FourParts(Joined(lines), "\n" + ("## 步骤 " + Decimal(i) + ": " + r.description),
              "\n" + ("**状态**: " + (if r.status.Completed? then "completed" else "failed") + "\n"), result, error);
    if r.result.Some? && r.result.value != "" {
      longer := AddLine(longer, "**结果**:\n" + r.result.value + "\n");
    } else {
      NothingAdded(Joined(longer));
    }
    if r.error.Some? && r.error.value != "" {
      longer := AddLine(longer, "**错误**: " + r.error.value + "\n");
    } else {
      NothingAdded(Joined(longer));
    }
    assert Section(i, r) == head + result + error;
  }

  method AddLine(lines: seq<string>, line: string) returns (longer: seq<string>)
    requires lines != []
    ensures longer == lines + [line] && Joined(longer) == Joined(lines) + ("\n" + line)
  {
    JoinedOneMore(lines, line);
    longer := lines + [line];
  }

  lemma FourParts(text: string, a: string, b: string, c: string, d: string)
    ensures text + a + b + c + d == text + (a + b + c + d)
  {
  }

  lemma NothingAdded(text: string)
    ensures text + "" == text
  {
  }

  function Reflect(limit: nat, s: AgentState, reply: Reply): Update {
    if s.index < |Subtasks(s)| then
      NO_UPDATE.(reflection := Some(None), shouldReplan := Some(false), finalResult := Some(None))
    else if reply.verdict.None? then
      NO_UPDATE.(reflection := Some(Some(Reflection(false, true))),
                 shouldReplan := Some(false),
                 finalResult := Some(Some(Report(s.results, s.goal))))
    else
      var again := !reply.verdict.value && s.iterations < limit;
      NO_UPDATE.(reflection := Some(Some(Reflection(reply.verdict.value, false))),
                 shouldReplan := Some(again),
                 finalResult := Some(if again then None else Some(Report(s.results, s.goal))))
  }

  function RouteAfterReflection(limit: nat, s: AgentState): Node {
    if s.iterations >= limit then End
    else if s.shouldReplan then Replanner
    else if HasSubtasksKey(s) && |Subtasks(s)| > s.index then Executor
    else End
  }

  // ---- the graph ----

  function NodeOutput(limit: nat, node: Node, s: AgentState, reply: Reply): Update {
    match node
    case Supervisor => Supervise(reply)
    case SubAgents => NO_UPDATE
    case Reviewer => Review(reply)
    case Planner => MakePlan(s, reply)
    case Executor => Execute(s, reply)
    case ReflectionNode => Reflect(limit, s, reply)
    case Replanner => Replan(s, reply)
    case End => NO_UPDATE
    case Aborted => NO_UPDATE
  }

  function Successor(limit: nat, node: Node, s: AgentState): Node {
    match node
    case Supervisor => RouteAfterSupervisor(s)
    case SubAgents => Reviewer
    case Reviewer => End
    case Planner => Executor
    case Executor => ReflectionNode
    case ReflectionNode => RouteAfterReflection(limit, s)
    case Replanner => Executor
    case End => End
    case Aborted => Aborted
  }

  /** A run in progress: the node to run next, the state, and the events so far. */
  datatype Config = Config(node: Node, state: AgentState, events: seq<NodeEvent>)

  predicate Done(c: Config) {
    c.node.End? || c.node.Aborted?
  }

  /** One node runs; a node that raises leaves the state alone and ends the run. */
  function Step(limit: nat, c: Config, input: Input): Config {
    if Done(c) then c
    else
      match input
      case Raises => c.(node := Aborted)
      case Answers(reply) =>
        var update := NodeOutput(limit, c.node, c.state, reply);
        var state := Merge(c.state, update);
        Config(Successor(limit, c.node, state), state, c.events + [NodeEvent(c.node, update)])
  }

  function Run(limit: nat, c: Config, inputs: seq<Input>): Config
    decreases |inputs|
  {
    if inputs == [] then c else Run(limit, Step(limit, c, inputs[0]), inputs[1..])
  }

  lemma RunCons(limit: nat, c: Config, input: Input, inputs: seq<Input>)
    ensures Run(limit, c, [input] + inputs) == Run(limit, Step(limit, c, input), inputs)
  {
    assert ([input] + inputs)[1..] == inputs;
  }

  function Start(goal: string, previous: seq<TaskResult>, retryFrom: Option<nat>): Config {
    Config(Supervisor, InitialState(goal, previous, retryFrom), [])
  }

  /** n inputs taken from the oracle, starting with its k-th. */
  function Inputs(oracle: nat -> Input, k: nat, n: nat): (inputs: seq<Input>)
    ensures |inputs| == n
    decreases n
  {
    if n == 0 then [] else [oracle(k)] + Inputs(oracle, k + 1, n - 1)
  }
}
