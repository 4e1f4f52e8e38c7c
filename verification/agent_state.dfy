/** The state that the workflow nodes share, and the update records they return. */
module AgentStates {
  import opened Common

  /** One subtask of a plan dictionary; a field is None when its key is absent. */
  datatype PlanTask = PlanTask(id: Option<string>, description: string, dependsOn: Option<seq<string>>)

  /** A plan dictionary: its "subtasks" entry, if any, and whether it has other keys. */
  datatype Plan = Plan(subtasks: Option<seq<PlanTask>>, otherKeys: bool)

  datatype ResultStatus = Completed | Failed

  datatype TaskResult = TaskResult(subtaskId: string, description: string, result: Option<string>,
                                   status: ResultStatus, error: Option<string>)

  datatype Reflection = Reflection(isSatisfactory: bool, degraded: bool)

  datatype Mode = Single | MultiAgent

  datatype AgentState = AgentState(
    goal: string,
    mode: Option<Mode>,
    assignments: seq<string>,
    plan: Option<Plan>,
    planVersion: nat,
    index: nat,
    results: seq<TaskResult>,
    retryFrom: Option<nat>,
    reflection: Option<Reflection>,
    shouldReplan: bool,
    iterations: nat,
    finalResult: Option<string>)

  /** What a node returns: None leaves a field alone; the list fields are appended. */
  datatype Update = Update(
    mode: Option<Mode>,
    assignments: seq<string>,
    plan: Option<Option<Plan>>,
    planVersion: Option<nat>,
    index: Option<nat>,
    results: seq<TaskResult>,
    retryFrom: Option<Option<nat>>,
    reflection: Option<Option<Reflection>>,
    shouldReplan: Option<bool>,
    iterations: Option<nat>,
    finalResult: Option<Option<string>>)

  const NO_UPDATE := Update(None, [], None, None, None, [], None, None, None, None, None)

  function Merge(s: AgentState, u: Update): AgentState {
    AgentState(
      s.goal,
      if u.mode.Some? then u.mode else s.mode,
      s.assignments + u.assignments,
      u.plan.GetOr(s.plan),
      u.planVersion.GetOr(s.planVersion),
      u.index.GetOr(s.index),
      s.results + u.results,
      u.retryFrom.GetOr(s.retryFrom),
      u.reflection.GetOr(s.reflection),
      u.shouldReplan.GetOr(s.shouldReplan),
      u.iterations.GetOr(s.iterations),
      u.finalResult.GetOr(s.finalResult))
  }

  /** The state with which the service starts a run: no plan yet, maybe earlier results. */
  function InitialState(goal: string, previous: seq<TaskResult>, retryFrom: Option<nat>): AgentState {
    AgentState(goal, None, [], None, 0, 0, previous, retryFrom, None, false, 0, None)
  }

  /** What the scheduler reads of a subtask: its identifier (a subtask without one is called
      task_i), its dependencies, and whether the "depends_on" key is present. */
  datatype Item = Item(id: string, deps: seq<string>, hasKey: bool)

  function ItemAt(tasks: seq<PlanTask>, i: nat): Item
    requires i < |tasks|
  {
    Item(tasks[i].id.GetOr("task_" + Decimal(i)), tasks[i].dependsOn.GetOr([]), tasks[i].dependsOn.Some?)
  }

  function Items(tasks: seq<PlanTask>): (items: seq<Item>)
    ensures |items| == |tasks|
    ensures forall i | 0 <= i < |tasks| :: items[i] == ItemAt(tasks, i)
  {
    seq(|tasks|, i requires 0 <= i < |tasks| => ItemAt(tasks, i))
  }

  predicate DistinctIds(items: seq<Item>) {
    forall i, j | 0 <= i < j < |items| :: items[i].id != items[j].id
  }

  /** The subtasks of the current plan; none without a plan or without a "subtasks" key. */
  function Subtasks(s: AgentState): seq<PlanTask> {
    if s.plan.Some? then s.plan.value.subtasks.GetOr([]) else []
  }

  function Remaining(s: AgentState): nat {
    if s.index < |Subtasks(s)| then |Subtasks(s)| - s.index else 0
  }

  /** The ids that the results report as completed. */
  function CompletedIds(results: seq<TaskResult>): set<string> {
    set r | r in results && r.status.Completed? :: r.subtaskId
  }
}
