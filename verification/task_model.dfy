/** The persisted task record, and what each write to it does. */
module TaskModel {
  import opened Common
  import opened AgentStates
  import opened Workflow

  datatype TaskStatus =
    | Pending | Planning | Executing | Reflecting | Replanning | AwaitingApproval
    | Paused | Cancelled | Completed | Failed

  const RESTARTABLE: set<TaskStatus> := {Pending, TaskStatus.Failed, Cancelled, Paused, TaskStatus.Completed}

  /** The statuses of a task that the engine is working on. */
  const ACTIVE: set<TaskStatus> := {Planning, Executing, Reflecting, Replanning}

  datatype ApprovalStatus = Undecided | Approved | Rejected

  datatype ApprovalRequest = ApprovalRequest(id: string, toolName: string, args: string, status: ApprovalStatus,
                                             note: Option<string>, modifiedArgs: Option<string>)

  datatype SubTask = SubTask(id: string, description: string, status: TaskStatus,
                             result: Option<string>, error: Option<string>)

  datatype Task = Task(
    id: string,
    goal: string,
    context: Option<string>,
    status: TaskStatus,
    subtasks: seq<SubTask>,
    reflection: Option<Reflection>,
    iterationCount: nat,
    executionMode: Option<Mode>,
    pendingApproval: Option<ApprovalRequest>,
    approvalHistory: seq<ApprovalRequest>,
    finalResult: Option<string>,
    error: Option<string>)

  function NewTask(id: string, goal: string, context: Option<string>): Task {
    Task(id, goal, context, Pending, [], None, 0, None, None, [], None, None)
  }

  function Closed(t: Task, status: TaskStatus, finalResult: Option<Option<string>>, error: Option<string>): Task {
    t.(status := status, finalResult := finalResult.GetOr(t.finalResult), error := if error.Some? then error else t.error)
  }

  // ---- plans and results ----

  function FreshSubtask(tasks: seq<PlanTask>, i: nat): SubTask
    requires i < |tasks|
  {
    SubTask(ItemAt(tasks, i).id, tasks[i].description, Pending, None, None)
  }

  function FreshSubtasks(plan: Plan): seq<SubTask> {
    var tasks := plan.subtasks.GetOr([]);
    seq(|tasks|, i requires 0 <= i < |tasks| => FreshSubtask(tasks, i))
  }

  /** An empty plan dictionary is not written. */
  function WithPlan(t: Task, plan: Option<Plan>): Task {
    if NonEmptyPlan(plan) then t.(subtasks := FreshSubtasks(plan.value)) else t
  }

  function Written(s: SubTask, r: TaskResult): SubTask {
    s.(status := if r.status.Completed? then TaskStatus.Completed else TaskStatus.Failed,
       result := r.result, error := r.error)
  }

  /** The last subtask with the given id, as a dictionary built from the list finds it. */
  function LastWithId(subtasks: seq<SubTask>, id: string): (pos: Option<nat>)
    ensures pos.Some? ==> pos.value < |subtasks| && subtasks[pos.value].id == id
    ensures forall k | 0 <= k < |subtasks| && (pos.None? || k > pos.value) :: subtasks[k].id != id
  {
    if subtasks == [] then None
    else if subtasks[|subtasks| - 1].id == id then Some(|subtasks| - 1)
    else LastWithId(subtasks[..|subtasks| - 1], id)
  }

  function WriteResult(subtasks: seq<SubTask>, r: TaskResult): seq<SubTask> {
    var pos := LastWithId(subtasks, r.subtaskId);
    if pos.Some? then subtasks[pos.value := Written(subtasks[pos.value], r)] else subtasks
  }

  function WriteResults(subtasks: seq<SubTask>, results: seq<TaskResult>): seq<SubTask> {
    if results == [] then subtasks
    else WriteResult(WriteResults(subtasks, results[..|results| - 1]), results[|results| - 1])
  }

  function WithReflection(t: Task, reflection: Option<Reflection>, iterations: Option<nat>): Task {
    t.(reflection := if reflection.Some? then reflection else t.reflection,
       iterationCount := iterations.GetOr(t.iterationCount))
  }

  /** What the service writes for one node event. */
  function HandleEvent(t: Task, e: NodeEvent): Task {
    match e.node
    case Supervisor =>
      var t' := if e.update.mode.Some? then t.(executionMode := e.update.mode) else t;
      if e.update.mode == Some(MultiAgent) then t'.(status := Executing) else t'
    case SubAgents => t.(status := Executing, executionMode := Some(MultiAgent))
    case Planner => WithPlan(t.(status := Executing), e.update.plan.GetOr(None))
    case Executor => t.(status := Executing, subtasks := WriteResults(t.subtasks, e.update.results))
    case ReflectionNode =>
      WithReflection(t.(status := if e.update.shouldReplan == Some(true) then Replanning else Reflecting),
                     e.update.reflection.GetOr(None), e.update.iterations)
    case Replanner =>
      WithReflection(WithPlan(t.(status := Executing), e.update.plan.GetOr(None)), None, e.update.iterations)
    case _ => t
  }

  function HandleEvents(t: Task, events: seq<NodeEvent>): Task {
    if events == [] then t else HandleEvent(HandleEvents(t, events[..|events| - 1]), events[|events| - 1])
  }

  // ---- approvals ----

  function WithApproval(t: Task, request: ApprovalRequest): Task {
    t.(pendingApproval := Some(request), approvalHistory := t.approvalHistory + [request])
  }

  /** The first entry with the given id is replaced. */
  function ReplaceFirst(history: seq<ApprovalRequest>, request: ApprovalRequest): seq<ApprovalRequest> {
    if history == [] then []
    else if history[0].id == request.id then [request] + history[1..]
    else [history[0]] + ReplaceFirst(history[1..], request)
  }

  /** Deciding a request: None when there is no such pending request. */
  function Resolve(t: Task, approvalId: string, status: ApprovalStatus, note: Option<string>,
                   modifiedArgs: Option<string>): Option<Task>
  {
    if t.pendingApproval.None? || t.pendingApproval.value.id != approvalId || !t.pendingApproval.value.status.Undecided?
    then None
    else
      var request := t.pendingApproval.value.(status := status, note := note, modifiedArgs := modifiedArgs);
      Some(t.(pendingApproval := None, approvalHistory := ReplaceFirst(t.approvalHistory, request)))
  }

  function UndecidedOf(history: seq<ApprovalRequest>): seq<ApprovalRequest> {
    if history == [] then []
    else UndecidedOf(history[..|history| - 1])
         + (if history[|history| - 1].status.Undecided? then [history[|history| - 1]] else [])
  }

  // ---- retry and reporting ----

  function ResetSubtask(s: SubTask): SubTask {
    s.(status := Pending, result := None, error := None)
  }

  function ResetForRetry(t: Task, from: Option<nat>): Task {
    t.(finalResult := None, error := None, reflection := None,
       subtasks := seq(|t.subtasks|, i requires 0 <= i < |t.subtasks| =>
                         if from.Some? && i < from.value then t.subtasks[i] else ResetSubtask(t.subtasks[i])))
  }

  /** The position shown as current step: the first pending subtask of an executing task. */
  function FirstPending(subtasks: seq<SubTask>, i: nat): (pos: Option<nat>)
    ensures pos.Some? ==> i <= pos.value < |subtasks| && subtasks[pos.value].status.Pending?
    ensures forall k | i <= k < |subtasks| && (pos.None? || k < pos.value) :: !subtasks[k].status.Pending?
    decreases |subtasks| - i
  {
    if i >= |subtasks| then None
    else if subtasks[i].status.Pending? then Some(i)
    else FirstPending(subtasks, i + 1)
  }

  function CurrentStep(t: Task): Option<nat> {
    if t.status.Executing? then FirstPending(t.subtasks, 0) else None
  }
}
