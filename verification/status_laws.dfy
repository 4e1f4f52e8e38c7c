/** Which step gives a task which status, and what else the record then holds. */
module StatusLaws {
  import opened Common
  import opened AgentStates
  import opened TaskModel
  import opened Lifecycle
  import opened StuckTasks
  import opened ControlRequests
  import Workflow

  // ---- how a run leaves its task ----

  /** The record after the stream of run r ended by itself. */
  function AfterEnding(s: Sys, r: nat, ending: Ending): Task
    requires RunAt(s, r, Streaming) && s.runs[r].taskId in s.tasks
  {
    Step(s, StreamEnds(r, ending)).sys.tasks[s.runs[r].taskId]
  }

  /** A run that raises leaves a failed task with its error; what was found before stays. */
  lemma CrashFails(s: Sys, r: nat, error: string)
    requires RunAt(s, r, Streaming) && s.runs[r].taskId in s.tasks
    ensures var t, t' := s.tasks[s.runs[r].taskId], AfterEnding(s, r, Crash(error));
            && t'.status.Failed? && t'.error == Some(error) && t'.finalResult == t.finalResult
            && t'.subtasks == t.subtasks && t'.approvalHistory == t.approvalHistory && t'.pendingApproval == t.pendingApproval
  {
  }

  /** A graph that ends leaves a completed task if and only if it has a text that is not empty. */
  lemma FinishCloses(s: Sys, r: nat, result: Option<string>)
    requires RunAt(s, r, Streaming) && s.runs[r].taskId in s.tasks
    ensures var t, t' := s.tasks[s.runs[r].taskId], AfterEnding(s, r, Finish(result));
            && (t'.status.Completed? <==> result.Some? && result.value != "")
            && (t'.status.Failed? <==> result.None? || result.value == "")
            && t'.finalResult == result && t'.error == t.error
            && t'.subtasks == t.subtasks && t'.approvalHistory == t.approvalHistory && t'.pendingApproval == t.pendingApproval
  {
  }

  /** An interrupt leaves a task that waits for the request, which is the last of the history. */
  lemma InterruptWaits(s: Sys, r: nat, request: ApprovalRequest)
    requires RunAt(s, r, Streaming) && s.runs[r].taskId in s.tasks
    ensures var t, t' := s.tasks[s.runs[r].taskId], AfterEnding(s, r, Interrupt(request));
            && t'.status.AwaitingApproval? && t'.pendingApproval == Some(request)
            && t'.approvalHistory == t.approvalHistory + [request]
            && t'.finalResult == t.finalResult && t'.error == t.error && t'.subtasks == t.subtasks
  {
  }

  // ---- the table of statuses ----

  /** The status a node event announces; none for a single-agent choice and for the end of the graph. */
  function EventStatus(e: Workflow.NodeEvent): Option<TaskStatus> {
    match e.node
    case Supervisor => if e.update.mode == Some(MultiAgent) then Some(Executing) else None
    case SubAgents => Some(Executing)
    case Planner => Some(Executing)
    case Executor => Some(Executing)
    case Replanner => Some(Executing)
    case ReflectionNode => if e.update.shouldReplan == Some(true) then Some(Replanning) else Some(Reflecting)
    case _ => None
  }

  predicate MayRestart(s: Sys, id: string, ok: bool)
    requires id in s.tasks
  {
    ok && s.tasks[id].status in {Pending, Paused, Cancelled, TaskStatus.Completed, TaskStatus.Failed} && QueueHasRoom(s)
  }

  predicate MayDecide(s: Sys, id: string, ok: bool, approvalId: string, approve: bool)
    requires id in s.tasks
  {
    && ok && Decidable(s.tasks[id]) && s.tasks[id].pendingApproval.value.id == approvalId
    && (approve ==> s.tasks[id].status.AwaitingApproval?) && QueueHasRoom(s)
  }

  /** The status that a step writes to task id, if it writes one. */
  function StatusWritten(s: Sys, a: Action, id: string): Option<TaskStatus>
    requires id in s.tasks
  {
    match a
    case Execute(d, ok) => if d == id && MayRestart(s, id, ok) then Some(Planning) else None
    case Resume(d, ok) => if d == id && MayRestart(s, id, ok) then Some(Planning) else None
    case Retry(d, ok, from) =>
      if d == id && MayRestart(s, id, ok) && (from.Some? ==> from.value < |s.tasks[id].subtasks|) then Some(Planning) else None
    case Decide(d, ok, x, approve, _, _) => if d == id && MayDecide(s, id, ok, x, approve) then Some(Executing) else None
    case Begin(r) =>
      if RunOf(s, r, id) && s.runs[r].phase.Starting?
      then Some(if s.runs[r].kind.ResumeApproval? then Executing else Planning) else None
    case NodeDone(r, e) => if RunOf(s, r, id) && s.runs[r].phase.Streaming? then EventStatus(e) else None
    case StreamEnds(r, ending) =>
      if !(RunOf(s, r, id) && s.runs[r].phase.Streaming?) then None
      else (match ending
            case Interrupt(_) => Some(AwaitingApproval)
            case Crash(_) => Some(TaskStatus.Failed)
            case Finish(result) => Some(if result.GetOr("") != "" then TaskStatus.Completed else TaskStatus.Failed))
    case Close(r) =>
      if RunOf(s, r, id) && s.runs[r].phase.Stopping?
      then Some(if s.runs[r].phase.cancelled then Cancelled else Paused) else None
    case _ => None
  }

  predicate WritesNothingElse(s: Sys, a: Action, id: string)
    requires id in s.tasks
  {
    var s', w := Step(s, a).sys, StatusWritten(s, a, id);
    id in s'.tasks && s'.tasks[id].status == if w.Some? then w.value else s.tasks[id].status
  }

  lemma RequestStatus(s: Sys, a: Action, id: string)
    requires id in s.tasks && IsRequest(a)
    ensures WritesNothingElse(s, a, id)
  {
  }

  lemma OwnMoveStatus(s: Sys, a: Action, id: string)
    requires id in s.tasks && IsMove(a) && RunOf(s, a.r, id)
    ensures WritesNothingElse(s, a, id)
  {
  }

  lemma MoveStatus(s: Sys, a: Action, id: string)
    requires id in s.tasks && !IsRequest(a)
    ensures WritesNothingElse(s, a, id)
  {
    if IsMove(a) {
      if RunOf(s, a.r, id) {
        OwnMoveStatus(s, a, id);
      } else if a.r < |s.runs| {
        OtherMoveTask(s, a, id);
      }
    }
  }

  /** In every state, a step leaves a task with the status of the table, and otherwise with its own. */
  lemma StatusTable(s: Sys, a: Action, id: string)
    requires id in s.tasks
    ensures var s', w := Step(s, a).sys, StatusWritten(s, a, id);
            id in s'.tasks && s'.tasks[id].status == if w.Some? then w.value else s.tasks[id].status
  {
    if IsRequest(a) {
      RequestStatus(s, a, id);
    } else {
      MoveStatus(s, a, id);
    }
  }

  // ---- completed tasks and their results ----

  /** A task becomes completed in a step only by the end of its own graph with a text that is not empty,
      and that text is its final result. */
  lemma CompletedOnlyWithText(s: Sys, a: Action, id: string)
    requires id in s.tasks && !s.tasks[id].status.Completed? && Step(s, a).sys.tasks[id].status.Completed?
    ensures a.StreamEnds? && RunOf(s, a.r, id) && a.ending.Finish? && a.ending.result.Some? && a.ending.result.value != ""
    ensures Step(s, a).sys.tasks[id].finalResult == a.ending.result
  {
    StatusTable(s, a, id);
    FinishCloses(s, a.r, a.ending.result);
  }

  /** Every completed task has a text to show. */
  ghost predicate CompletedHaveTexts(s: Sys) {
    forall id | id in s.tasks && s.tasks[id].status.Completed? :: HasText(s.tasks[id])
  }

  predicate HasText(t: Task) {
    t.finalResult.Some? && t.finalResult.value != ""
  }

  /** A retry of a completed task that finds the queue full: the reset is kept, the status too. */
  predicate ErasesResult(s: Sys, a: Action) {
    a.Retry? && a.id in s.tasks && s.tasks[a.id].status.Completed? && Step(s, a).answer.QueueFull?
  }

  lemma RequestKeepsText(s: Sys, a: Action, id: string)
    requires id in s.tasks && IsRequest(a) && !(ErasesResult(s, a) && a.id == id)
    requires s.tasks[id].status.Completed? ==> HasText(s.tasks[id])
    ensures Step(s, a).sys.tasks[id].status.Completed? ==> HasText(Step(s, a).sys.tasks[id])
  {
    RequestStatus(s, a, id);
  }

  lemma MoveKeepsText(s: Sys, a: Action, id: string)
    requires id in s.tasks && !IsRequest(a)
    requires s.tasks[id].status.Completed? ==> HasText(s.tasks[id])
    ensures id in Step(s, a).sys.tasks
    ensures Step(s, a).sys.tasks[id].status.Completed? ==> HasText(Step(s, a).sys.tasks[id])
  {
    MoveStatus(s, a, id);
    if Step(s, a).sys.tasks[id].status.Completed? {
      if !s.tasks[id].status.Completed? {
        CompletedOnlyWithText(s, a, id);
      } else if a.NodeDone? && RunOf(s, a.r, id) {
        EventKeepsResult(s.tasks[id], a.event);
      }
    }
  }

  lemma EventKeepsResult(t: Task, e: Workflow.NodeEvent)
    ensures HandleEvent(t, e).finalResult == t.finalResult && HandleEvent(t, e).error == t.error
  {
  }

  lemma NewTasksAreNotCompleted(s: Sys, a: Action, id: string)
    requires id in Step(s, a).sys.tasks && id !in s.tasks
    ensures Step(s, a).sys.tasks[id].status.Pending? && Step(s, a).sys.tasks[id].goal == a.goal
    ensures (a.Create? || a.RunTemplate?) && a.id == id
    ensures Step(s, a).sys.tasks[id].subtasks == [] && Step(s, a).sys.tasks[id].context == a.context
  {
  }

  /** So every completed task has a text; the exact steps that break this are the retries that find the
      queue full. */
  lemma TextsAreKeptIff(s: Sys, a: Action)
    requires CompletedHaveTexts(s)
    ensures CompletedHaveTexts(Step(s, a).sys) <==> !ErasesResult(s, a)
  {
    var s' := Step(s, a).sys;
    if ErasesResult(s, a) {
      assert s'.tasks[a.id].status.Completed? && !HasText(s'.tasks[a.id]);
    } else {
      forall id | id in s'.tasks && s'.tasks[id].status.Completed? ensures HasText(s'.tasks[id]) {
        if id !in s.tasks {
          NewTasksAreNotCompleted(s, a, id);
        } else if IsRequest(a) {
          RequestKeepsText(s, a, id);
        } else {
          MoveKeepsText(s, a, id);
        }
      }
    }
  }

  /** None of the steps is such a retry. */
  ghost predicate ErasesNothing(s: Sys, actions: seq<Action>)
    decreases |actions|
  {
    actions == [] || (!ErasesResult(s, actions[0]) && ErasesNothing(Step(s, actions[0]).sys, actions[1..]))
  }

  lemma {:induction false} TextsAreKept(s: Sys, actions: seq<Action>)
    requires CompletedHaveTexts(s) && ErasesNothing(s, actions)
    ensures CompletedHaveTexts(Exec(s, actions))
    decreases |actions|
  {
    if actions != [] {
      TextsAreKeptIff(s, actions[0]);
      TextsAreKept(Step(s, actions[0]).sys, actions[1..]);
    }
  }

  // ---- paused and cancelled tasks ----

  /** Nothing of a pause or cancel request for the task is there. */
  ghost predicate NotAsked(s: Sys, id: string, cancel: bool) {
    && !HasFlag(s, id, cancel) && !IsStopping(s, id, cancel)
    && (id in s.tasks ==> s.tasks[id].status != Requested(cancel))
  }

  predicate Asks(a: Action, id: string, cancel: bool) {
    a == Request(id, cancel)
  }

  lemma RequestKeepsNotAsked(s: Sys, a: Action, id: string, cancel: bool)
    requires NotAsked(s, id, cancel) && IsRequest(a) && !Asks(a, id, cancel)
    ensures NotAsked(Step(s, a).sys, id, cancel)
  {
    OtherRequestQueue(s, a);
    if id in s.tasks {
      RequestStatus(s, a, id);
    }
    RequestFlags(s, a, id, cancel);
  }

  lemma RequestFlags(s: Sys, a: Action, id: string, cancel: bool)
    requires IsRequest(a) && !Asks(a, id, cancel) && !HasFlag(s, id, cancel)
    ensures !HasFlag(Step(s, a).sys, id, cancel)
  {
  }

  lemma MoveKeepsNotAsked(s: Sys, a: Action, id: string, cancel: bool)
    requires NotAsked(s, id, cancel) && !IsRequest(a)
    ensures NotAsked(Step(s, a).sys, id, cancel)
  {
    if a.Dequeue? {
      DequeueLeavesUntouched(s, id);
    } else if !RunOf(s, a.r, id) {
      ElsewhereLeavesUntouched(s, a, id);
    } else {
      OwnMoveKeepsNotAsked(s, a, id, cancel);
    }
  }

  lemma OwnMoveKeepsNotAsked(s: Sys, a: Action, id: string, cancel: bool)
    requires NotAsked(s, id, cancel) && IsMove(a) && RunOf(s, a.r, id)
    ensures NotAsked(Step(s, a).sys, id, cancel)
  {
    var s' := Step(s, a).sys;
    assert s.runs[a.r] in s.runs;
    if id in s.tasks {
      MoveStatus(s, a, id);
    }
    OwnMoveRuns(s, a, id, cancel);
  }

  lemma OwnMoveRuns(s: Sys, a: Action, id: string, cancel: bool)
    requires !HasFlag(s, id, cancel) && IsMove(a) && RunOf(s, a.r, id)
    ensures !HasFlag(Step(s, a).sys, id, cancel)
    ensures forall w | w in Step(s, a).sys.runs && w.taskId == id && w.phase == Stopping(cancel) :: w in s.runs
  {
  }

  /** A task is never cancelled, and never paused, unless such a request was made for it, by someone who
      may access it: from the start, in every interleaving. */
  lemma {:induction false} NeverStoppedUnasked(s: Sys, actions: seq<Action>, id: string, cancel: bool)
    requires NotAsked(s, id, cancel) && forall a | a in actions :: !Asks(a, id, cancel)
    ensures NotAsked(Exec(s, actions), id, cancel)
    decreases |actions|
  {
    if actions != [] {
      assert actions[0] in actions;
      if IsRequest(actions[0]) {
        RequestKeepsNotAsked(s, actions[0], id, cancel);
      } else {
        MoveKeepsNotAsked(s, actions[0], id, cancel);
      }
      NeverStoppedUnasked(Step(s, actions[0]).sys, actions[1..], id, cancel);
    }
  }

  lemma StoppedOnlyOnRequest(capacity: nat, actions: seq<Action>, id: string, cancel: bool)
    requires var s := Exec(InitSys(capacity), actions); id in s.tasks && s.tasks[id].status == Requested(cancel)
    ensures Request(id, cancel) in actions
  {
    if Request(id, cancel) !in actions {
      NeverStoppedUnasked(InitSys(capacity), actions, id, cancel);
    }
  }

  // ---- the table of messages ----

  /** The message that an accepted request puts into the queue. */
  function MessageSent(a: Action): Option<Message> {
    match a
    case RunTemplate(id, _, _) => Some(Message(id, ExecuteTask(None)))
    case Execute(id, _) => Some(Message(id, ExecuteTask(None)))
    case Resume(id, _) => Some(Message(id, ExecuteTask(None)))
    case Retry(id, _, from) => Some(Message(id, ExecuteTask(from)))
    case Decide(id, _, _, approve, note, args) =>
      Some(Message(id, ResumeApproval(approve, note, if approve && args.GetOr("") != "" then args else None)))
    case _ => None
  }

  /** A request that is accepted puts exactly its message at the end of the queue; one that is not, none. A
      worker takes the oldest message, with its kind, and no other step touches the queue. */
  lemma MessageTable(s: Sys, a: Action)
    ensures var s', m := Step(s, a).sys, MessageSent(a);
            IsRequest(a) ==>
              s'.runs == s.runs && s'.queue == if Step(s, a).answer.Accepted? && m.Some? then s.queue + [m.value] else s.queue
    ensures var s' := Step(s, a).sys;
            a.Dequeue? && s.queue != [] ==>
              s'.queue == s.queue[1..] && s'.runs == s.runs + [WorkerRun(s.queue[0].taskId, s.queue[0].kind, Starting)]
    ensures !IsRequest(a) && !a.Dequeue? ==> Step(s, a).sys.queue == s.queue
  {
  }

  // ---- the reset before a retry ----

  /** A retry of a task that may be restarted clears result, error and reflection; from the index on (all
      of them without one) the subtasks become pending and lose result and error, those before stay. */
  lemma RetryResets(s: Sys, id: string, from: Option<nat>)
    requires id in s.tasks && s.tasks[id].status in RESTARTABLE
    requires from.Some? ==> from.value < |s.tasks[id].subtasks|
    ensures var t, t' := s.tasks[id], Step(s, Retry(id, true, from)).sys.tasks[id];
            && t'.finalResult.None? && t'.error.None? && t'.reflection.None?
            && |t'.subtasks| == |t.subtasks|
            && (forall i | 0 <= i < |t.subtasks| ::
                  && t'.subtasks[i].id == t.subtasks[i].id && t'.subtasks[i].description == t.subtasks[i].description
                  && (from.Some? && i < from.value ==> t'.subtasks[i] == t.subtasks[i])
                  && (from.None? || i >= from.value ==>
                        t'.subtasks[i].status.Pending? && t'.subtasks[i].result.None? && t'.subtasks[i].error.None?))
            && t'.approvalHistory == t.approvalHistory && t'.goal == t.goal && t'.iterationCount == t.iterationCount
  {
  }

  // ---- the table of refusals ----

  /** The request asks for something the task is not in a state for. */
  predicate WrongState(s: Sys, a: Action)
    requires IsRequest(a) && a.id in s.tasks
  {
    var t := s.tasks[a.id];
    match a
    case Execute(_, _) => t.status in LIVE
    case Resume(_, _) => t.status in LIVE
    case Retry(_, _, from) => t.status in LIVE || (from.Some? && from.value >= |t.subtasks|)
    case Pause(_, _) => t.status !in LIVE
    case Cancel(_, _) => t.status in {TaskStatus.Completed, Cancelled, TaskStatus.Failed}
    case Decide(_, _, x, approve, _, _) => HasUndecided(t, x) && approve && !t.status.AwaitingApproval?
    case _ => false
  }

  /** Which refusal a request about an existing or missing task meets, and when. */
  lemma RefusalTable(s: Sys, a: Action)
    requires IsRequest(a) && !a.Create? && !a.RunTemplate?
    ensures Step(s, a).answer.NotFound? <==> a.id !in s.tasks
    ensures Step(s, a).answer.Forbidden? <==> a.id in s.tasks && !a.ok
    ensures Step(s, a).answer.BadState? <==> a.id in s.tasks && a.ok && WrongState(s, a)
    ensures Step(s, a).answer.ApprovalNotFound? <==> a.Decide? && a.id in s.tasks && a.ok && !HasUndecided(s.tasks[a.id], a.approvalId)
    ensures Step(s, a).answer.AlreadyDecided? <==>
              && a.Decide? && a.id in s.tasks && a.ok && HasUndecided(s.tasks[a.id], a.approvalId) && !WrongState(s, a)
              && !(Decidable(s.tasks[a.id]) && s.tasks[a.id].pendingApproval.value.id == a.approvalId)
    ensures Step(s, a).answer in {NotFound, Forbidden, BadState, ApprovalNotFound} ==> Step(s, a).sys == s
  {
    if a.id in s.tasks {
      LiveOrAtRest(s.tasks[a.id].status);
    }
  }

  lemma LiveOrAtRest(status: TaskStatus)
    ensures status in LIVE <==> status !in RESTARTABLE
    ensures status in LIVE <==> status in ACTIVE + {AwaitingApproval}
  {
  }
}
