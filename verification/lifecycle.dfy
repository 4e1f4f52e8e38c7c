/** Tasks, queue, control flags and worker runs as one state machine. Every API handler is one
    atomic step; a worker run is one step per node event, interleaved with everything else. */
module Lifecycle {
  import opened Common
  import opened Workflow
  import opened TaskModel

  datatype MessageKind =
    | ExecuteTask(retryFrom: Option<nat>)
    | ResumeApproval(approved: bool, reason: Option<string>, args: Option<string>)

  datatype Message = Message(taskId: string, kind: MessageKind)

  /** A run that has handled a stop request is Stopping until it writes the closing status. */
  datatype Phase = Starting | Streaming | Stopping(cancelled: bool)

  datatype WorkerRun = WorkerRun(taskId: string, kind: MessageKind, phase: Phase)

  /** How an event stream ends by itself. */
  datatype Ending = Interrupt(request: ApprovalRequest) | Finish(result: Option<string>) | Crash(error: string)

  datatype Sys = Sys(tasks: map<string, Task>, queue: seq<Message>, capacity: nat,
                     pause: set<string>, cancel: set<string>, runs: seq<WorkerRun>)

  /** A request of the API, as opposed to a move of a worker. */
  predicate IsRequest(a: Action) {
    a.Create? || a.RunTemplate? || a.Execute? || a.Resume? || a.Retry? || a.Pause? || a.Cancel? || a.Decide?
  }

  datatype Answer = Accepted | NotFound | Forbidden | BadState | ApprovalNotFound | AlreadyDecided | QueueFull
                  | Impossible

  datatype Outcome = Outcome(sys: Sys, answer: Answer)

  /** One step: a request (ok says whether the caller may access the task), or a move of the
      worker run at position r. */
  datatype Action =
    | Create(id: string, goal: string, context: Option<string>)
    | RunTemplate(id: string, goal: string, context: Option<string>)
    | Execute(id: string, ok: bool)
    | Resume(id: string, ok: bool)
    | Retry(id: string, ok: bool, from: Option<nat>)
    | Pause(id: string, ok: bool)
    | Cancel(id: string, ok: bool)
    | Decide(id: string, ok: bool, approvalId: string, approve: bool, note: Option<string>, args: Option<string>)
    | Dequeue
    | Begin(r: nat)
    | NodeDone(r: nat, event: NodeEvent)
    | StreamEnds(r: nat, ending: Ending)
    | Close(r: nat)
    | LoseRun(r: nat)

  const TERMINAL: set<TaskStatus> := {TaskStatus.Completed, Cancelled, TaskStatus.Failed}
  const CANCEL_NOTE := "任务被取消"

  function SetStatus(s: Sys, id: string, status: TaskStatus): Sys
    requires id in s.tasks
  {
    s.(tasks := s.tasks[id := s.tasks[id].(status := status)])
  }

  function ClearFlags(s: Sys, id: string): Sys {
    s.(pause := s.pause - {id}, cancel := s.cancel - {id})
  }

  predicate QueueHasRoom(s: Sys) {
    s.capacity == 0 || |s.queue| < s.capacity
  }

  /** Enqueue, then move the status; nothing happens when the queue is full. */
  function Submit(s: Sys, id: string, kind: MessageKind, status: TaskStatus): Outcome
    requires id in s.tasks
  {
    if QueueHasRoom(s)
    then Outcome(SetStatus(s.(queue := s.queue + [Message(id, kind)]), id, status), Accepted)
    else Outcome(s, QueueFull)
  }

  // ---- the handlers ----

  /** Execute and resume: the same guard, the same message. */
  function Restart(s: Sys, id: string, ok: bool): Outcome {
    if id !in s.tasks then Outcome(s, NotFound)
    else if !ok then Outcome(s, Forbidden)
    else if s.tasks[id].status !in RESTARTABLE then Outcome(s, BadState)
    else Submit(ClearFlags(s, id), id, ExecuteTask(None), Planning)
  }

  function RetryTask(s: Sys, id: string, ok: bool, from: Option<nat>): Outcome {
    if id !in s.tasks then Outcome(s, NotFound)
    else if !ok then Outcome(s, Forbidden)
    else if s.tasks[id].status !in RESTARTABLE then Outcome(s, BadState)
    else if from.Some? && from.value >= |s.tasks[id].subtasks| then Outcome(s, BadState)
    else
      var reset := s.(tasks := s.tasks[id := ResetForRetry(s.tasks[id], from)]);
      Submit(ClearFlags(reset, id), id, ExecuteTask(from), Planning)
  }

  function PauseTask(s: Sys, id: string, ok: bool): Outcome {
    if id !in s.tasks then Outcome(s, NotFound)
    else if !ok then Outcome(s, Forbidden)
    else if s.tasks[id].status !in ACTIVE + {AwaitingApproval} then Outcome(s, BadState)
    else Outcome(s.(pause := s.pause + {id}, cancel := s.cancel - {id}), Accepted)
  }

  function CancelTask(s: Sys, id: string, ok: bool): Outcome {
    if id !in s.tasks then Outcome(s, NotFound)
    else if !ok then Outcome(s, Forbidden)
    else if s.tasks[id].status in TERMINAL then Outcome(s, BadState)
    else
      var flagged := s.(cancel := s.cancel + {id}, pause := s.pause - {id});
      var t := s.tasks[id];
      if t.status.AwaitingApproval? && t.pendingApproval.Some? then
        var resolved := Resolve(t, t.pendingApproval.value.id, Rejected, Some(CANCEL_NOTE), None);
        Outcome(if resolved.Some? then flagged.(tasks := s.tasks[id := resolved.value]) else flagged, Accepted)
      else Outcome(flagged, Accepted)
  }

  predicate HasUndecided(t: Task, approvalId: string) {
    exists a | a in t.approvalHistory :: a.status.Undecided? && a.id == approvalId
  }

  function DecideApproval(s: Sys, id: string, ok: bool, approvalId: string, approve: bool,
                          note: Option<string>, args: Option<string>): Outcome
  {
    if id !in s.tasks then Outcome(s, NotFound)
    else if !ok then Outcome(s, Forbidden)
    else if !HasUndecided(s.tasks[id], approvalId) then Outcome(s, ApprovalNotFound)
    else if approve && !s.tasks[id].status.AwaitingApproval? then Outcome(s, BadState)
    else
      var resolved := Resolve(s.tasks[id], approvalId, if approve then Approved else Rejected, note,
                              if approve then args else None);
      if resolved.None? then Outcome(s, AlreadyDecided)
      else Submit(s.(tasks := s.tasks[id := resolved.value]), id,
                  ResumeApproval(approve, note, if approve && Truthy(args) then args else None), Executing)
  }

  /** A template run with auto-execute: create and enqueue, without a status move. */
  function TemplateRun(s: Sys, id: string, goal: string, context: Option<string>): Outcome {
    if id in s.tasks then Outcome(s, Impossible)
    else
      var created := s.(tasks := s.tasks[id := NewTask(id, goal, context)]);
      if QueueHasRoom(s) then Outcome(created.(queue := s.queue + [Message(id, ExecuteTask(None))]), Accepted)
      else Outcome(created, QueueFull)
  }

  // ---- the workers ----

  function SetRun(s: Sys, r: nat, run: WorkerRun): Sys
    requires r < |s.runs|
  {
    s.(runs := s.runs[r := run])
  }

  function DropRun(s: Sys, r: nat): Sys
    requires r < |s.runs|
  {
    s.(runs := s.runs[..r] + s.runs[r + 1..])
  }

  function TakeMessage(s: Sys): Sys {
    if s.queue == [] then s
    else s.(queue := s.queue[1..], runs := s.runs + [WorkerRun(s.queue[0].taskId, s.queue[0].kind, Starting)])
  }

  /** The worker enters the run: a retry from an index clears the control flags. */
  function BeginRun(s: Sys, r: nat): Sys
    requires r < |s.runs|
  {
    var run := s.runs[r];
    match run.kind
    case ExecuteTask(from) =>
      var cleared := if from.Some? then ClearFlags(s, run.taskId) else s;
      SetRun(if run.taskId in s.tasks then SetStatus(cleared, run.taskId, Planning) else cleared, r, run.(phase := Streaming))
    case ResumeApproval(_, _, _) =>
      if run.taskId in s.tasks then SetRun(SetStatus(s, run.taskId, Executing), r, run.(phase := Streaming))
      else DropRun(s, r)
  }

  /** A node event is written, then cancel and pause requests are honoured, in this order. */
  function HandleNode(s: Sys, r: nat, event: NodeEvent): Sys
    requires r < |s.runs|
  {
    var run := s.runs[r];
    var s' := if run.taskId in s.tasks
              then s.(tasks := s.tasks[run.taskId := HandleEvent(s.tasks[run.taskId], event)]) else s;
    if run.taskId in s.cancel then SetRun(s', r, run.(phase := Stopping(true)))
    else if run.taskId in s.pause then SetRun(s', r, run.(phase := Stopping(false)))
    else s'
  }

  function EndedTask(t: Task, ending: Ending): Task {
    match ending
    case Interrupt(request) => WithApproval(t, request).(status := AwaitingApproval)
    case Finish(result) =>
      Closed(t, if Truthy(result) then TaskStatus.Completed else TaskStatus.Failed, Some(result), None)
    case Crash(error) => Closed(t, TaskStatus.Failed, None, Some(error))
  }

  function EndStream(s: Sys, r: nat, ending: Ending): Sys
    requires r < |s.runs|
  {
    var id := s.runs[r].taskId;
    DropRun(if id in s.tasks then s.(tasks := s.tasks[id := EndedTask(s.tasks[id], ending)]) else s, r)
  }

  function CloseStopped(s: Sys, r: nat): Sys
    requires r < |s.runs| && s.runs[r].phase.Stopping?
  {
    var id := s.runs[r].taskId;
    DropRun(if id in s.tasks then SetStatus(s, id, if s.runs[r].phase.cancelled then Cancelled else Paused) else s, r)
  }

  predicate RunAt(s: Sys, r: nat, phase: Phase) {
    r < |s.runs| && s.runs[r].phase == phase
  }

  function Step(s: Sys, a: Action): Outcome {
    match a
    case Create(id, goal, context) =>
      if id in s.tasks then Outcome(s, Impossible)
      else Outcome(s.(tasks := s.tasks[id := NewTask(id, goal, context)]), Accepted)
    case RunTemplate(id, goal, context) => TemplateRun(s, id, goal, context)
    case Execute(id, ok) => Restart(s, id, ok)
    case Resume(id, ok) => Restart(s, id, ok)
    case Retry(id, ok, from) => RetryTask(s, id, ok, from)
    case Pause(id, ok) => PauseTask(s, id, ok)
    case Cancel(id, ok) => CancelTask(s, id, ok)
    case Decide(id, ok, approvalId, approve, note, args) => DecideApproval(s, id, ok, approvalId, approve, note, args)
    case Dequeue => Outcome(TakeMessage(s), Accepted)
    case Begin(r) => if RunAt(s, r, Starting) then Outcome(BeginRun(s, r), Accepted) else Outcome(s, Impossible)
    case NodeDone(r, event) =>
      if RunAt(s, r, Streaming) then Outcome(HandleNode(s, r, event), Accepted) else Outcome(s, Impossible)
    case StreamEnds(r, ending) =>
      if RunAt(s, r, Streaming) then Outcome(EndStream(s, r, ending), Accepted) else Outcome(s, Impossible)
    case Close(r) =>
      if r < |s.runs| && s.runs[r].phase.Stopping? then Outcome(CloseStopped(s, r), Accepted) else Outcome(s, Impossible)
    case LoseRun(r) => if RunAt(s, r, Starting) then Outcome(DropRun(s, r), Accepted) else Outcome(s, Impossible)
  }

  function Exec(s: Sys, actions: seq<Action>): Sys
    decreases |actions|
  {
    if actions == [] then s else Exec(Step(s, actions[0]).sys, actions[1..])
  }

  lemma ExecFirst(s: Sys, a: Action, rest: seq<Action>)
    ensures Exec(s, [a] + rest) == Exec(Step(s, a).sys, rest)
  {
    assert ([a] + rest)[1..] == rest;
  }

  lemma {:induction false} ExecAppend(s: Sys, a: seq<Action>, b: seq<Action>)
    ensures Exec(s, a + b) == Exec(Exec(s, a), b)
    decreases |a|
  {
    if a == [] {
      assert a + b == b;
    } else {
      assert (a + b)[1..] == a[1..] + b;
      ExecAppend(Step(s, a[0]).sys, a[1..], b);
    }
  }

  function InitSys(capacity: nat): Sys {
    Sys(map[], [], capacity, {}, {}, [])
  }
}
