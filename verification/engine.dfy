/** The services as the program has them: objects whose fields the handlers and workers change.
    Every method is one step of the state machine in module Lifecycle, and keeps or breaks the
    single-flight invariant as that module's theorems say. */
module Engines {
  import opened Common
  import opened TaskModel
  import opened TaskControl
  import opened TaskServices
  import opened Lifecycle
  import opened SingleFlight
  import Workflow

  /** A bounded FIFO queue; capacity 0 means unbounded. */
  class InMemoryTaskQueue {
    const capacity: nat
    var items: seq<Message>

    constructor (capacity: nat)
      ensures this.capacity == capacity && items == []
    {
      this.capacity := capacity;
      items := [];
    }

    method Enqueue(m: Message) returns (accepted: bool)
      modifies this
      ensures accepted <==> capacity == 0 || |old(items)| < capacity
      ensures items == if accepted then old(items) + [m] else old(items)
    {
      accepted := capacity == 0 || |items| < capacity;
      if accepted {
        items := items + [m];
      }
    }

    method Dequeue() returns (m: Option<Message>)
      modifies this
      ensures m == if old(items) == [] then None else Some(old(items)[0])
      ensures items == if old(items) == [] then [] else old(items)[1..]
    {
      if items == [] {
        m := None;
      } else {
        m := Some(items[0]);
        items := items[1..];
      }
    }
  }

  class Engine {
    const control: TaskControlService
    const queue: InMemoryTaskQueue
    const service: TaskService
    var runs: seq<WorkerRun>

    ghost function View(): Sys
      reads this, control, queue, service
    {
      Sys(service.tasks, queue.items, queue.capacity, control.pause, control.cancel, runs)
    }

    constructor (capacity: nat)
      ensures View() == InitSys(capacity)
      ensures fresh(control) && fresh(queue) && fresh(service)
    {
      control := new TaskControlService();
      queue := new InMemoryTaskQueue(capacity);
      service := new TaskService();
      runs := [];
    }

    // ---- API handlers ----

    method CreateTask(id: string, goal: string, context: Option<string>)
      requires id !in View().tasks
      modifies service
      ensures Outcome(View(), Accepted) == Step(old(View()), Create(id, goal, context))
      ensures Inv(old(View())) ==> Inv(View())
    {
      StepKept(View(), Create(id, goal, context));
      service.CreateTask(id, goal, context);
    }

    /** A template run with auto-execute: the status is not moved. */
    method RunTemplateTask(id: string, goal: string, context: Option<string>) returns (answer: Answer)
      requires id !in View().tasks
      modifies queue, service
      ensures Outcome(View(), answer) == Step(old(View()), RunTemplate(id, goal, context))
      ensures Inv(old(View())) ==> (Inv(View()) <==> answer.QueueFull?)
    {
      StepKeptIff(View(), RunTemplate(id, goal, context));
      service.CreateTask(id, goal, context);
      var accepted := queue.Enqueue(Message(id, MessageKind.ExecuteTask(None)));
      return if accepted then Accepted else QueueFull;
    }

    /** The common end of execute, resume, retry and decide: enqueue, then move the status. */
    method EnqueueAndMove(id: string, kind: MessageKind, status: TaskStatus) returns (answer: Answer)
      requires id in service.tasks
      modifies queue, service
      ensures Outcome(View(), answer) == Submit(old(View()), id, kind, status)
    {
      var accepted := queue.Enqueue(Message(id, kind));
      if !accepted {
        return QueueFull;
      }
      service.UpdateTaskStatus(id, status);
      return Accepted;
    }

    method ExecuteTask(id: string, ok: bool) returns (answer: Answer)
      modifies control, queue, service
      ensures Outcome(View(), answer) == Step(old(View()), Execute(id, ok))
      ensures Inv(old(View())) ==> Inv(View())
    {
      StepKept(View(), Execute(id, ok));
      if id !in service.tasks {
        return NotFound;
      }
      if !ok {
        return Forbidden;
      }
      if service.tasks[id].status !in RESTARTABLE {
        return BadState;
      }
      control.Clear(id);
      answer := EnqueueAndMove(id, MessageKind.ExecuteTask(None), Planning);
    }

    method ResumeTask(id: string, ok: bool) returns (answer: Answer)
      modifies control, queue, service
      ensures Outcome(View(), answer) == Step(old(View()), Resume(id, ok))
      ensures Inv(old(View())) ==> Inv(View())
    {
      StepKept(View(), Resume(id, ok));
      if id !in service.tasks {
        return NotFound;
      }
      if !ok {
        return Forbidden;
      }
      if service.tasks[id].status !in {Paused, Cancelled, TaskStatus.Failed, TaskStatus.Completed, Pending} {
        return BadState;
      }
      control.Clear(id);
      answer := EnqueueAndMove(id, MessageKind.ExecuteTask(None), Planning);
    }

    method RetryTask(id: string, ok: bool, from: Option<nat>) returns (answer: Answer)
      modifies control, queue, service
      ensures Outcome(View(), answer) == Step(old(View()), Retry(id, ok, from))
      ensures Inv(old(View())) ==> Inv(View())
    {
      StepKept(View(), Retry(id, ok, from));
      if id !in service.tasks {
        return NotFound;
      }
      if !ok {
        return Forbidden;
      }
      if service.tasks[id].status !in RESTARTABLE {
        return BadState;
      }
      if from.Some? && from.value >= |service.tasks[id].subtasks| {
        return BadState;
      }
      service.ResetTaskForRetry(id, from);
      control.Clear(id);
      answer := EnqueueAndMove(id, MessageKind.ExecuteTask(from), Planning);
    }

    method PauseTask(id: string, ok: bool) returns (answer: Answer)
      modifies control
      ensures Outcome(View(), answer) == Step(old(View()), Pause(id, ok))
      ensures Inv(old(View())) ==> Inv(View())
    {
      StepKept(View(), Pause(id, ok));
      if id !in service.tasks {
        return NotFound;
      }
      if !ok {
        return Forbidden;
      }
      if service.tasks[id].status !in {Planning, Executing, Reflecting, Replanning, AwaitingApproval} {
        return BadState;
      }
      control.RequestPause(id);
      return Accepted;
    }

    method CancelTask(id: string, ok: bool) returns (answer: Answer)
      modifies control, service
      ensures Outcome(View(), answer) == Step(old(View()), Cancel(id, ok))
      ensures Inv(old(View())) ==> Inv(View())
    {
      StepKept(View(), Cancel(id, ok));
      if id !in service.tasks {
        return NotFound;
      }
      if !ok {
        return Forbidden;
      }
      var t := service.tasks[id];
      if t.status in TERMINAL {
        return BadState;
      }
      control.RequestCancel(id);
      if t.status.AwaitingApproval? && t.pendingApproval.Some? {
        var resolved := service.ResolveApproval(id, t.pendingApproval.value.id, Rejected, Some(CANCEL_NOTE), None);
      }
      return Accepted;
    }

    /** Whether the task has an undecided request of that id. */
    method FindPending(id: string, approvalId: string) returns (found: bool)
      requires id in service.tasks
      ensures found <==> HasUndecided(service.tasks[id], approvalId)
    {
      var pending := service.GetPendingApprovals(id);
      found := false;
      for i := 0 to |pending|
        invariant found <==> exists j | 0 <= j < i :: pending[j].id == approvalId
      {
        if pending[i].id == approvalId {
          found := true;
        }
      }
      UndecidedOfIsExact(service.tasks[id].approvalHistory);
      FoundIffUndecided(service.tasks[id], pending, approvalId);
    }

    method DecideApproval(id: string, ok: bool, approvalId: string, approve: bool,
                          note: Option<string>, args: Option<string>) returns (answer: Answer)
      modifies queue, service
      ensures Outcome(View(), answer) == Step(old(View()), Decide(id, ok, approvalId, approve, note, args))
      ensures Inv(old(View())) ==> Inv(View())
    {
      StepKept(View(), Decide(id, ok, approvalId, approve, note, args));
      if id !in service.tasks {
        return NotFound;
      }
      if !ok {
        return Forbidden;
      }
      var found := FindPending(id, approvalId);
      if !found {
        return ApprovalNotFound;
      }
      if approve && !service.tasks[id].status.AwaitingApproval? {
        return BadState;
      }
      var resolved := service.ResolveApproval(id, approvalId, if approve then Approved else Rejected, note,
                                              if approve then args else None);
      if !resolved {
        return AlreadyDecided;
      }
      answer := EnqueueAndMove(id, MessageKind.ResumeApproval(approve, note, if approve && Truthy(args) then args else None),
                               Executing);
    }

    // ---- worker ----

    method ProcessOne() returns (taken: bool)
      modifies this`runs, queue
      ensures taken <==> old(queue.items) != []
      ensures Outcome(View(), Accepted) == Step(old(View()), Action.Dequeue)
      ensures Inv(old(View())) ==> Inv(View())
    {
      StepKept(View(), Action.Dequeue);
      var m := queue.Dequeue();
      if m.None? {
        return false;
      }
      runs := runs + [WorkerRun(m.value.taskId, m.value.kind, Starting)];
      return true;
    }

    method BeginRun(r: nat)
      requires r < |runs| && runs[r].phase.Starting?
      modifies this`runs, control, service
      ensures Outcome(View(), Accepted) == Step(old(View()), Begin(r))
      ensures Inv(old(View())) ==> Inv(View())
    {
      StepKept(View(), Begin(r));
      var run := runs[r];
      match run.kind
      case ExecuteTask(from) =>
        if from.Some? {
          control.Clear(run.taskId);
        }
        service.UpdateTaskStatus(run.taskId, Planning);
        runs := runs[r := run.(phase := Streaming)];
      case ResumeApproval(_, _, _) =>
        if run.taskId !in service.tasks {
          runs := runs[..r] + runs[r + 1..];
        } else {
          service.UpdateTaskStatus(run.taskId, Executing);
          runs := runs[r := run.(phase := Streaming)];
        }
    }

    /** One turn of the event loop: write the event, then look at the control flags. */
    method OnNodeEvent(r: nat, event: Workflow.NodeEvent)
      requires r < |runs| && runs[r].phase.Streaming?
      modifies this`runs, service
      ensures Outcome(View(), Accepted) == Step(old(View()), NodeDone(r, event))
      ensures Inv(old(View())) ==> Inv(View())
    {
      StepKept(View(), NodeDone(r, event));
      var run := runs[r];
      service.HandleNodeEvent(run.taskId, event);
      if run.taskId in control.cancel {
        runs := runs[r := run.(phase := Stopping(true))];
      } else if run.taskId in control.pause {
        runs := runs[r := run.(phase := Stopping(false))];
      }
    }

    /** The stream ends by itself: an approval interrupt, the end of the graph, or an exception. */
    method OnStreamEnd(r: nat, ending: Ending)
      requires r < |runs| && runs[r].phase.Streaming?
      modifies this`runs, service
      ensures Outcome(View(), Accepted) == Step(old(View()), StreamEnds(r, ending))
      ensures Inv(old(View())) ==> (Inv(View()) <==> Allowed(old(View()), StreamEnds(r, ending)))
    {
      StepKeptIff(View(), StreamEnds(r, ending));
      service.CloseByEnding(runs[r].taskId, ending);
      runs := runs[..r] + runs[r + 1..];
    }

    method CloseStopped(r: nat)
      requires r < |runs| && runs[r].phase.Stopping?
      modifies this`runs, service
      ensures Outcome(View(), Accepted) == Step(old(View()), Close(r))
      ensures Inv(old(View())) ==> Inv(View())
    {
      StepKept(View(), Close(r));
      service.UpdateTaskStatus(runs[r].taskId, if runs[r].phase.cancelled then Cancelled else Paused);
      runs := runs[..r] + runs[r + 1..];
    }

    /** A worker fails before the guarded part of its run: nobody notices. */
    method LoseRun(r: nat)
      requires r < |runs| && runs[r].phase.Starting?
      modifies this`runs
      ensures Outcome(View(), Accepted) == Step(old(View()), Action.LoseRun(r))
      ensures Inv(old(View())) ==> !Inv(View())
    {
      StepKeptIff(View(), Action.LoseRun(r));
      runs := runs[..r] + runs[r + 1..];
    }

    // ---- any run of the program ----

    /** A request as it arrives. */
    method PerformRequest(a: Action) returns (answer: Answer)
      requires IsRequest(a)
      modifies control, queue, service
      ensures Outcome(View(), answer) == Step(old(View()), a)
    {
      match a {
        case Create(id, goal, context) =>
          if id in service.tasks {
            return Impossible;
          }
          CreateTask(id, goal, context);
          return Accepted;
        case RunTemplate(id, goal, context) =>
          if id in service.tasks {
            return Impossible;
          }
          answer := RunTemplateTask(id, goal, context);
        case Execute(id, ok) => answer := ExecuteTask(id, ok);
        case Resume(id, ok) => answer := ResumeTask(id, ok);
        case Retry(id, ok, from) => answer := RetryTask(id, ok, from);
        case Pause(id, ok) => answer := PauseTask(id, ok);
        case Cancel(id, ok) => answer := CancelTask(id, ok);
        case Decide(id, ok, approvalId, approve, note, args) =>
          answer := DecideApproval(id, ok, approvalId, approve, note, args);
      }
    }

    /** A move of a worker, when it is possible. */
    method PerformMove(a: Action) returns (answer: Answer)
      requires !IsRequest(a)
      modifies this`runs, control, queue, service
      ensures Outcome(View(), answer) == Step(old(View()), a)
    {
      match a {
        case Dequeue =>
          var taken := ProcessOne();
          return Accepted;
        case Begin(r) =>
          if r < |runs| && runs[r].phase.Starting? {
            BeginRun(r);
            return Accepted;
          }
        case NodeDone(r, event) =>
          if r < |runs| && runs[r].phase.Streaming? {
            OnNodeEvent(r, event);
            return Accepted;
          }
        case StreamEnds(r, ending) =>
          if r < |runs| && runs[r].phase.Streaming? {
            OnStreamEnd(r, ending);
            return Accepted;
          }
        case Close(r) =>
          if r < |runs| && runs[r].phase.Stopping? {
            CloseStopped(r);
            return Accepted;
          }
        case LoseRun(r) =>
          if r < |runs| && runs[r].phase.Starting? {
            LoseRun(r);
            return Accepted;
          }
      }
      return Impossible;
    }

    /** Any interleaving of requests and worker moves: the objects end as the machine does, and keep
        the invariant throughout when every step does. */
    method PerformAll(actions: seq<Action>)
      modifies this`runs, control, queue, service
      ensures View() == Exec(old(View()), actions)
      ensures Inv(old(View())) && AllAllowed(old(View()), actions) ==> Inv(View())
    {
      ghost var start := View();
      for n := 0 to |actions|
        invariant Exec(View(), actions[n..]) == Exec(start, actions)
      {
        assert actions[n..][1..] == actions[n + 1..];
        var answer;
        if IsRequest(actions[n]) {
          answer := PerformRequest(actions[n]);
        } else {
          answer := PerformMove(actions[n]);
        }
      }
      assert actions[|actions|..] == [];
      ExecKept(start, actions);
    }
  }

  lemma StepKept(s: Sys, a: Action)
    ensures Inv(s) && Allowed(s, a) ==> Inv(Step(s, a).sys)
  {
    if Inv(s) && Allowed(s, a) {
      StepKeepsInv(s, a);
    }
  }

  lemma StepKeptIff(s: Sys, a: Action)
    ensures Inv(s) ==> (Inv(Step(s, a).sys) <==> Allowed(s, a))
  {
    if Inv(s) {
      StepKeepsInvIff(s, a);
    }
  }

  lemma ExecKept(s: Sys, actions: seq<Action>)
    ensures Inv(s) && AllAllowed(s, actions) ==> Inv(Exec(s, actions))
  {
    if Inv(s) && AllAllowed(s, actions) {
      ExecKeepsInv(s, actions);
    }
  }

  lemma FoundIffUndecided(t: Task, pending: seq<ApprovalRequest>, approvalId: string)
    requires forall a :: a in pending <==> a in t.approvalHistory && a.status.Undecided?
    ensures (exists j | 0 <= j < |pending| :: pending[j].id == approvalId) <==> HasUndecided(t, approvalId)
  {
    forall j | 0 <= j < |pending| && pending[j].id == approvalId ensures HasUndecided(t, approvalId) {
      assert pending[j] in pending;
    }
    if HasUndecided(t, approvalId) {
      var a :| a in t.approvalHistory && a.status.Undecided? && a.id == approvalId;
      assert a in pending;
    }
  }

  lemma {:induction false} UndecidedOfIsExact(history: seq<ApprovalRequest>)
    ensures forall a :: a in UndecidedOf(history) <==> a in history && a.status.Undecided?
  {
    if history != [] {
      UndecidedOfIsExact(history[..|history| - 1]);
      assert history == history[..|history| - 1] + [history[|history| - 1]];
    }
  }
}
