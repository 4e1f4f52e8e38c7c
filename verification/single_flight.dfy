/** A task has one message or run outstanding exactly while its status says it is active. */
module SingleFlight {
  import opened Common
  import opened TaskModel
  import opened Lifecycle
  import Workflow

  function ForTask(id: string): Message -> bool {
    (m: Message) => m.taskId == id
  }

  function RunsTask(id: string): WorkerRun -> bool {
    (w: WorkerRun) => w.taskId == id
  }

  /** Messages in the queue plus worker runs in progress for a task. */
  function Outstanding(s: Sys, id: string): nat {
    Count(s.queue, ForTask(id)) + Count(s.runs, RunsTask(id))
  }

  ghost predicate DistinctApprovals(history: seq<ApprovalRequest>) {
    forall i, j | 0 <= i < j < |history| :: history[i].id != history[j].id
  }

  /** An undecided entry is the pending request, and the task is waiting for it. */
  ghost predicate ApprovalsOk(t: Task) {
    && DistinctApprovals(t.approvalHistory)
    && (forall a | a in t.approvalHistory && a.status.Undecided? :: t.status.AwaitingApproval? && t.pendingApproval == Some(a))
    && (t.pendingApproval.Some? ==> t.pendingApproval.value in t.approvalHistory && t.pendingApproval.value.status.Undecided?)
  }

  ghost predicate TaskInv(s: Sys, id: string) {
    if id in s.tasks then
      && Outstanding(s, id) == (if s.tasks[id].status in ACTIVE then 1 else 0)
      && ApprovalsOk(s.tasks[id])
    else Outstanding(s, id) == 0
  }

  ghost predicate Inv(s: Sys) {
    forall id :: TaskInv(s, id)
  }

  /** Exactly the steps that keep the invariant (StepKeepsInvIff): no template auto-run that reaches
      the queue, no run lost before its guarded part, and approval requests that are undecided and
      carry an identifier the task has not used before. */
  ghost predicate Allowed(s: Sys, a: Action) {
    && (a.RunTemplate? ==> a.id in s.tasks || !QueueHasRoom(s))
    && (a.LoseRun? ==> !RunAt(s, a.r, Starting))
    && (a.StreamEnds? && RunAt(s, a.r, Streaming) && a.ending.Interrupt? && s.runs[a.r].taskId in s.tasks ==>
          NewRequest(s.tasks[s.runs[a.r].taskId], a.ending.request))
  }

  ghost predicate NewRequest(t: Task, request: ApprovalRequest) {
    request.status.Undecided? && forall e | e in t.approvalHistory :: e.id != request.id
  }

  ghost predicate AllAllowed(s: Sys, actions: seq<Action>)
    decreases |actions|
  {
    actions == [] || (Allowed(s, actions[0]) && AllAllowed(Step(s, actions[0]).sys, actions[1..]))
  }

  // ---- how steps move the counts ----

  lemma CountOne<T>(x: T, p: T -> bool)
    ensures Count([x], p) == if p(x) then 1 else 0
  {
    assert [x][1..] == [];
  }

  lemma Enqueued(s: Sys, m: Message, id: string)
    ensures Outstanding(s.(queue := s.queue + [m]), id) == Outstanding(s, id) + (if m.taskId == id then 1 else 0)
  {
    CountAppend(s.queue, [m], ForTask(id));
    CountOne(m, ForTask(id));
  }

  lemma Taken(s: Sys, id: string)
    ensures Outstanding(TakeMessage(s), id) == Outstanding(s, id)
  {
    if s.queue != [] {
      var run := WorkerRun(s.queue[0].taskId, s.queue[0].kind, Starting);
      CountAppend(s.runs, [run], RunsTask(id));
      CountOne(run, RunsTask(id));
    }
  }

  lemma RunReplaced(s: Sys, r: nat, run: WorkerRun, id: string)
    requires r < |s.runs| && run.taskId == s.runs[r].taskId
    ensures Outstanding(SetRun(s, r, run), id) == Outstanding(s, id)
  {
    CountAt(s.runs, r, run, RunsTask(id));
  }

  lemma RunDropped(s: Sys, r: nat, id: string)
    requires r < |s.runs|
    ensures Outstanding(DropRun(s, r), id) == Outstanding(s, id) - (if s.runs[r].taskId == id then 1 else 0)
  {
    CountAt(s.runs, r, s.runs[r], RunsTask(id));
  }

  /** The task of a run in progress is active. */
  lemma RunIsActive(s: Sys, r: nat)
    requires Inv(s) && r < |s.runs|
    ensures s.runs[r].taskId in s.tasks && s.tasks[s.runs[r].taskId].status in ACTIVE
    ensures Outstanding(s, s.runs[r].taskId) == 1
  {
    RunDropped(s, r, s.runs[r].taskId);
    assert TaskInv(s, s.runs[r].taskId);
  }

  // ---- deciding an approval ----

  lemma {:induction false} ReplacedAt(history: seq<ApprovalRequest>, k: nat, request: ApprovalRequest)
    requires k < |history| && history[k].id == request.id && DistinctApprovals(history)
    ensures ReplaceFirst(history, request) == history[k := request]
  {
    if k > 0 {
      ReplacedAt(history[1..], k - 1, request);
    }
  }

  /** A decision turns the one undecided entry into a decided one and changes no other. */
  lemma ResolveDecidesOne(t: Task, approvalId: string, status: ApprovalStatus, note: Option<string>, args: Option<string>)
    requires ApprovalsOk(t) && !status.Undecided?
    requires Resolve(t, approvalId, status, note, args).Some?
    ensures var t' := Resolve(t, approvalId, status, note, args).value;
            && t.status.AwaitingApproval? && t'.status == t.status && t'.pendingApproval.None?
            && (forall a | a in t'.approvalHistory :: !a.status.Undecided?)
            && DistinctApprovals(t'.approvalHistory)
            && exists k | 0 <= k < |t.approvalHistory| ::
                 && t.approvalHistory[k].id == approvalId && t.approvalHistory[k].status.Undecided?
                 && t'.approvalHistory == t.approvalHistory[k := t.approvalHistory[k].(status := status, note := note, modifiedArgs := args)]
  {
    var request := t.pendingApproval.value;
    var k :| 0 <= k < |t.approvalHistory| && t.approvalHistory[k] == request;
    ReplacedAt(t.approvalHistory, k, request.(status := status, note := note, modifiedArgs := args));
    var t' := Resolve(t, approvalId, status, note, args).value;
    forall i | 0 <= i < |t'.approvalHistory| ensures !t'.approvalHistory[i].status.Undecided? {
      if i != k {
        assert t.approvalHistory[i] in t.approvalHistory;
      }
    }
  }

  // ---- every step keeps the invariant ----

  lemma SubmitKeepsInv(s: Sys, id: string, kind: MessageKind, status: TaskStatus)
    requires Inv(s) && id in s.tasks && status in ACTIVE
    requires s.tasks[id].status !in ACTIVE
    requires QueueHasRoom(s) ==> forall a | a in s.tasks[id].approvalHistory :: !a.status.Undecided?
    ensures Inv(Submit(s, id, kind, status).sys)
  {
    forall other ensures TaskInv(Submit(s, id, kind, status).sys, other) {
      assert TaskInv(s, other) && TaskInv(s, id);
      Enqueued(s, Message(id, kind), other);
    }
  }

  /** Changing flags, or the data of one task but neither its status nor its approvals. */
  lemma HarmlessChange(s: Sys, s': Sys)
    requires Inv(s) && s'.queue == s.queue && s'.runs == s.runs
    requires s'.tasks.Keys == s.tasks.Keys
    requires forall id | id in s.tasks ::
               (s'.tasks[id].status in ACTIVE <==> s.tasks[id].status in ACTIVE) && ApprovalsOk(s'.tasks[id])
    ensures Inv(s')
  {
    forall id ensures TaskInv(s', id) {
      assert TaskInv(s, id);
    }
  }

  lemma RestartKeepsInv(s: Sys, id: string, ok: bool)
    requires Inv(s)
    ensures Inv(Restart(s, id, ok).sys)
  {
    if id in s.tasks && s.tasks[id].status in RESTARTABLE {
      assert forall other | other in s.tasks :: TaskInv(s, other);
      HarmlessChange(s, ClearFlags(s, id));
      SubmitKeepsInv(ClearFlags(s, id), id, ExecuteTask(None), Planning);
    }
  }

  lemma RetryKeepsInv(s: Sys, id: string, ok: bool, from: Option<nat>)
    requires Inv(s)
    ensures Inv(RetryTask(s, id, ok, from).sys)
  {
    if id in s.tasks && s.tasks[id].status in RESTARTABLE {
      assert forall other | other in s.tasks :: TaskInv(s, other);
      var reset := ClearFlags(s.(tasks := s.tasks[id := ResetForRetry(s.tasks[id], from)]), id);
      HarmlessChange(s, reset);
      SubmitKeepsInv(reset, id, ExecuteTask(from), Planning);
    }
  }

  lemma CancelKeepsInv(s: Sys, id: string, ok: bool)
    requires Inv(s)
    ensures Inv(CancelTask(s, id, ok).sys)
  {
    if id in s.tasks {
      assert forall other | other in s.tasks :: TaskInv(s, other);
      var t := s.tasks[id];
      if t.pendingApproval.Some? {
        ResolveDecidesOne(t, t.pendingApproval.value.id, Rejected, Some(CANCEL_NOTE), None);
      }
      HarmlessChange(s, CancelTask(s, id, ok).sys);
    }
  }

  lemma PauseKeepsInv(s: Sys, id: string, ok: bool)
    requires Inv(s)
    ensures Inv(PauseTask(s, id, ok).sys)
  {
    assert forall other | other in s.tasks :: TaskInv(s, other);
    HarmlessChange(s, PauseTask(s, id, ok).sys);
  }

  lemma ResolvedKeepsInv(s: Sys, id: string, approvalId: string, status: ApprovalStatus, note: Option<string>, args: Option<string>)
    requires Inv(s) && id in s.tasks && !status.Undecided?
    requires Resolve(s.tasks[id], approvalId, status, note, args).Some?
    ensures var t := Resolve(s.tasks[id], approvalId, status, note, args).value;
            && Inv(s.(tasks := s.tasks[id := t])) && t.status.AwaitingApproval?
            && forall a | a in t.approvalHistory :: !a.status.Undecided?
  {
    assert forall other | other in s.tasks :: TaskInv(s, other);
    ResolveDecidesOne(s.tasks[id], approvalId, status, note, args);
    HarmlessChange(s, s.(tasks := s.tasks[id := Resolve(s.tasks[id], approvalId, status, note, args).value]));
  }

  lemma DecideKeepsInv(s: Sys, id: string, ok: bool, approvalId: string, approve: bool, note: Option<string>, args: Option<string>)
    requires Inv(s)
    ensures Inv(DecideApproval(s, id, ok, approvalId, approve, note, args).sys)
  {
    if id in s.tasks {
      var status := if approve then Approved else Rejected;
      var resolved := Resolve(s.tasks[id], approvalId, status, note, if approve then args else None);
      if resolved.Some? {
        ResolvedKeepsInv(s, id, approvalId, status, note, if approve then args else None);
        SubmitKeepsInv(s.(tasks := s.tasks[id := resolved.value]), id, ResumeApproval(approve, note, if approve && Truthy(args) then args else None), Executing);
      }
    }
  }

  /** Writing a node event keeps an active task active and leaves its approvals alone. */
  lemma EventKeepsActive(t: Task, e: Workflow.NodeEvent)
    requires t.status in ACTIVE
    ensures var t' := HandleEvent(t, e);
            t'.status in ACTIVE && t'.pendingApproval == t.pendingApproval && t'.approvalHistory == t.approvalHistory
  {
  }

  /** A run changes phase, and its task possibly its data. */
  lemma RunMoved(s: Sys, s': Sys, r: nat, run: WorkerRun)
    requires Inv(s) && r < |s.runs| && run.taskId == s.runs[r].taskId
    requires s'.queue == s.queue && s'.runs == s.runs[r := run]
    requires run.taskId in s.tasks && (s'.tasks == s.tasks
             || exists t :: s'.tasks == s.tasks[run.taskId := t] && t.status in ACTIVE
                            && t.pendingApproval == s.tasks[run.taskId].pendingApproval
                            && t.approvalHistory == s.tasks[run.taskId].approvalHistory)
    ensures Inv(s')
  {
    RunIsActive(s, r);
    forall other ensures TaskInv(s', other) {
      assert TaskInv(s, other);
      RunReplaced(s, r, run, other);
      assert Outstanding(s', other) == Outstanding(SetRun(s, r, run), other);
    }
  }

  lemma WorkerKeepsInv(s: Sys, a: Action)
    requires Inv(s) && (a.Begin? || a.NodeDone?)
    ensures Inv(Step(s, a).sys)
  {
    if a.r < |s.runs| && Step(s, a).answer.Accepted? {
      RunIsActive(s, a.r);
      var s' := Step(s, a).sys;
      var id := s.runs[a.r].taskId;
      if a.NodeDone? {
        EventKeepsActive(s.tasks[id], a.event);
      }
      assert s.runs == s.runs[a.r := s.runs[a.r]];
      assert s'.tasks == s.tasks[id := s'.tasks[id]];
      RunMoved(s, s', a.r, s'.runs[a.r]);
    }
  }

  /** A run ends and its task leaves the active statuses. */
  lemma RunEnded(s: Sys, r: nat, t: Task)
    requires Inv(s) && r < |s.runs| && t.status !in ACTIVE && ApprovalsOk(t)
    ensures Inv(DropRun(s.(tasks := s.tasks[s.runs[r].taskId := t]), r))
  {
    RunIsActive(s, r);
    var s' := DropRun(s.(tasks := s.tasks[s.runs[r].taskId := t]), r);
    forall other ensures TaskInv(s', other) {
      assert TaskInv(s, other);
      RunDropped(s, r, other);
      assert Outstanding(s', other) == Outstanding(DropRun(s, r), other);
    }
  }

  lemma EndKeepsInv(s: Sys, a: Action)
    requires Inv(s) && (a.StreamEnds? || a.Close?) && Allowed(s, a)
    ensures Inv(Step(s, a).sys)
  {
    if a.r < |s.runs| && Step(s, a).answer.Accepted? {
      RunIsActive(s, a.r);
      var t := s.tasks[s.runs[a.r].taskId];
      assert TaskInv(s, s.runs[a.r].taskId);
      if a.StreamEnds? {
        EndingKeepsApprovals(t, a.ending);
        RunEnded(s, a.r, EndedTask(t, a.ending));
      } else {
        RunEnded(s, a.r, t.(status := if s.runs[a.r].phase.cancelled then Cancelled else Paused));
      }
    }
  }

  lemma EndingKeepsApprovals(t: Task, ending: Ending)
    requires ApprovalsOk(t) && t.status in ACTIVE
    requires ending.Interrupt? ==> NewRequest(t, ending.request)
    ensures ApprovalsOk(EndedTask(t, ending)) && EndedTask(t, ending).status !in ACTIVE
  {
  }

  lemma CreateKeepsInv(s: Sys, id: string, goal: string, context: Option<string>)
    requires Inv(s) && id !in s.tasks
    ensures Inv(s.(tasks := s.tasks[id := NewTask(id, goal, context)]))
  {
    var s' := s.(tasks := s.tasks[id := NewTask(id, goal, context)]);
    forall other ensures TaskInv(s', other) {
      assert TaskInv(s, other);
    }
  }

  lemma StepKeepsInv(s: Sys, a: Action)
    requires Inv(s) && Allowed(s, a)
    ensures Inv(Step(s, a).sys)
  {
    match a
    case Create(id, goal, context) =>
      if id !in s.tasks {
        CreateKeepsInv(s, id, goal, context);
      }
    case RunTemplate(id, goal, context) =>
      if id !in s.tasks {
        CreateKeepsInv(s, id, goal, context);
      }
    case Dequeue =>
      forall id ensures TaskInv(Step(s, a).sys, id) { assert TaskInv(s, id); Taken(s, id); }
    case Decide(id, ok, approvalId, approve, note, args) => DecideKeepsInv(s, id, ok, approvalId, approve, note, args);
    case Begin(_) => WorkerKeepsInv(s, a);
    case NodeDone(_, _) => WorkerKeepsInv(s, a);
    case StreamEnds(_, _) => EndKeepsInv(s, a);
    case Close(_) => EndKeepsInv(s, a);
    case Execute(id, ok) => RestartKeepsInv(s, id, ok);
    case Resume(id, ok) => RestartKeepsInv(s, id, ok);
    case Retry(id, ok, from) => RetryKeepsInv(s, id, ok, from);
    case Pause(id, ok) => PauseKeepsInv(s, id, ok);
    case Cancel(id, ok) => CancelKeepsInv(s, id, ok);
    case LoseRun(_) =>
  }

  // ---- and no other step does ----

  lemma TemplateRunBreaksInv(s: Sys, id: string, goal: string, context: Option<string>)
    requires Inv(s) && id !in s.tasks && QueueHasRoom(s)
    ensures !Inv(Step(s, RunTemplate(id, goal, context)).sys)
  {
    assert TaskInv(s, id);
    var created := s.(tasks := s.tasks[id := NewTask(id, goal, context)]);
    Enqueued(created, Message(id, ExecuteTask(None)), id);
    assert !TaskInv(Step(s, RunTemplate(id, goal, context)).sys, id);
  }

  lemma LostRunBreaksInv(s: Sys, r: nat)
    requires Inv(s) && RunAt(s, r, Starting)
    ensures !Inv(Step(s, LoseRun(r)).sys)
  {
    RunIsActive(s, r);
    RunDropped(s, r, s.runs[r].taskId);
    assert !TaskInv(Step(s, LoseRun(r)).sys, s.runs[r].taskId);
  }

  lemma BadRequestBreaksApprovals(t: Task, request: ApprovalRequest)
    requires !NewRequest(t, request)
    ensures !ApprovalsOk(WithApproval(t, request).(status := AwaitingApproval))
  {
    if request.status.Undecided? {
      var i :| 0 <= i < |t.approvalHistory| && t.approvalHistory[i].id == request.id;
      var history := t.approvalHistory + [request];
      assert history[i].id == history[|t.approvalHistory|].id;
    }
  }

  lemma BadRequestBreaksInv(s: Sys, r: nat, request: ApprovalRequest)
    requires Inv(s) && RunAt(s, r, Streaming)
    requires s.runs[r].taskId in s.tasks && !NewRequest(s.tasks[s.runs[r].taskId], request)
    ensures !Inv(Step(s, StreamEnds(r, Interrupt(request))).sys)
  {
    var id := s.runs[r].taskId;
    BadRequestBreaksApprovals(s.tasks[id], request);
    assert !TaskInv(Step(s, StreamEnds(r, Interrupt(request))).sys, id);
  }

  /** The exact condition for a step to keep the invariant. */
  lemma StepKeepsInvIff(s: Sys, a: Action)
    requires Inv(s)
    ensures Inv(Step(s, a).sys) <==> Allowed(s, a)
  {
    if Allowed(s, a) {
      StepKeepsInv(s, a);
    } else if a.RunTemplate? {
      TemplateRunBreaksInv(s, a.id, a.goal, a.context);
    } else if a.LoseRun? {
      LostRunBreaksInv(s, a.r);
    } else {
      BadRequestBreaksInv(s, a.r, a.ending.request);
    }
  }

  /** The invariant holds now and after each of the actions. */
  ghost predicate InvThroughout(s: Sys, actions: seq<Action>)
    decreases |actions|
  {
    Inv(s) && (actions != [] ==> InvThroughout(Step(s, actions[0]).sys, actions[1..]))
  }

  /** ... and for a whole run to keep it throughout. */
  lemma {:induction false} RunKeepsInvIff(s: Sys, actions: seq<Action>)
    requires Inv(s)
    ensures InvThroughout(s, actions) <==> AllAllowed(s, actions)
    decreases |actions|
  {
    if actions != [] {
      StepKeepsInvIff(s, actions[0]);
      if Allowed(s, actions[0]) {
        RunKeepsInvIff(Step(s, actions[0]).sys, actions[1..]);
      }
    }
  }

  lemma {:induction false} ExecKeepsInv(s: Sys, actions: seq<Action>)
    requires Inv(s) && AllAllowed(s, actions)
    ensures Inv(Exec(s, actions))
    decreases |actions|
  {
    if actions != [] {
      StepKeepsInv(s, actions[0]);
      ExecKeepsInv(Step(s, actions[0]).sys, actions[1..]);
    }
  }

  /** Single flight: in every interleaving of requests and worker moves, a task has exactly one
      message or run outstanding while it is planning, executing, reflecting or replanning, and
      none otherwise. */
  lemma SingleFlightHolds(capacity: nat, actions: seq<Action>, id: string)
    requires AllAllowed(InitSys(capacity), actions)
    ensures var s := Exec(InitSys(capacity), actions);
            id in s.tasks ==> Outstanding(s, id) == if s.tasks[id].status in ACTIVE then 1 else 0
  {
    ExecKeepsInv(InitSys(capacity), actions);
    assert TaskInv(Exec(InitSys(capacity), actions), id);
  }

  /** The pending request is the only undecided entry of the history, and only while waiting. */
  lemma PendingIsTheOnlyUndecided(capacity: nat, actions: seq<Action>, id: string)
    requires AllAllowed(InitSys(capacity), actions)
    ensures var s := Exec(InitSys(capacity), actions);
            id in s.tasks ==> forall a | a in s.tasks[id].approvalHistory ::
              a.status.Undecided? <==> s.tasks[id].pendingApproval == Some(a)
  {
    ExecKeepsInv(InitSys(capacity), actions);
    assert TaskInv(Exec(InitSys(capacity), actions), id);
  }
}
