/** When a task can never move again. */
module StuckTasks {
  import opened Common
  import opened TaskModel
  import opened Lifecycle
  import opened SingleFlight

  /** No message and no run of the task exists. */
  ghost predicate NoWork(s: Sys, id: string) {
    && (forall w | w in s.runs :: w.taskId != id)
    && (forall m | m in s.queue :: m.taskId != id)
  }

  lemma NoWorkIsNoneOutstanding(s: Sys, id: string)
    ensures NoWork(s, id) <==> Outstanding(s, id) == 0
  {
    CountZero(s.runs, RunsTask(id));
    CountZero(s.queue, ForTask(id));
    assert forall w | w in s.runs :: RunsTask(id)(w) <==> w.taskId == id;
    assert forall m | m in s.queue :: ForTask(id)(m) <==> m.taskId == id;
  }

  predicate UndecidedPending(t: Task) {
    t.pendingApproval.Some? && t.pendingApproval.value.status.Undecided?
  }

  /** The decision handler finds the pending request, and resumes the task with it. */
  predicate Decidable(t: Task) {
    UndecidedPending(t) && HasUndecided(t, t.pendingApproval.value.id)
  }

  /** A decision, or a cancellation of the waiting task, writes the record. */
  predicate CanBeDecided(t: Task) {
    Decidable(t) || (UndecidedPending(t) && t.status.AwaitingApproval?)
  }

  /** Nothing is outstanding for the task, no request can be decided, and no handler restarts it. */
  ghost predicate Frozen(s: Sys, id: string) {
    && id in s.tasks
    && s.tasks[id].status !in RESTARTABLE
    && !CanBeDecided(s.tasks[id])
    && NoWork(s, id)
  }

  lemma RequestKeepsFrozen(s: Sys, a: Action, id: string)
    requires Frozen(s, id)
    requires a.Create? || a.RunTemplate? || a.Execute? || a.Resume? || a.Retry? || a.Pause? || a.Cancel? || a.Decide?
    ensures var s' := Step(s, a).sys; id in s'.tasks && s'.tasks[id] == s.tasks[id] && NoWork(s', id)
  {
    assert forall m, q: seq<Message> | m in q + [Message(a.id, ExecuteTask(None))] :: m in q || m.taskId == a.id;
  }

  /** A worker that moves works for another task. */
  lemma WorkerKeepsTask(s: Sys, a: Action, id: string)
    requires Frozen(s, id)
    requires a.Begin? || a.NodeDone? || a.StreamEnds? || a.Close? || a.LoseRun?
    ensures var s' := Step(s, a).sys; id in s'.tasks && s'.tasks[id] == s.tasks[id]
  {
    if a.r < |s.runs| {
      assert s.runs[a.r] in s.runs;
    }
  }

  lemma WorkerKeepsNoWork(s: Sys, a: Action, id: string)
    requires NoWork(s, id)
    requires a.Begin? || a.NodeDone? || a.StreamEnds? || a.Close? || a.LoseRun?
    ensures NoWork(Step(s, a).sys, id)
  {
    if a.r < |s.runs| {
      assert s.runs[a.r] in s.runs;
    }
  }

  lemma DequeueKeepsFrozen(s: Sys, id: string)
    requires Frozen(s, id)
    ensures var s' := TakeMessage(s); id in s'.tasks && s'.tasks[id] == s.tasks[id] && NoWork(s', id)
  {
  }

  /** No step of any kind touches a frozen task. */
  lemma StepKeepsFrozen(s: Sys, a: Action, id: string)
    requires Frozen(s, id)
    ensures Frozen(Step(s, a).sys, id) && Step(s, a).sys.tasks[id] == s.tasks[id]
  {
    if a.Dequeue? {
      DequeueKeepsFrozen(s, id);
    } else if a.Begin? || a.NodeDone? || a.StreamEnds? || a.Close? || a.LoseRun? {
      WorkerKeepsTask(s, a, id);
      WorkerKeepsNoWork(s, a, id);
    } else {
      RequestKeepsFrozen(s, a, id);
    }
  }

  lemma {:induction false} FrozenForever(s: Sys, actions: seq<Action>, id: string)
    requires Frozen(s, id)
    ensures Frozen(Exec(s, actions), id) && Exec(s, actions).tasks[id] == s.tasks[id]
    decreases |actions|
  {
    if actions != [] {
      StepKeepsFrozen(s, actions[0], id);
      FrozenForever(Step(s, actions[0]).sys, actions[1..], id);
    }
  }

  // ---- and every other task can move ----

  /** Whatever is done from s on, the task record of id stays the same. */
  ghost predicate NeverMoves(s: Sys, id: string) {
    id in s.tasks && forall actions :: SameRecord(s, actions, id)
  }

  ghost predicate SameRecord(s: Sys, actions: seq<Action>, id: string)
    requires id in s.tasks
  {
    id in Exec(s, actions).tasks && Exec(s, actions).tasks[id] == s.tasks[id]
  }

  lemma FrozenNeverMoves(s: Sys, id: string)
    requires Frozen(s, id)
    ensures NeverMoves(s, id)
  {
    forall actions ensures SameRecord(s, actions, id) {
      FrozenForever(s, actions, id);
    }
  }

  /** The oldest message is taken; records, flags and earlier runs stay. */
  lemma TakenFirst(s: Sys)
    requires s.queue != []
    ensures var s' := Step(s, Dequeue).sys;
            && s'.tasks == s.tasks && s'.queue == s.queue[1..] && s'.capacity == s.capacity
            && s'.pause == s.pause && s'.cancel == s.cancel
            && |s'.runs| == |s.runs| + 1 && s'.runs[..|s.runs|] == s.runs
            && s'.runs[|s.runs|] == WorkerRun(s.queue[0].taskId, s.queue[0].kind, Starting)
  {
  }

  /** Workers can take messages until the queue has room. */
  lemma {:induction false} MakeRoom(s: Sys) returns (actions: seq<Action>, s': Sys)
    ensures forall a | a in actions :: a.Dequeue?
    ensures s' == Exec(s, actions) && QueueHasRoom(s')
    ensures s'.tasks == s.tasks && s'.pause == s.pause && s'.cancel == s.cancel
    decreases |s.queue|
  {
    if QueueHasRoom(s) {
      actions, s' := [], s;
    } else {
      var more;
      TakenFirst(s);
      more, s' := MakeRoom(Step(s, Dequeue).sys);
      ExecFirst(s, Dequeue, more);
      actions := [Dequeue] + more;
    }
  }

  /** ... and until a given message is taken. */
  lemma {:induction false} TakeUntil(s: Sys, k: nat) returns (actions: seq<Action>, s': Sys, r: nat)
    requires k < |s.queue|
    ensures forall a | a in actions :: a.Dequeue?
    ensures s' == Exec(s, actions) && RunAt(s', r, Starting)
    ensures s'.runs[r].taskId == s.queue[k].taskId && s'.runs[r].kind == s.queue[k].kind
    ensures s'.tasks == s.tasks && s'.pause == s.pause && s'.cancel == s.cancel
    decreases k
  {
    TakenFirst(s);
    var s1 := Step(s, Dequeue).sys;
    if k == 0 {
      ExecFirst(s, Dequeue, []);
      actions, s', r := [Dequeue] + [], s1, |s.runs|;
    } else {
      var more;
      more, s', r := TakeUntil(s1, k - 1);
      ExecFirst(s, Dequeue, more);
      actions := [Dequeue] + more;
    }
  }

  /** The end of a run by an approval request, one more entry in the history. */
  lemma InterruptMoves(s: Sys, r: nat, id: string, request: ApprovalRequest)
    requires id in s.tasks && RunAt(s, r, Streaming) && s.runs[r].taskId == id
    ensures var s' := Step(s, StreamEnds(r, Interrupt(request))).sys;
            id in s'.tasks && |s'.tasks[id].approvalHistory| == |s.tasks[id].approvalHistory| + 1
  {
  }

  lemma BeginStreams(s: Sys, r: nat, id: string)
    requires id in s.tasks && RunAt(s, r, Starting) && s.runs[r].taskId == id
    ensures var s' := Step(s, Begin(r)).sys;
            && id in s'.tasks && RunAt(s', r, Streaming) && s'.runs[r].taskId == id
            && s'.tasks[id].approvalHistory == s.tasks[id].approvalHistory && s'.tasks[id].status in ACTIVE
  {
  }

  /** A run, in whatever phase, can change its task's record, unless it closes with the status there. */
  lemma RunMoves(s: Sys, r: nat, id: string, request: ApprovalRequest) returns (actions: seq<Action>)
    requires id in s.tasks && r < |s.runs| && s.runs[r].taskId == id && s.tasks[id].status !in RESTARTABLE
    ensures !SameRecord(s, actions, id)
  {
    var interrupt := StreamEnds(r, Interrupt(request));
    match s.runs[r].phase
    case Starting =>
      BeginStreams(s, r, id);
      var s1 := Step(s, Begin(r)).sys;
      InterruptMoves(s1, r, id, request);
      ExecFirst(s1, interrupt, []);
      ExecFirst(s, Begin(r), [interrupt] + []);
      actions := [Begin(r)] + ([interrupt] + []);
    case Streaming =>
      InterruptMoves(s, r, id, request);
      ExecFirst(s, interrupt, []);
      actions := [interrupt] + [];
    case Stopping(_) =>
      ExecFirst(s, Close(r), []);
      actions := [Close(r)] + [];
  }

  /** A task at rest can be executed, once there is room in the queue. */
  lemma RestMoves(s: Sys, id: string) returns (actions: seq<Action>)
    requires id in s.tasks && s.tasks[id].status in RESTARTABLE
    ensures !SameRecord(s, actions, id)
  {
    var room, s1 := MakeRoom(s);
    ExecFirst(s1, Execute(id, true), []);
    ExecAppend(s, room, [Execute(id, true)] + []);
    actions := room + ([Execute(id, true)] + []);
  }

  lemma DecisionMoves(s: Sys, id: string) returns (actions: seq<Action>)
    requires id in s.tasks && CanBeDecided(s.tasks[id])
    ensures !SameRecord(s, actions, id)
  {
    var a := if Decidable(s.tasks[id]) then Decide(id, true, s.tasks[id].pendingApproval.value.id, false, None, None)
             else Cancel(id, true);
    ExecFirst(s, a, []);
    actions := [a] + [];
  }

  lemma WorkMoves(s: Sys, id: string, request: ApprovalRequest) returns (actions: seq<Action>)
    requires id in s.tasks && !NoWork(s, id) && s.tasks[id].status !in RESTARTABLE
    ensures !SameRecord(s, actions, id)
  {
    if w :| w in s.runs && w.taskId == id {
      var r :| 0 <= r < |s.runs| && s.runs[r] == w;
      actions := RunMoves(s, r, id, request);
    } else {
      var m :| m in s.queue && m.taskId == id;
      var k :| 0 <= k < |s.queue| && s.queue[k] == m;
      var taken, s1, r := TakeUntil(s, k);
      var more := RunMoves(s1, r, id, request);
      ExecAppend(s, taken, more);
      actions := taken + more;
    }
  }

  /** The exact condition, in every state: a task never moves again if and only if no handler restarts
      it, nothing is outstanding for it, and no request of it can be decided. */
  lemma NeverMovesIff(s: Sys, id: string)
    requires id in s.tasks
    ensures NeverMoves(s, id) <==> s.tasks[id].status !in RESTARTABLE && NoWork(s, id) && !CanBeDecided(s.tasks[id])
  {
    if Frozen(s, id) {
      FrozenNeverMoves(s, id);
    } else if s.tasks[id].status in RESTARTABLE {
      var actions := RestMoves(s, id);
    } else if CanBeDecided(s.tasks[id]) {
      var actions := DecisionMoves(s, id);
    } else {
      var actions := WorkMoves(s, id, ApprovalRequest("", "", "", Undecided, None, None));
    }
  }

  // ---- three ways to freeze a task ----

  /** Cancelling a task that waits for approval rejects the request but leaves the status. */
  lemma CancelWhileAwaitingFreezes(s: Sys, id: string)
    requires Inv(s) && id in s.tasks && s.tasks[id].status.AwaitingApproval?
    ensures var s' := Step(s, Cancel(id, true)).sys;
            NeverMoves(s', id) && s'.tasks[id].status.AwaitingApproval?
  {
    assert TaskInv(s, id);
    var t := s.tasks[id];
    if t.pendingApproval.Some? {
      ResolveDecidesOne(t, t.pendingApproval.value.id, Rejected, Some(CANCEL_NOTE), None);
    }
    NoWorkIsNoneOutstanding(s, id);
    FrozenNeverMoves(Step(s, Cancel(id, true)).sys, id);
  }

  /** A decision that finds the queue full is recorded, but nothing resumes the task. */
  lemma DecisionWithFullQueueFreezes(s: Sys, a: Action)
    requires Inv(s) && a.Decide? && Step(s, a).answer.QueueFull?
    ensures var s' := Step(s, a).sys;
            NeverMoves(s', a.id) && s'.tasks[a.id].status.AwaitingApproval?
  {
    assert TaskInv(s, a.id);
    var status, args := if a.approve then Approved else Rejected, if a.approve then a.args else None;
    ResolveDecidesOne(s.tasks[a.id], a.approvalId, status, a.note, args);
    NoWorkIsNoneOutstanding(s, a.id);
    FrozenNeverMoves(Step(s, a).sys, a.id);
  }

  /** A run that fails before its guarded part leaves an active status with nothing behind it. */
  lemma LostRunFreezes(s: Sys, r: nat)
    requires Inv(s) && RunAt(s, r, Starting)
    ensures var s', id := Step(s, LoseRun(r)).sys, s.runs[r].taskId;
            NeverMoves(s', id) && s'.tasks[id].status in ACTIVE
  {
    var id := s.runs[r].taskId;
    RunIsActive(s, r);
    RunDropped(s, r, id);
    assert TaskInv(s, id);
    NoWorkIsNoneOutstanding(Step(s, LoseRun(r)).sys, id);
    FrozenNeverMoves(Step(s, LoseRun(r)).sys, id);
  }

  // ---- waiting for ever ----

  ghost predicate StaysAwaiting(s: Sys, actions: seq<Action>, id: string) {
    id in Exec(s, actions).tasks && Exec(s, actions).tasks[id].status.AwaitingApproval?
  }

  /** Waiting, with nothing outstanding and no request to decide. */
  ghost predicate Waits(s: Sys, id: string) {
    id in s.tasks && s.tasks[id].status.AwaitingApproval? && NoWork(s, id) && !Decidable(s.tasks[id])
  }

  lemma RequestKeepsWaits(s: Sys, a: Action, id: string)
    requires Waits(s, id) && IsRequest(a)
    ensures Waits(Step(s, a).sys, id)
  {
    assert forall m, q: seq<Message> | m in q + [Message(a.id, ExecuteTask(None))] :: m in q || m.taskId == a.id;
  }

  lemma MoveKeepsWaits(s: Sys, a: Action, id: string)
    requires Waits(s, id) && !IsRequest(a) && !a.Dequeue?
    ensures Waits(Step(s, a).sys, id)
  {
    WorkerKeepsNoWork(s, a, id);
    if a.r < |s.runs| {
      assert s.runs[a.r] in s.runs;
    }
  }

  lemma StepKeepsWaits(s: Sys, a: Action, id: string)
    requires Waits(s, id)
    ensures Waits(Step(s, a).sys, id)
  {
    if IsRequest(a) {
      RequestKeepsWaits(s, a, id);
    } else if !a.Dequeue? {
      MoveKeepsWaits(s, a, id);
    }
  }

  lemma {:induction false} WaitsForever(s: Sys, actions: seq<Action>, id: string)
    requires Waits(s, id)
    ensures StaysAwaiting(s, actions, id)
    decreases |actions|
  {
    if actions != [] {
      StepKeepsWaits(s, actions[0], id);
      WaitsForever(Step(s, actions[0]).sys, actions[1..], id);
    }
  }

  /** A run that is entered, ends or closes takes its task out of waiting. */
  lemma RunLeavesAwaiting(s: Sys, r: nat, id: string) returns (actions: seq<Action>)
    requires id in s.tasks && r < |s.runs| && s.runs[r].taskId == id
    ensures !StaysAwaiting(s, actions, id)
  {
    var a := match s.runs[r].phase
             case Starting => Begin(r)
             case Streaming => StreamEnds(r, Crash(""))
             case Stopping(_) => Close(r);
    ExecFirst(s, a, []);
    actions := [a] + [];
  }

  /** A decision resumes the task, once there is room in the queue. */
  lemma DecisionLeavesAwaiting(s: Sys, id: string) returns (actions: seq<Action>)
    requires id in s.tasks && Decidable(s.tasks[id])
    ensures !StaysAwaiting(s, actions, id)
  {
    var room, s1 := MakeRoom(s);
    var decide := Decide(id, true, s.tasks[id].pendingApproval.value.id, false, None, None);
    ExecFirst(s1, decide, []);
    ExecAppend(s, room, [decide] + []);
    actions := room + ([decide] + []);
  }

  lemma WorkLeavesAwaiting(s: Sys, id: string) returns (actions: seq<Action>)
    requires id in s.tasks && !NoWork(s, id)
    ensures !StaysAwaiting(s, actions, id)
  {
    if w :| w in s.runs && w.taskId == id {
      var r :| 0 <= r < |s.runs| && s.runs[r] == w;
      actions := RunLeavesAwaiting(s, r, id);
    } else {
      var m :| m in s.queue && m.taskId == id;
      var k :| 0 <= k < |s.queue| && s.queue[k] == m;
      var taken, s1, r := TakeUntil(s, k);
      var more := RunLeavesAwaiting(s1, r, id);
      ExecAppend(s, taken, more);
      actions := taken + more;
    }
  }

  /** The exact condition for a waiting task, in every state: it waits for ever if and only if nothing is
      outstanding for it and it has no request to decide; while single flight holds, if and only if it
      has no pending request. */
  lemma AwaitingIsStuckIff(s: Sys, id: string)
    requires id in s.tasks && s.tasks[id].status.AwaitingApproval?
    ensures (forall actions :: StaysAwaiting(s, actions, id)) <==> NoWork(s, id) && !Decidable(s.tasks[id])
    ensures Inv(s) ==> (NoWork(s, id) && !Decidable(s.tasks[id]) <==> s.tasks[id].pendingApproval.None?)
  {
    if Waits(s, id) {
      forall actions ensures StaysAwaiting(s, actions, id) {
        WaitsForever(s, actions, id);
      }
    } else if Decidable(s.tasks[id]) {
      var actions := DecisionLeavesAwaiting(s, id);
    } else {
      var actions := WorkLeavesAwaiting(s, id);
    }
    if Inv(s) {
      assert TaskInv(s, id);
      NoWorkIsNoneOutstanding(s, id);
    }
  }

  // ---- template runs ----

  /** A template run with auto-execute leaves a pending task with a message in the queue; an
      execute request on it is then accepted and puts a second one there. */
  lemma TemplateRunBreaksSingleFlight(s: Sys, id: string, goal: string, context: Option<string>)
    requires Inv(s) && id !in s.tasks && (s.capacity == 0 || |s.queue| + 2 <= s.capacity)
    ensures var s1 := Step(s, RunTemplate(id, goal, context)).sys;
            var s2 := Step(s1, Execute(id, true));
            && s1.tasks[id].status.Pending? && Outstanding(s1, id) == 1
            && s2.answer.Accepted? && Outstanding(s2.sys, id) == 2
  {
    assert TaskInv(s, id);
    var created := s.(tasks := s.tasks[id := NewTask(id, goal, context)]);
    Enqueued(created, Message(id, ExecuteTask(None)), id);
    var s1 := Step(s, RunTemplate(id, goal, context)).sys;
    Enqueued(ClearFlags(s1, id), Message(id, ExecuteTask(None)), id);
  }
}
