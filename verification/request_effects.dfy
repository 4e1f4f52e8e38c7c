/** Which accepted pause and cancel requests can take effect at all. */
module RequestEffects {
  // Nothing is assumed about the state: a task may have several messages and runs outstanding, as
  // after a template auto-run.

  import opened Common
  import opened TaskModel
  import Workflow
  import opened Lifecycle
  import opened SingleFlight
  import opened StuckTasks
  import opened ControlRequests

  /** No further pause or cancel request about the task. */
  ghost predicate Unattended(actions: seq<Action>, id: string) {
    forall a | a in actions :: Leaves(a, id)
  }

  predicate Leaves(a: Action, id: string) {
    !((a.Pause? || a.Cancel?) && a.id == id)
  }

  /** Without a further pause or cancel request, some continuation leaves the task with the
      requested status. */
  ghost predicate CanTakeEffect(s: Sys, id: string, cancel: bool) {
    exists actions :: Reaches(s, actions, id, Requested(cancel))
  }

  ghost predicate Reaches(s: Sys, actions: seq<Action>, id: string, status: TaskStatus) {
    && Unattended(actions, id)
    && id in Exec(s, actions).tasks && Exec(s, actions).tasks[id].status == status
  }

  /** A run that is still to handle an event without clearing the flags before. */
  predicate Sees(w: WorkerRun, id: string) {
    w.taskId == id && (w.phase.Streaming? || (w.phase.Starting? && !FromIndex(w.kind)))
  }

  /** Something is outstanding that can come across a flag: a run that has not stopped, a message, or a
      request whose decision enqueues one; but no retry from an index, which clears the flags. */
  ghost predicate SeenBySomething(s: Sys, id: string)
    requires id in s.tasks
  {
    || (exists w :: w in s.runs && Sees(w, id))
    || (exists m :: m in s.queue && m.taskId == id && !FromIndex(m.kind))
    || Decidable(s.tasks[id])
  }

  // ---- requests that cannot ----

  /** The task neither has the requested status nor is on the way to it. */
  ghost predicate Ineffective(s: Sys, id: string, cancel: bool) {
    && id in s.tasks && s.tasks[id].status != Requested(cancel)
    && !IsStopping(s, id, cancel)
    && (HasFlag(s, id, cancel) ==> !SeenBySomething(s, id))
  }

  lemma OwnRequestKeepsIneffective(s: Sys, a: Action, id: string, cancel: bool)
    requires Ineffective(s, id, cancel) && IsRequest(a) && Leaves(a, id) && a.id == id
    ensures Ineffective(Step(s, a).sys, id, cancel)
  {
    var s' := Step(s, a).sys;
    assert s'.runs == s.runs;
    if HasFlag(s', id, cancel) {
      assert HasFlag(s, id, cancel);
      assert s' == s;
    }
  }

  lemma OtherRequestKeepsIneffective(s: Sys, a: Action, id: string, cancel: bool)
    requires Ineffective(s, id, cancel) && IsRequest(a) && a.id != id
    ensures Ineffective(Step(s, a).sys, id, cancel)
  {
    OtherRequestQueue(s, a);
    OtherRequestTask(s, a, id);
  }

  lemma DequeueKeepsIneffective(s: Sys, id: string, cancel: bool)
    requires Ineffective(s, id, cancel)
    ensures Ineffective(TakeMessage(s), id, cancel)
  {
    if s.queue != [] {
      assert s.queue[0] in s.queue;
    }
  }

  lemma OtherMoveKeepsIneffective(s: Sys, a: Action, id: string, cancel: bool)
    requires Ineffective(s, id, cancel) && IsMove(a) && !RunOf(s, a.r, id)
    ensures Ineffective(Step(s, a).sys, id, cancel)
  {
    if a.r < |s.runs| {
      OtherMoveQueue(s, a, id);
      OtherMoveTask(s, a, id);
    }
  }

  lemma BeginKeepsIneffective(s: Sys, r: nat, id: string, cancel: bool)
    requires Ineffective(s, id, cancel) && RunOf(s, r, id) && RunAt(s, r, Starting)
    ensures Ineffective(Step(s, Begin(r)).sys, id, cancel)
  {
    var s' := Step(s, Begin(r)).sys;
    assert s.runs[r] in s.runs;
    assert s'.runs == s.runs[r := s.runs[r].(phase := Streaming)];
    assert HasFlag(s', id, cancel) ==> HasFlag(s, id, cancel) && Sees(s.runs[r], id);
    assert forall w | w in s'.runs :: w in s.runs || w.phase.Streaming?;
  }

  lemma EventKeepsIneffective(s: Sys, a: Action, id: string, cancel: bool)
    requires Ineffective(s, id, cancel) && a.NodeDone? && RunOf(s, a.r, id) && RunAt(s, a.r, Streaming)
    ensures Ineffective(Step(s, a).sys, id, cancel)
  {
    var s' := Step(s, a).sys;
    assert s.runs[a.r] in s.runs && Sees(s.runs[a.r], id);
    assert !HasFlag(s, id, cancel);
    assert forall w | w in s'.runs :: w in s.runs || w.phase != Stopping(cancel);
    EventKeepsStatusClass(s.tasks[id], a.event);
  }

  lemma EventKeepsStatusClass(t: Task, e: Workflow.NodeEvent)
    ensures HandleEvent(t, e).status == t.status || HandleEvent(t, e).status in ACTIVE
  {
  }

  lemma EndKeepsIneffective(s: Sys, a: Action, id: string, cancel: bool)
    requires Ineffective(s, id, cancel) && (a.StreamEnds? || a.Close? || a.LoseRun?)
    requires RunOf(s, a.r, id) && Step(s, a).answer.Accepted?
    ensures Ineffective(Step(s, a).sys, id, cancel)
  {
    var s' := Step(s, a).sys;
    assert s.runs[a.r] in s.runs;
    assert forall w | w in s'.runs :: w in s.runs;
    assert a.StreamEnds? ==> Sees(s.runs[a.r], id);
  }

  lemma StepKeepsIneffective(s: Sys, a: Action, id: string, cancel: bool)
    requires Ineffective(s, id, cancel) && Leaves(a, id)
    ensures Ineffective(Step(s, a).sys, id, cancel)
  {
    if a.Dequeue? {
      DequeueKeepsIneffective(s, id, cancel);
    } else if IsRequest(a) {
      if a.id == id {
        OwnRequestKeepsIneffective(s, a, id, cancel);
      } else {
        OtherRequestKeepsIneffective(s, a, id, cancel);
      }
    } else if !RunOf(s, a.r, id) {
      OtherMoveKeepsIneffective(s, a, id, cancel);
    } else if Step(s, a).answer.Accepted? {
      if a.Begin? {
        BeginKeepsIneffective(s, a.r, id, cancel);
      } else if a.NodeDone? {
        EventKeepsIneffective(s, a, id, cancel);
      } else {
        EndKeepsIneffective(s, a, id, cancel);
      }
    }
  }

  lemma {:induction false} IneffectiveNeverReaches(s: Sys, actions: seq<Action>, id: string, cancel: bool)
    requires Ineffective(s, id, cancel) && Unattended(actions, id)
    ensures !Reaches(s, actions, id, Requested(cancel))
    decreases |actions|
  {
    if actions != [] {
      assert actions[0] in actions;
      StepKeepsIneffective(s, actions[0], id, cancel);
      IneffectiveNeverReaches(Step(s, actions[0]).sys, actions[1..], id, cancel);
      assert forall a | a in actions[1..] :: a in actions;
    }
  }

  // ---- requests that can ----

  lemma PrependReaches(s: Sys, a: Action, rest: seq<Action>, id: string, status: TaskStatus)
    requires Leaves(a, id) && Reaches(Step(s, a).sys, rest, id, status)
    ensures Reaches(s, [a] + rest, id, status)
  {
    ExecFirst(s, a, rest);
  }

  lemma PrependAllReaches(s: Sys, actions: seq<Action>, rest: seq<Action>, id: string, status: TaskStatus)
    requires Unattended(actions, id) && Reaches(Exec(s, actions), rest, id, status)
    ensures Reaches(s, actions + rest, id, status)
  {
    ExecAppend(s, actions, rest);
  }

  lemma CloseReaches(s: Sys, r: nat, id: string, cancel: bool) returns (actions: seq<Action>)
    requires id in s.tasks && RunOf(s, r, id) && s.runs[r].phase == Stopping(cancel)
    ensures Reaches(s, actions, id, Requested(cancel))
  {
    PrependReaches(s, Close(r), [], id, Requested(cancel));
    actions := [Close(r)] + [];
  }

  lemma StreamReaches(s: Sys, r: nat, id: string, cancel: bool) returns (actions: seq<Action>)
    requires id in s.tasks && Flagged(s, id, cancel) && RunOf(s, r, id) && RunAt(s, r, Streaming)
    ensures Reaches(s, actions, id, Requested(cancel))
  {
    var event := NodeDone(r, SOME_EVENT);
    var rest := CloseReaches(Step(s, event).sys, r, id, cancel);
    PrependReaches(s, event, rest, id, Requested(cancel));
    actions := [event] + rest;
  }

  lemma BeginStaysFlagged(s: Sys, r: nat, id: string, cancel: bool)
    requires id in s.tasks && Flagged(s, id, cancel) && RunOf(s, r, id) && RunAt(s, r, Starting) && !FromIndex(s.runs[r].kind)
    ensures var s' := Step(s, Begin(r)).sys;
            id in s'.tasks && Flagged(s', id, cancel) && RunOf(s', r, id) && RunAt(s', r, Streaming)
  {
  }

  lemma StartReaches(s: Sys, r: nat, id: string, cancel: bool) returns (actions: seq<Action>)
    requires id in s.tasks && Flagged(s, id, cancel) && RunOf(s, r, id) && RunAt(s, r, Starting) && !FromIndex(s.runs[r].kind)
    ensures Reaches(s, actions, id, Requested(cancel))
  {
    BeginStaysFlagged(s, r, id, cancel);
    var rest := StreamReaches(Step(s, Begin(r)).sys, r, id, cancel);
    PrependReaches(s, Begin(r), rest, id, Requested(cancel));
    actions := [Begin(r)] + rest;
  }

  /** Workers take messages until the task's own is reached. */
  lemma MessageReaches(s: Sys, k: nat, id: string, cancel: bool) returns (actions: seq<Action>)
    requires id in s.tasks && Flagged(s, id, cancel)
    requires k < |s.queue| && s.queue[k].taskId == id && !FromIndex(s.queue[k].kind)
    ensures Reaches(s, actions, id, Requested(cancel))
  {
    var taken, s1, r := TakeUntil(s, k);
    var rest := StartReaches(s1, r, id, cancel);
    PrependAllReaches(s, taken, rest, id, Requested(cancel));
    actions := taken + rest;
  }

  /** A rejection, once there is room in the queue, enqueues a message that leaves the flags. */
  lemma DecisionReaches(s: Sys, id: string, cancel: bool) returns (actions: seq<Action>)
    requires id in s.tasks && Flagged(s, id, cancel) && Decidable(s.tasks[id])
    ensures Reaches(s, actions, id, Requested(cancel))
  {
    var room, s1 := MakeRoom(s);
    var decide := Decide(id, true, s.tasks[id].pendingApproval.value.id, false, None, None);
    var s2 := Step(s1, decide).sys;
    assert s2.queue == s1.queue + [Message(id, ResumeApproval(false, None, None))];
    var rest := MessageReaches(s2, |s1.queue|, id, cancel);
    PrependReaches(s1, decide, rest, id, Requested(cancel));
    PrependAllReaches(s, room, [decide] + rest, id, Requested(cancel));
    actions := room + ([decide] + rest);
  }

  lemma FlaggedReaches(s: Sys, id: string, cancel: bool) returns (actions: seq<Action>)
    requires id in s.tasks && Flagged(s, id, cancel) && (IsStopping(s, id, cancel) || SeenBySomething(s, id))
    ensures Reaches(s, actions, id, Requested(cancel))
  {
    if w :| w in s.runs && w.taskId == id && w.phase == Stopping(cancel) {
      var r :| 0 <= r < |s.runs| && s.runs[r] == w;
      actions := CloseReaches(s, r, id, cancel);
    } else if w :| w in s.runs && Sees(w, id) {
      var r :| 0 <= r < |s.runs| && s.runs[r] == w;
      if w.phase.Streaming? {
        actions := StreamReaches(s, r, id, cancel);
      } else {
        actions := StartReaches(s, r, id, cancel);
      }
    } else if m :| m in s.queue && m.taskId == id && !FromIndex(m.kind) {
      var k :| 0 <= k < |s.queue| && s.queue[k] == m;
      actions := MessageReaches(s, k, id, cancel);
    } else {
      actions := DecisionReaches(s, id, cancel);
    }
  }

  // ---- the exact condition ----

  /** A pending request that the cancellation of a waiting task rejects is no longer there to be decided. */
  ghost predicate SeenAfterRequest(s: Sys, id: string, cancel: bool)
    requires id in s.tasks
  {
    || (exists w :: w in s.runs && Sees(w, id))
    || (exists m :: m in s.queue && m.taskId == id && !FromIndex(m.kind))
    || (Decidable(s.tasks[id]) && !(cancel && s.tasks[id].status.AwaitingApproval?))
  }

  lemma AcceptedFlags(s: Sys, id: string, cancel: bool)
    requires id in s.tasks && Step(s, Request(id, cancel)).answer.Accepted?
    ensures var s' := Step(s, Request(id, cancel)).sys;
            && s'.queue == s.queue && s'.runs == s.runs && Flagged(s', id, cancel)
            && id in s'.tasks && s'.tasks[id].status == s.tasks[id].status && s.tasks[id].status != Requested(cancel)
            && (SeenBySomething(s', id) <==> SeenAfterRequest(s, id, cancel))
  {
  }

  /** In every state: an accepted request can take effect if and only if a run of the task closes with it
      already, or something outstanding can still come across the flag: a run that streams, or a run or
      message yet to be entered that is no retry from an index, or a request left to be decided. */
  lemma TakesEffectIff(s: Sys, id: string, cancel: bool)
    requires id in s.tasks && Step(s, Request(id, cancel)).answer.Accepted?
    ensures CanTakeEffect(Step(s, Request(id, cancel)).sys, id, cancel) <==>
              IsStopping(s, id, cancel) || SeenAfterRequest(s, id, cancel)
  {
    AcceptedFlags(s, id, cancel);
    var s' := Step(s, Request(id, cancel)).sys;
    if IsStopping(s', id, cancel) || SeenBySomething(s', id) {
      var actions := FlaggedReaches(s', id, cancel);
    } else {
      forall actions ensures !Reaches(s', actions, id, Requested(cancel)) {
        if Unattended(actions, id) {
          IneffectiveNeverReaches(s', actions, id, cancel);
        }
      }
    }
  }

  /** So an accepted cancel of a task with nothing outstanding never cancels it: neither a pending or
      paused one, unless a request is left undecided, nor one that awaits approval. */
  lemma CancelWithoutWorkDoesNothing(s: Sys, id: string)
    requires id in s.tasks && s.tasks[id].status in {Pending, Paused, AwaitingApproval} && NoWork(s, id)
    requires Decidable(s.tasks[id]) ==> s.tasks[id].status.AwaitingApproval?
    ensures Step(s, Cancel(id, true)).answer.Accepted?
    ensures !CanTakeEffect(Step(s, Cancel(id, true)).sys, id, true)
  {
    TakesEffectIff(s, id, true);
  }

  /** But after a template auto-run a pending task has a message outstanding, and its cancel can take effect. */
  lemma CancelAfterTemplateRun(s: Sys, id: string, goal: string, context: Option<string>)
    requires id !in s.tasks && QueueHasRoom(s)
    ensures var s' := Step(s, RunTemplate(id, goal, context)).sys;
            && s'.tasks[id].status.Pending? && Step(s', Cancel(id, true)).answer.Accepted?
            && CanTakeEffect(Step(s', Cancel(id, true)).sys, id, true)
  {
    var s', m := Step(s, RunTemplate(id, goal, context)).sys, Message(id, ExecuteTask(None));
    assert s'.queue == s.queue + [m] && m in s'.queue;
    TakesEffectIff(s', id, true);
  }

  // ---- while single flight holds ----

  lemma TwoMessagesCount(queue: seq<Message>, i: nat, j: nat, id: string)
    requires i < j < |queue| && queue[i].taskId == queue[j].taskId == id
    ensures Count(queue, ForTask(id)) >= 2
  {
    CountAt(queue, i, queue[i], ForTask(id));
    var rest := queue[..i] + queue[i + 1..];
    CountZero(rest, ForTask(id));
    assert rest[j - 1] == queue[j] && ForTask(id)(queue[j]);
  }

  lemma OnlyMessage(s: Sys, i: nat, j: nat, id: string)
    requires Inv(s) && i < j < |s.queue|
    ensures !(s.queue[i].taskId == s.queue[j].taskId == id)
  {
    assert TaskInv(s, id);
    if s.queue[i].taskId == s.queue[j].taskId == id {
      TwoMessagesCount(s.queue, i, j, id);
    }
  }

  /** While single flight holds, the condition can be read off the status: the task is active, not about
      to enter a retry from an index and not closing for the other request; or it is a pause of a task
      with a pending approval. */
  lemma TakesEffectByStatusIff(s: Sys, id: string, cancel: bool)
    requires Inv(s) && id in s.tasks && Step(s, Request(id, cancel)).answer.Accepted?
    ensures CanTakeEffect(Step(s, Request(id, cancel)).sys, id, cancel) <==>
              || (s.tasks[id].status in ACTIVE && !RetryAhead(s, id) && !IsStopping(s, id, !cancel))
              || (!cancel && s.tasks[id].status.AwaitingApproval? && s.tasks[id].pendingApproval.Some?)
  {
    TakesEffectIff(s, id, cancel);
    assert TaskInv(s, id);
    if s.tasks[id].status !in ACTIVE {
      RestHasNoWork(s, id);
    } else {
      ActiveHasWork(s, id);
      if r: nat :| RunOf(s, r, id) {
        ByOnlyRun(s, r, id, cancel);
      } else {
        ByOnlyMessage(s, id, cancel);
      }
    }
  }

  lemma ByOnlyRun(s: Sys, r: nat, id: string, cancel: bool)
    requires Inv(s) && RunOf(s, r, id) && id in s.tasks
    ensures IsStopping(s, id, cancel) || (exists w :: w in s.runs && Sees(w, id)) <==>
              !RetryAhead(s, id) && !IsStopping(s, id, !cancel)
    ensures forall m | m in s.queue :: m.taskId != id
  {
    OnlyRun(s, r, id);
    OnlyRunPhase(s, r, id);
    assert s.runs[r] in s.runs;
    forall w | w in s.runs && w.taskId == id ensures w == s.runs[r] {
      var k :| 0 <= k < |s.runs| && s.runs[k] == w;
      assert RunOf(s, k, id);
    }
  }

  lemma ByOnlyMessage(s: Sys, id: string, cancel: bool)
    requires Inv(s) && (exists m :: m in s.queue && m.taskId == id) && !(exists r :: RunOf(s, r, id))
    ensures (forall w | w in s.runs :: w.taskId != id) && !IsStopping(s, id, cancel) && !IsStopping(s, id, !cancel)
    ensures (exists m :: m in s.queue && m.taskId == id && !FromIndex(m.kind)) <==> !RetryAhead(s, id)
  {
    forall w | w in s.runs ensures w.taskId != id {
      var k :| 0 <= k < |s.runs| && s.runs[k] == w;
      assert !RunOf(s, k, id);
    }
    var m :| m in s.queue && m.taskId == id;
    var k :| 0 <= k < |s.queue| && s.queue[k] == m;
    forall n | n in s.queue && n.taskId == id ensures n == m {
      var j :| 0 <= j < |s.queue| && s.queue[j] == n;
      if j < k {
        OnlyMessage(s, j, k, id);
      } else if k < j {
        OnlyMessage(s, k, j, id);
      }
    }
  }
}
