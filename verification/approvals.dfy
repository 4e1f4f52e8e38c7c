/** An approval request is decided at most once, in every run. */
module Approvals {
  import opened Common
  import opened TaskModel
  import Workflow
  import opened Lifecycle
  import opened SingleFlight

  /** The history grows at the end, keeps its ids, and never touches a decided entry. */
  ghost predicate Grows(h: seq<ApprovalRequest>, h': seq<ApprovalRequest>) {
    && |h| <= |h'|
    && forall i | 0 <= i < |h| :: h'[i].id == h[i].id && (!h[i].status.Undecided? ==> h'[i] == h[i])
  }

  ghost predicate HistoriesGrow(s: Sys, s': Sys) {
    forall id | id in s.tasks :: id in s'.tasks && Grows(s.tasks[id].approvalHistory, s'.tasks[id].approvalHistory)
  }

  lemma ResolveGrows(t: Task, approvalId: string, status: ApprovalStatus, note: Option<string>, args: Option<string>)
    requires ApprovalsOk(t) && !status.Undecided? && Resolve(t, approvalId, status, note, args).Some?
    ensures Grows(t.approvalHistory, Resolve(t, approvalId, status, note, args).value.approvalHistory)
  {
    ResolveDecidesOne(t, approvalId, status, note, args);
  }

  ghost predicate SameHistories(s: Sys, s': Sys) {
    forall id | id in s.tasks :: id in s'.tasks && s'.tasks[id].approvalHistory == s.tasks[id].approvalHistory
  }

  /** Creating, restarting, resetting and pausing do not touch the history. */
  lemma RequestsKeepHistories(s: Sys, a: Action)
    requires a.Create? || a.RunTemplate? || a.Execute? || a.Resume? || a.Retry? || a.Pause?
    ensures SameHistories(s, Step(s, a).sys)
  {
  }

  /** ... nor do entering a run, writing node events, and closing. */
  lemma MovesKeepHistories(s: Sys, a: Action)
    requires a.Dequeue? || a.Begin? || a.NodeDone? || a.Close? || a.LoseRun?
    ensures SameHistories(s, Step(s, a).sys)
  {
    if a.NodeDone? && a.r < |s.runs| && s.runs[a.r].taskId in s.tasks {
      EventKeepsHistory(s.tasks[s.runs[a.r].taskId], a.event);
    }
  }

  lemma EventKeepsHistory(t: Task, e: Workflow.NodeEvent)
    ensures HandleEvent(t, e).approvalHistory == t.approvalHistory
  {
  }

  lemma DecideGrowsHistories(s: Sys, id: string, ok: bool, approvalId: string, approve: bool, note: Option<string>, args: Option<string>)
    requires Inv(s)
    ensures HistoriesGrow(s, DecideApproval(s, id, ok, approvalId, approve, note, args).sys)
  {
    if id in s.tasks {
      assert TaskInv(s, id);
      var status := if approve then Approved else Rejected;
      if Resolve(s.tasks[id], approvalId, status, note, if approve then args else None).Some? {
        ResolveGrows(s.tasks[id], approvalId, status, note, if approve then args else None);
      }
    }
  }

  lemma CancelGrowsHistories(s: Sys, id: string, ok: bool)
    requires Inv(s)
    ensures HistoriesGrow(s, CancelTask(s, id, ok).sys)
  {
    if id in s.tasks && s.tasks[id].pendingApproval.Some? {
      assert TaskInv(s, id);
      ResolveGrows(s.tasks[id], s.tasks[id].pendingApproval.value.id, Rejected, Some(CANCEL_NOTE), None);
    }
  }

  lemma EndGrowsHistories(s: Sys, r: nat, ending: Ending)
    requires r < |s.runs|
    ensures HistoriesGrow(s, EndStream(s, r, ending))
  {
  }

  lemma StepGrowsHistories(s: Sys, a: Action)
    requires Inv(s)
    ensures HistoriesGrow(s, Step(s, a).sys)
  {
    match a
    case Decide(id, ok, approvalId, approve, note, args) => DecideGrowsHistories(s, id, ok, approvalId, approve, note, args);
    case Cancel(id, ok) => CancelGrowsHistories(s, id, ok);
    case StreamEnds(r, ending) =>
      if r < |s.runs| {
        EndGrowsHistories(s, r, ending);
      }
    case _ =>
      if IsRequest(a) {
        RequestsKeepHistories(s, a);
      } else {
        MovesKeepHistories(s, a);
      }
  }

  lemma {:induction false} ExecGrowsHistories(s: Sys, actions: seq<Action>)
    requires Inv(s) && AllAllowed(s, actions)
    ensures HistoriesGrow(s, Exec(s, actions))
    decreases |actions|
  {
    if actions != [] {
      StepKeepsInv(s, actions[0]);
      StepGrowsHistories(s, actions[0]);
      ExecGrowsHistories(Step(s, actions[0]).sys, actions[1..]);
    }
  }

  /** The step decides request approvalId of task id: an approval or rejection that goes through
      (even if the queue then has no room for the resume message), or a cancellation of the
      waiting task. */
  ghost predicate Decides(s: Sys, a: Action, id: string, approvalId: string) {
    && id in s.tasks
    && match a
       case Decide(d, _, x, _, _, _) => d == id && x == approvalId && Step(s, a).answer in {Accepted, QueueFull}
       case Cancel(d, _) => d == id && Step(s, a).answer.Accepted? && s.tasks[id].status.AwaitingApproval?
                            && s.tasks[id].pendingApproval.Some? && s.tasks[id].pendingApproval.value.id == approvalId
       case _ => false
  }

  /** Entry k of the history of task id is the request, and its status is as given. */
  ghost predicate EntryAt(s: Sys, id: string, k: nat, approvalId: string, undecided: bool) {
    && id in s.tasks && k < |s.tasks[id].approvalHistory|
    && s.tasks[id].approvalHistory[k].id == approvalId
    && s.tasks[id].approvalHistory[k].status.Undecided? == undecided
  }

  /** What the decision writes: the approver's answer with note and arguments, which only an approval may
      change; a cancellation rejects with its own note. */
  function SettledEntry(a: Action, entry: ApprovalRequest): ApprovalRequest
    requires a.Decide? || a.Cancel?
  {
    if a.Cancel? then entry.(status := Rejected, note := Some(CANCEL_NOTE), modifiedArgs := None)
    else if a.approve then entry.(status := Approved, note := a.note, modifiedArgs := a.args)
    else entry.(status := Rejected, note := a.note, modifiedArgs := None)
  }

  /** Deciding takes an undecided entry out of that state, with the decision that was made, and leaves all
      others as they are; the task waits for it no longer. */
  lemma DecidesEntry(s: Sys, a: Action, id: string, approvalId: string) returns (k: nat)
    requires Inv(s) && Decides(s, a, id, approvalId)
    ensures EntryAt(s, id, k, approvalId, true)
    ensures EntryAt(Step(s, a).sys, id, k, approvalId, false)
    ensures var h := s.tasks[id].approvalHistory;
            Step(s, a).sys.tasks[id].approvalHistory == h[k := SettledEntry(a, h[k])]
    ensures Step(s, a).sys.tasks[id].pendingApproval.None?
  {
    assert TaskInv(s, id);
    var t := s.tasks[id];
    if a.Decide? {
      var status, args := if a.approve then Approved else Rejected, if a.approve then a.args else None;
      assert Resolve(t, approvalId, status, a.note, args).Some?;
      k := ResolvedEntry(t, approvalId, status, a.note, args);
    } else {
      k := ResolvedEntry(t, approvalId, Rejected, Some(CANCEL_NOTE), None);
    }
  }

  lemma ResolvedEntry(t: Task, approvalId: string, status: ApprovalStatus, note: Option<string>, args: Option<string>) returns (k: nat)
    requires ApprovalsOk(t) && !status.Undecided? && Resolve(t, approvalId, status, note, args).Some?
    ensures k < |t.approvalHistory| && t.approvalHistory[k].id == approvalId && t.approvalHistory[k].status.Undecided?
    ensures var t' := Resolve(t, approvalId, status, note, args).value;
            && t'.approvalHistory == t.approvalHistory[k := t.approvalHistory[k].(status := status, note := note, modifiedArgs := args)]
            && t'.pendingApproval.None?
  {
    ResolveDecidesOne(t, approvalId, status, note, args);
    k :| 0 <= k < |t.approvalHistory| && t.approvalHistory[k].id == approvalId && t.approvalHistory[k].status.Undecided?
      && Resolve(t, approvalId, status, note, args).value.approvalHistory
         == t.approvalHistory[k := t.approvalHistory[k].(status := status, note := note, modifiedArgs := args)];
  }

  /** Once decided, a request is never decided again, whatever happens in between. */
  lemma DecidedAtMostOnce(s: Sys, a: Action, between: seq<Action>, b: Action, id: string, approvalId: string)
    requires Inv(s) && Allowed(s, a) && AllAllowed(Step(s, a).sys, between)
    requires Decides(s, a, id, approvalId)
    ensures !Decides(Exec(Step(s, a).sys, between), b, id, approvalId)
  {
    var k := DecidesEntry(s, a, id, approvalId);
    StepKeepsInv(s, a);
    var s1 := Step(s, a).sys;
    ExecGrowsHistories(s1, between);
    ExecKeepsInv(s1, between);
    var s2 := Exec(s1, between);
    assert EntryAt(s2, id, k, approvalId, false);
    if Decides(s2, b, id, approvalId) {
      assert TaskInv(s2, id);
      var m := DecidesEntry(s2, b, id, approvalId);
      assert false;
    }
  }

  /** The entry that a decision settled stays settled. */
  lemma SettledStays(s: Sys, a: Action, id: string, k: nat, approvalId: string)
    requires Inv(s) && EntryAt(s, id, k, approvalId, false)
    ensures EntryAt(Step(s, a).sys, id, k, approvalId, false)
  {
    StepGrowsHistories(s, a);
  }

  lemma SettledIsNotDecided(s: Sys, a: Action, id: string, k: nat, approvalId: string)
    requires Inv(s) && EntryAt(s, id, k, approvalId, false)
    ensures !Decides(s, a, id, approvalId)
  {
    assert TaskInv(s, id);
    if Decides(s, a, id, approvalId) {
      var m := DecidesEntry(s, a, id, approvalId);
      assert false;
    }
  }

  /** The step puts a resume message for the request into the queue. */
  ghost predicate EnqueuesResume(s: Sys, a: Action, id: string, approvalId: string) {
    && a.Decide? && a.approvalId == approvalId
    && exists m: Message :: m.taskId == id && m.kind.ResumeApproval? && Step(s, a).sys.queue == s.queue + [m]
  }

  /** How many resume messages for the request a run puts into the queue. */
  ghost function ResumesFor(s: Sys, actions: seq<Action>, id: string, approvalId: string): nat
    decreases |actions|
  {
    if actions == [] then 0
    else (if EnqueuesResume(s, actions[0], id, approvalId) then 1 else 0)
         + ResumesFor(Step(s, actions[0]).sys, actions[1..], id, approvalId)
  }

  lemma {:induction false} NoResumeOnceSettled(s: Sys, actions: seq<Action>, id: string, k: nat, approvalId: string)
    requires Inv(s) && AllAllowed(s, actions) && EntryAt(s, id, k, approvalId, false)
    ensures ResumesFor(s, actions, id, approvalId) == 0
    decreases |actions|
  {
    if actions != [] {
      SettledIsNotDecided(s, actions[0], id, k, approvalId);
      if m: Message :| m.taskId == id && m.kind.ResumeApproval? && Step(s, actions[0]).sys.queue == s.queue + [m] {
        ResumeOnlyByDecision(s, actions[0], m);
      }
      SettledStays(s, actions[0], id, k, approvalId);
      StepKeepsInv(s, actions[0]);
      NoResumeOnceSettled(Step(s, actions[0]).sys, actions[1..], id, k, approvalId);
    }
  }

  /** In every run at most one resume message is enqueued for a request. */
  lemma {:induction false} ResumedAtMostOnce(s: Sys, actions: seq<Action>, id: string, approvalId: string)
    requires Inv(s) && AllAllowed(s, actions)
    ensures ResumesFor(s, actions, id, approvalId) <= 1
    decreases |actions|
  {
    if actions != [] {
      StepKeepsInv(s, actions[0]);
      var s' := Step(s, actions[0]).sys;
      if EnqueuesResume(s, actions[0], id, approvalId) {
        var m: Message :| m.taskId == id && m.kind.ResumeApproval? && s'.queue == s.queue + [m];
        ResumeOnlyByDecision(s, actions[0], m);
        var k := DecidesEntry(s, actions[0], id, approvalId);
        NoResumeOnceSettled(s', actions[1..], id, k, approvalId);
      } else {
        ResumedAtMostOnce(s', actions[1..], id, approvalId);
      }
    }
  }

  /** The message says what the entry says: approved if and only if it is, with its note, and with its
      arguments exactly when it is approved and they are not empty. */
  predicate Agrees(kind: MessageKind, entry: ApprovalRequest) {
    && kind.ResumeApproval? && !entry.status.Undecided?
    && (kind.approved <==> entry.status.Approved?)
    && kind.reason == entry.note
    && (kind.args.Some? ==> kind.args == entry.modifiedArgs)
    && (kind.args.Some? <==> entry.status.Approved? && entry.modifiedArgs.Some? && entry.modifiedArgs.value != "")
  }

  /** In every run: the resume message for a request agrees with the request's entry in the history, when
      it is enqueued and for ever after. */
  lemma ResumeAgreesWithHistory(s: Sys, a: Action, m: Message, later: seq<Action>) returns (k: nat)
    requires Inv(s) && Allowed(s, a) && AllAllowed(Step(s, a).sys, later)
    requires m.kind.ResumeApproval? && Step(s, a).sys.queue == s.queue + [m]
    ensures a.Decide? && EntryAt(s, m.taskId, k, a.approvalId, true)
    ensures EntryAt(Exec(Step(s, a).sys, later), m.taskId, k, a.approvalId, false)
    ensures Agrees(m.kind, Exec(Step(s, a).sys, later).tasks[m.taskId].approvalHistory[k])
  {
    ResumeOnlyByDecision(s, a, m);
    k := DecidesEntry(s, a, m.taskId, a.approvalId);
    StepKeepsInv(s, a);
    ExecGrowsHistories(Step(s, a).sys, later);
    MessageOfDecision(s, a, m);
  }

  lemma MessageOfDecision(s: Sys, a: Action, m: Message)
    requires a.Decide? && Step(s, a).sys.queue == s.queue + [m]
    ensures m.kind.ResumeApproval? && m.kind.approved == a.approve && m.kind.reason == a.note
    ensures m.kind.args == if a.approve && a.args.Some? && a.args.value != "" then a.args else None
  {
    assert (s.queue + [m])[|s.queue|] == m;
  }

  /** A resume message enters the queue only as part of a decision: so at most one per request. */
  lemma ResumeOnlyByDecision(s: Sys, a: Action, m: Message)
    requires m.kind.ResumeApproval? && Step(s, a).sys.queue == s.queue + [m]
    ensures a.Decide? && Decides(s, a, m.taskId, a.approvalId) && m.kind.approved == a.approve
  {
    assert |s.queue + [m]| == |s.queue| + 1 && (s.queue + [m])[|s.queue|] == m;
  }
}
