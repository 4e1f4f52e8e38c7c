/** The task service over the in-memory repository: every method fetches a task, changes it and
    stores it, or does nothing when the task does not exist. */
module TaskServices {
  import opened Common
  import opened AgentStates
  import opened Workflow
  import opened TaskModel
  import Lifecycle

  class TaskService {
    var tasks: map<string, Task>

    constructor ()
      ensures tasks == map[]
    {
      tasks := map[];
    }

    method CreateTask(id: string, goal: string, context: Option<string>)
      modifies this
      ensures tasks == old(tasks)[id := NewTask(id, goal, context)]
    {
      tasks := tasks[id := NewTask(id, goal, context)];
    }

    method UpdateTaskStatus(id: string, status: TaskStatus)
      modifies this
      ensures tasks == if id in old(tasks) then old(tasks)[id := old(tasks)[id].(status := status)] else old(tasks)
    {
      if id in tasks {
        tasks := tasks[id := tasks[id].(status := status)];
      }
    }

    /** A status update that also writes a final result or an error. */
    method CloseTask(id: string, status: TaskStatus, finalResult: Option<Option<string>>, error: Option<string>)
      modifies this
      ensures tasks == if id in old(tasks)
                       then old(tasks)[id := Closed(old(tasks)[id], status, finalResult, error)] else old(tasks)
    {
      if id in tasks {
        tasks := tasks[id := Closed(tasks[id], status, finalResult, error)];
      }
    }

    /** The closing writes of a run whose stream ended by itself. */
    method CloseByEnding(id: string, ending: Lifecycle.Ending)
      modifies this
      ensures tasks == if id in old(tasks) then old(tasks)[id := Lifecycle.EndedTask(old(tasks)[id], ending)] else old(tasks)
    {
      match ending
      case Interrupt(request) =>
        SaveApprovalRequest(id, request);
        UpdateTaskStatus(id, AwaitingApproval);
      case Finish(result) =>
        CloseTask(id, if Truthy(result) then TaskStatus.Completed else TaskStatus.Failed, Some(result), None);
      case Crash(error) =>
        CloseTask(id, TaskStatus.Failed, None, Some(error));
    }

    method SyncPlan(id: string, plan: Option<Plan>)
      modifies this
      ensures tasks == if id in old(tasks) then old(tasks)[id := WithPlan(old(tasks)[id], plan)] else old(tasks)
    {
      if id in tasks && NonEmptyPlan(plan) {
        var raw := plan.value.subtasks.GetOr([]);
        var subtasks := [];
        for i := 0 to |raw|
          invariant tasks == old(tasks)
          invariant subtasks == FreshSubtasks(plan.value)[..i]
        {
          subtasks := subtasks + [FreshSubtask(raw, i)];
        }
        assert subtasks == FreshSubtasks(plan.value);
        tasks := tasks[id := tasks[id].(subtasks := subtasks)];
      } else {
        assert id in tasks ==> tasks == tasks[id := tasks[id]];
      }
    }

    method SyncTaskResults(id: string, results: seq<TaskResult>)
      modifies this
      ensures tasks == if id in old(tasks)
                       then old(tasks)[id := old(tasks)[id].(subtasks := WriteResults(old(tasks)[id].subtasks, results))]
                       else old(tasks)
    {
      if id !in tasks || results == [] {
        assert id in tasks ==> tasks[id].(subtasks := WriteResults(tasks[id].subtasks, results)) == tasks[id];
        assert id in tasks ==> tasks == tasks[id := tasks[id]];
        return;
      }
      var t := tasks[id];
      var subtasks := t.subtasks;
      var byId: map<string, nat> := map[];
      for i := 0 to |subtasks|
        invariant tasks == old(tasks)
        invariant forall key :: LastWithId(subtasks[..i], key) == if key in byId then Some(byId[key]) else None
      {
        assert subtasks[..i + 1][..i] == subtasks[..i];
        byId := byId[subtasks[i].id := i];
      }
      assert subtasks[..|subtasks|] == subtasks;
      for n := 0 to |results|
        invariant tasks == old(tasks)
        invariant subtasks == WriteResults(t.subtasks, results[..n])
        invariant SameIds(subtasks, t.subtasks)
        invariant forall key :: LastWithId(t.subtasks, key) == if key in byId then Some(byId[key]) else None
      {
        var r := results[n];
        LastWithIdOfSameIds(subtasks, t.subtasks, r.subtaskId);
        assert results[..n + 1][..n] == results[..n];
        if r.subtaskId in byId {
          var pos := byId[r.subtaskId];
          subtasks := subtasks[pos := Written(subtasks[pos], r)];
        }
      }
      assert results[..|results|] == results;
      tasks := tasks[id := t.(subtasks := subtasks)];
    }

    method SyncReflection(id: string, reflection: Option<Reflection>, iterations: Option<nat>)
      modifies this
      ensures tasks == if id in old(tasks)
                       then old(tasks)[id := WithReflection(old(tasks)[id], reflection, iterations)] else old(tasks)
    {
      if id in tasks {
        tasks := tasks[id := WithReflection(tasks[id], reflection, iterations)];
      }
    }

    method SyncExecutionMode(id: string, mode: Option<Mode>)
      modifies this
      ensures tasks == if id in old(tasks) then old(tasks)[id := old(tasks)[id].(executionMode := mode)] else old(tasks)
    {
      if id in tasks {
        tasks := tasks[id := tasks[id].(executionMode := mode)];
      }
    }

    method SaveApprovalRequest(id: string, request: ApprovalRequest)
      modifies this
      ensures tasks == if id in old(tasks) then old(tasks)[id := WithApproval(old(tasks)[id], request)] else old(tasks)
    {
      if id in tasks {
        tasks := tasks[id := WithApproval(tasks[id], request)];
      }
    }

    method ResolveApproval(id: string, approvalId: string, status: ApprovalStatus, note: Option<string>,
                           modifiedArgs: Option<string>) returns (resolved: bool)
      modifies this
      ensures resolved <==> id in old(tasks) && Resolve(old(tasks)[id], approvalId, status, note, modifiedArgs).Some?
      ensures tasks == if resolved
                       then old(tasks)[id := Resolve(old(tasks)[id], approvalId, status, note, modifiedArgs).value]
                       else old(tasks)
    {
      if id !in tasks || tasks[id].pendingApproval.None? {
        return false;
      }
      var request := tasks[id].pendingApproval.value;
      if request.id != approvalId {
        return false;
      }
      if !request.status.Undecided? {
        return false;
      }
      request := request.(status := status, note := note, modifiedArgs := modifiedArgs);
      var history := ReplaceInHistory(tasks[id].approvalHistory, request);
      tasks := tasks[id := tasks[id].(pendingApproval := None, approvalHistory := history)];
      return true;
    }

    method GetPendingApprovals(id: string) returns (pending: seq<ApprovalRequest>)
      ensures pending == if id in tasks then UndecidedOf(tasks[id].approvalHistory) else []
    {
      pending := [];
      if id in tasks {
        var history := tasks[id].approvalHistory;
        for i := 0 to |history|
          invariant pending == UndecidedOf(history[..i])
        {
          assert history[..i + 1][..i] == history[..i];
          if history[i].status.Undecided? {
            pending := pending + [history[i]];
          }
        }
        assert history[..|history|] == history;
      }
    }

    method ResetTaskForRetry(id: string, from: Option<nat>)
      modifies this
      ensures tasks == if id in old(tasks) then old(tasks)[id := ResetForRetry(old(tasks)[id], from)] else old(tasks)
    {
      if id in tasks {
        var t := tasks[id];
        var subtasks := t.subtasks;
        for i := 0 to |subtasks|
          invariant tasks == old(tasks)
          invariant |subtasks| == |t.subtasks|
          invariant subtasks[..i] == ResetForRetry(t, from).subtasks[..i] && subtasks[i..] == t.subtasks[i..]
        {
          if !(from.Some? && i < from.value) {
            subtasks := subtasks[i := ResetSubtask(subtasks[i])];
          }
          assert subtasks[..i + 1] == ResetForRetry(t, from).subtasks[..i + 1];
          assert subtasks[i + 1..] == t.subtasks[i..][1..] == t.subtasks[i + 1..];
        }
        assert subtasks == ResetForRetry(t, from).subtasks;
        tasks := tasks[id := t.(finalResult := None, error := None, reflection := None, subtasks := subtasks)];
      }
    }

    /** The progress in percent and the current step of a status response. */
    method StatusReport(id: string) returns (progress: real, step: Option<nat>)
      requires id in tasks
      ensures step == CurrentStep(tasks[id])
      ensures progress == if |tasks[id].subtasks| == 0 then 0.0
                          else CompletedCount(tasks[id].subtasks) as real / |tasks[id].subtasks| as real * 100.0
    {
      var t := tasks[id];
      var completed := 0;
      for i := 0 to |t.subtasks|
        invariant completed == CompletedCount(t.subtasks[..i])
      {
        assert t.subtasks[..i + 1][..i] == t.subtasks[..i];
        if t.subtasks[i].status.Completed? {
          completed := completed + 1;
        }
      }
      assert t.subtasks[..|t.subtasks|] == t.subtasks;
      progress := if |t.subtasks| > 0 then completed as real / |t.subtasks| as real * 100.0 else 0.0;
      step := None;
      if t.status.Executing? {
        var i := 0;
        while i < |t.subtasks| && !t.subtasks[i].status.Pending?
          invariant 0 <= i <= |t.subtasks|
          invariant FirstPending(t.subtasks, 0) == FirstPending(t.subtasks, i)
        {
          i := i + 1;
        }
        if i < |t.subtasks| {
          step := Some(i);
        }
      }
    }

    /** The service's reaction to a node event: status first, then the data it carries. */
    method HandleNodeEvent(id: string, e: NodeEvent)
      modifies this
      ensures tasks == if id in old(tasks) then old(tasks)[id := HandleEvent(old(tasks)[id], e)] else old(tasks)
    {
      match e.node
      case Supervisor =>
        if e.update.mode.Some? {
          SyncExecutionMode(id, e.update.mode);
        }
        if e.update.mode == Some(MultiAgent) {
          UpdateTaskStatus(id, Executing);
        }
      case SubAgents =>
        UpdateTaskStatus(id, Executing);
        SyncExecutionMode(id, Some(MultiAgent));
      case Planner =>
        UpdateTaskStatus(id, Executing);
        SyncPlan(id, e.update.plan.GetOr(None));
      case Executor =>
        UpdateTaskStatus(id, Executing);
        SyncTaskResults(id, e.update.results);
      case ReflectionNode =>
        UpdateTaskStatus(id, Reflecting);
        SyncReflection(id, e.update.reflection.GetOr(None), e.update.iterations);
        if e.update.shouldReplan == Some(true) {
          UpdateTaskStatus(id, Replanning);
        }
      case Replanner =>
        UpdateTaskStatus(id, Executing);
        SyncPlan(id, e.update.plan.GetOr(None));
        SyncReflection(id, None, e.update.iterations);
      case _ =>
    }
  }

  /** The loop of resolve_approval: the first entry with the request's id is replaced. */
  method ReplaceInHistory(history: seq<ApprovalRequest>, request: ApprovalRequest) returns (replaced: seq<ApprovalRequest>)
    ensures replaced == ReplaceFirst(history, request)
  {
    var i := 0;
    while i < |history| && history[i].id != request.id
      invariant 0 <= i <= |history|
      invariant forall k | 0 <= k < i :: history[k].id != request.id
    {
      i := i + 1;
    }
    FirstIsReplaced(history, i, request);
    if i < |history| {
      replaced := history[i := request];
    } else {
      replaced := history;
    }
  }

  lemma {:induction false} FirstIsReplaced(history: seq<ApprovalRequest>, i: nat, request: ApprovalRequest)
    requires i <= |history| && forall k | 0 <= k < i :: history[k].id != request.id
    requires i < |history| ==> history[i].id == request.id
    ensures ReplaceFirst(history, request) == if i < |history| then history[i := request] else history
  {
    if i > 0 {
      FirstIsReplaced(history[1..], i - 1, request);
    } else if history != [] {
      assert [request] + history[1..] == history[0 := request];
    }
  }

  function CompletedCount(subtasks: seq<SubTask>): nat {
    if subtasks == [] then 0
    else CompletedCount(subtasks[..|subtasks| - 1]) + (if subtasks[|subtasks| - 1].status.Completed? then 1 else 0)
  }

  function CompletedPositions(subtasks: seq<SubTask>): set<nat> {
    set i: nat | i < |subtasks| && subtasks[i].status.Completed?
  }

  lemma OneMorePosition(subtasks: seq<SubTask>)
    requires subtasks != []
    ensures var n := |subtasks| - 1;
            && n !in CompletedPositions(subtasks[..n])
            && CompletedPositions(subtasks) == CompletedPositions(subtasks[..n]) + if subtasks[n].status.Completed? then {n} else {}
  {
  }

  /** The count is the number of completed subtasks, so progress is full if and only if all are. */
  lemma {:induction false} CompletedCountIsExact(subtasks: seq<SubTask>)
    ensures CompletedCount(subtasks) == |CompletedPositions(subtasks)|
    ensures CompletedCount(subtasks) <= |subtasks|
    ensures CompletedCount(subtasks) == |subtasks| <==> forall i | 0 <= i < |subtasks| :: subtasks[i].status.Completed?
  {
    if subtasks == [] {
      assert CompletedPositions(subtasks) == {};
    } else {
      var init, last := subtasks[..|subtasks| - 1], |subtasks| - 1;
      CompletedCountIsExact(init);
      assert forall i | 0 <= i < |init| :: init[i] == subtasks[i];
      OneMorePosition(subtasks);
    }
  }

  ghost predicate SameIds(a: seq<SubTask>, b: seq<SubTask>) {
    |a| == |b| && forall i | 0 <= i < |a| :: a[i].id == b[i].id
  }

  lemma {:induction false} LastWithIdOfSameIds(a: seq<SubTask>, b: seq<SubTask>, id: string)
    requires SameIds(a, b)
    ensures LastWithId(a, id) == LastWithId(b, id)
  {
    if a != [] {
      LastWithIdOfSameIds(a[..|a| - 1], b[..|b| - 1], id);
    }
  }
}
