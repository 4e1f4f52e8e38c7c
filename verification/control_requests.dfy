/** What an accepted pause or cancel request does, and which requests do nothing. */
module ControlRequests {
  import opened Common
  import opened AgentStates
  import opened TaskModel
  import Workflow
  import opened Lifecycle
  import opened SingleFlight
  import opened StuckTasks

  /** The statuses of a task that is not at rest: the engine works on it, or waits for a decision. */
  const LIVE: set<TaskStatus> := ACTIVE + {AwaitingApproval}

  function Request(id: string, cancel: bool): Action {
    if cancel then Cancel(id, true) else Pause(id, true)
  }

  function Requested(cancel: bool): TaskStatus {
    if cancel then Cancelled else Paused
  }

  predicate HasFlag(s: Sys, id: string, cancel: bool) {
    if cancel then id in s.cancel else id in s.pause
  }

  predicate Flagged(s: Sys, id: string, cancel: bool) {
    HasFlag(s, id, cancel) && !HasFlag(s, id, !cancel)
  }

  /** The request of the other kind for the same task, which replaces the standing one. */
  predicate Opposite(a: Action, id: string, cancel: bool) {
    if cancel then a.Pause? && a.id == id else a.Cancel? && a.id == id
  }

  predicate FromIndex(kind: MessageKind) {
    kind.ExecuteTask? && kind.retryFrom.Some?
  }

  predicate RunOf(s: Sys, r: nat, id: string) {
    r < |s.runs| && s.runs[r].taskId == id
  }

  /** The task is about to enter a retry from an index, which clears its flags. */
  ghost predicate RetryAhead(s: Sys, id: string) {
    || (exists m :: m in s.queue && m.taskId == id && FromIndex(m.kind))
    || (exists w :: w in s.runs && w.taskId == id && w.phase.Starting? && FromIndex(w.kind))
  }

  /** A run of the task has seen a request and will close with it. */
  ghost predicate IsStopping(s: Sys, id: string, cancel: bool) {
    exists w :: w in s.runs && w.taskId == id && w.phase == Stopping(cancel)
  }

  /** The request is in force: flagged, not about to be forgotten, not seen yet. */
  ghost predicate Standing(s: Sys, id: string, cancel: bool) {
    && id in s.tasks && s.tasks[id].status in LIVE
    && Flagged(s, id, cancel)
    && !RetryAhead(s, id) && !IsStopping(s, id, true) && !IsStopping(s, id, false)
  }

  /** The task's run has seen the request and will close with the requested status. */
  ghost predicate Honoured(s: Sys, id: string, cancel: bool) {
    id in s.tasks && s.tasks[id].status in ACTIVE && IsStopping(s, id, cancel)
  }

  // ---- the one message or run of a task ----

  lemma TwoRunsCount(runs: seq<WorkerRun>, i: nat, j: nat, id: string)
    requires i < |runs| && j < |runs| && i != j && runs[i].taskId == runs[j].taskId == id
    ensures Count(runs, RunsTask(id)) >= 2
  {
    CountAt(runs, i, runs[i], RunsTask(id));
    var rest := runs[..i] + runs[i + 1..];
    CountZero(rest, RunsTask(id));
    assert rest[if j < i then j else j - 1] == runs[j];
    assert RunsTask(id)(runs[j]);
  }

  lemma RunCounts(s: Sys, r: nat, id: string)
    requires RunOf(s, r, id)
    ensures Count(s.runs, RunsTask(id)) > 0
  {
    CountZero(s.runs, RunsTask(id));
    assert s.runs[r] in s.runs && RunsTask(id)(s.runs[r]);
  }

  /** A task with a run is active, and has no other run and no message. */
  lemma OnlyRun(s: Sys, r: nat, id: string)
    requires Inv(s) && RunOf(s, r, id)
    ensures id in s.tasks && s.tasks[id].status in ACTIVE
    ensures forall j | RunOf(s, j, id) :: j == r
    ensures forall m | m in s.queue :: m.taskId != id
  {
    RunIsActive(s, r);
    RunCounts(s, r, id);
    CountZero(s.queue, ForTask(id));
    forall m | m in s.queue ensures m.taskId != id {
      assert !ForTask(id)(m);
    }
    forall j | RunOf(s, j, id) ensures j == r {
      if j != r {
        TwoRunsCount(s.runs, j, r, id);
      }
    }
  }

  lemma OnlyRunPhase(s: Sys, r: nat, id: string)
    requires Inv(s) && RunOf(s, r, id)
    ensures RetryAhead(s, id) <==> s.runs[r].phase.Starting? && FromIndex(s.runs[r].kind)
    ensures forall c :: IsStopping(s, id, c) <==> s.runs[r].phase == Stopping(c)
  {
    OnlyRun(s, r, id);
    assert s.runs[r] in s.runs;
    forall w | w in s.runs && w.taskId == id ensures w == s.runs[r] {
      var k :| 0 <= k < |s.runs| && s.runs[k] == w;
      assert RunOf(s, k, id);
    }
  }

  /** A task at rest or waiting has no message and no run. */
  lemma RestHasNoWork(s: Sys, id: string)
    requires Inv(s) && (id in s.tasks ==> s.tasks[id].status !in ACTIVE)
    ensures NoWork(s, id) && !RetryAhead(s, id) && !IsStopping(s, id, true) && !IsStopping(s, id, false)
  {
    assert TaskInv(s, id);
    NoWorkIsNoneOutstanding(s, id);
  }

  /** An active task has a message or a run. */
  lemma ActiveHasWork(s: Sys, id: string)
    requires Inv(s) && id in s.tasks && s.tasks[id].status in ACTIVE
    ensures (exists r :: RunOf(s, r, id)) || (exists m :: m in s.queue && m.taskId == id)
  {
    assert TaskInv(s, id);
    NoWorkIsNoneOutstanding(s, id);
    if w :| w in s.runs && w.taskId == id {
      var r :| 0 <= r < |s.runs| && s.runs[r] == w;
      assert RunOf(s, r, id);
    }
  }

  // ---- when a request stands ----

  lemma RequestOnlyFlags(s: Sys, id: string, cancel: bool)
    requires Inv(s) && id in s.tasks && Step(s, Request(id, cancel)).answer.Accepted?
    ensures var s' := Step(s, Request(id, cancel)).sys;
            && Inv(s') && s'.queue == s.queue && s'.runs == s.runs && Flagged(s', id, cancel)
            && id in s'.tasks && s'.tasks[id].status == s.tasks[id].status
            && (RetryAhead(s', id) <==> RetryAhead(s, id))
            && (forall c :: IsStopping(s', id, c) <==> IsStopping(s, id, c))
  {
    assert TaskInv(s, id);
    StepKeepsInv(s, Request(id, cancel));
  }

  /** An accepted request is in force if and only if the task is not at rest, is not about to enter a
      retry from an index, and is not stopping already. */
  lemma RequestStandsIff(s: Sys, id: string, cancel: bool)
    requires Inv(s) && id in s.tasks && Step(s, Request(id, cancel)).answer.Accepted?
    ensures Standing(Step(s, Request(id, cancel)).sys, id, cancel) <==>
              && s.tasks[id].status in LIVE && !RetryAhead(s, id)
              && !IsStopping(s, id, true) && !IsStopping(s, id, false)
  {
    RequestOnlyFlags(s, id, cancel);
  }

  /** Entering a run forgets the request exactly when it is a retry from an index. */
  lemma EntryForgetsIff(s: Sys, r: nat, cancel: bool)
    requires Inv(s) && RunAt(s, r, Starting) && Flagged(s, s.runs[r].taskId, cancel)
    ensures !Flagged(Step(s, Begin(r)).sys, s.runs[r].taskId, cancel) <==> FromIndex(s.runs[r].kind)
  {
    RunIsActive(s, r);
  }

  /** The next node event of the task's run honours the request, with cancel before pause. */
  lemma NodeEventHonours(s: Sys, a: Action, id: string, cancel: bool)
    requires Inv(s) && Standing(s, id, cancel)
    requires a.NodeDone? && RunOf(s, a.r, id) && Step(s, a).answer.Accepted?
    ensures Honoured(Step(s, a).sys, id, cancel)
  {
    OnlyRun(s, a.r, id);
    EventKeepsActive(s.tasks[id], a.event);
    var s' := Step(s, a).sys;
    assert s'.runs[a.r] in s'.runs;
  }

  // ---- other steps leave it standing ----

  predicate IsMove(a: Action) {
    a.Begin? || a.NodeDone? || a.StreamEnds? || a.Close? || a.LoseRun?
  }

  /** A request about a task that is not at rest is refused, or sets a flag, or decides its approval. */
  lemma OwnRequestKeepsStanding(s: Sys, a: Action, id: string, cancel: bool)
    requires Inv(s) && Standing(s, id, cancel) && !Opposite(a, id, cancel) && IsRequest(a) && a.id == id
    ensures Standing(Step(s, a).sys, id, cancel)
  {
    assert TaskInv(s, id);
    if a.Decide? {
      DecideKeepsStanding(s, a, id, cancel);
    }
  }

  lemma DecideKeepsStanding(s: Sys, a: Action, id: string, cancel: bool)
    requires Inv(s) && Standing(s, id, cancel) && a.Decide? && a.id == id
    ensures Standing(Step(s, a).sys, id, cancel)
  {
    assert TaskInv(s, id);
    var s' := Step(s, a).sys;
    assert s'.runs == s.runs;
    assert forall m | m in s'.queue :: m in s.queue || m.kind.ResumeApproval?;
  }

  /** Requests about other tasks at most add a message of that task. */
  lemma OtherRequestQueue(s: Sys, a: Action)
    requires IsRequest(a)
    ensures Step(s, a).sys.runs == s.runs
    ensures forall m | m in Step(s, a).sys.queue :: m in s.queue || m.taskId == a.id
    ensures forall m | m in s.queue :: m in Step(s, a).sys.queue
  {
  }

  lemma OtherRequestTask(s: Sys, a: Action, id: string)
    requires IsRequest(a) && a.id != id
    ensures var s' := Step(s, a).sys;
            && (id in s'.tasks <==> id in s.tasks) && (id in s.tasks ==> s'.tasks[id] == s.tasks[id])
            && (forall c :: HasFlag(s', id, c) <==> HasFlag(s, id, c))
  {
  }

  lemma OtherMoveQueue(s: Sys, a: Action, id: string)
    requires IsMove(a) && a.r < |s.runs| && s.runs[a.r].taskId != id
    ensures Step(s, a).sys.queue == s.queue
    ensures forall w | w in Step(s, a).sys.runs && w.taskId == id :: w in s.runs
  {
  }

  lemma OtherMoveTask(s: Sys, a: Action, id: string)
    requires IsMove(a) && a.r < |s.runs| && s.runs[a.r].taskId != id
    ensures var s' := Step(s, a).sys;
            && (id in s'.tasks <==> id in s.tasks) && (id in s.tasks ==> s'.tasks[id] == s.tasks[id])
            && (forall c :: HasFlag(s', id, c) <==> HasFlag(s, id, c))
  {
  }

  lemma OtherMoveRuns(s: Sys, a: Action, id: string, k: nat)
    requires IsMove(a) && a.r < |s.runs| && s.runs[a.r].taskId != id && RunOf(s, k, id)
    ensures s.runs[k] in Step(s, a).sys.runs
  {
    MovesOneRun(s, a);
    var s' := Step(s, a).sys;
    if s'.runs == s.runs[..a.r] + s.runs[a.r + 1..] {
      assert s'.runs[if k < a.r then k else k - 1] == s.runs[k];
    } else {
      assert s'.runs[k] == s.runs[k];
    }
  }

  /** A move drops its run or leaves it in its place. */
  lemma MovesOneRun(s: Sys, a: Action)
    requires IsMove(a) && a.r < |s.runs|
    ensures var s' := Step(s, a).sys;
            || s'.runs == s.runs[..a.r] + s.runs[a.r + 1..]
            || exists w: WorkerRun :: w.taskId == s.runs[a.r].taskId && s'.runs == s.runs[a.r := w]
  {
    var s' := Step(s, a).sys;
    if |s'.runs| == |s.runs| {
      assert s'.runs == s.runs[a.r := s'.runs[a.r]];
    }
  }

  /** What a step about other tasks leaves as it was for this one. */
  ghost predicate Untouched(s: Sys, s': Sys, id: string) {
    && (id in s'.tasks <==> id in s.tasks) && (id in s.tasks ==> s'.tasks[id] == s.tasks[id])
    && (forall c :: HasFlag(s', id, c) <==> HasFlag(s, id, c))
    && (RetryAhead(s', id) <==> RetryAhead(s, id))
    && (forall c :: IsStopping(s', id, c) <==> IsStopping(s, id, c))
  }

  /** The step is about another task: a request on it, a move of its run, or nothing at all. */
  ghost predicate Elsewhere(s: Sys, a: Action, id: string) {
    || (IsRequest(a) && a.id != id)
    || (IsMove(a) && !RunOf(s, a.r, id))
  }

  lemma ElsewhereLeavesUntouched(s: Sys, a: Action, id: string)
    requires Elsewhere(s, a, id)
    ensures Untouched(s, Step(s, a).sys, id)
  {
    var s' := Step(s, a).sys;
    if IsRequest(a) {
      OtherRequestQueue(s, a);
      OtherRequestTask(s, a, id);
    } else if a.r < |s.runs| {
      OtherMoveQueue(s, a, id);
      OtherMoveTask(s, a, id);
      forall w | w in s.runs && w.taskId == id ensures w in s'.runs {
        var k :| 0 <= k < |s.runs| && s.runs[k] == w;
        OtherMoveRuns(s, a, id, k);
      }
    }
  }

  /** Taking a message moves it from the queue to the runs. */
  lemma DequeueLeavesUntouched(s: Sys, id: string)
    ensures Untouched(s, TakeMessage(s), id)
  {
    if s.queue != [] {
      var s' := TakeMessage(s);
      var run := WorkerRun(s.queue[0].taskId, s.queue[0].kind, Starting);
      assert s.queue[0] in s.queue && run in s'.runs;
      assert forall m | m in s.queue :: m == s.queue[0] || m in s'.queue;
      assert forall w :: w in s'.runs <==> w in s.runs || w == run;
    }
  }

  /** Entering the task's own run keeps the request: it is no retry from an index. */
  lemma EntryKeepsStanding(s: Sys, r: nat, id: string, cancel: bool)
    requires Inv(s) && Standing(s, id, cancel) && RunOf(s, r, id) && RunAt(s, r, Starting)
    ensures Standing(Step(s, Begin(r)).sys, id, cancel)
  {
    OnlyRunPhase(s, r, id);
    OnlyRun(s, r, id);
    var s' := Step(s, Begin(r)).sys;
    StepKeepsInv(s, Begin(r));
    OnlyRunPhase(s', r, id);
  }

  /** The end of the task's own stream leaves it at rest, or waiting with the request still standing. */
  lemma EndKeepsStanding(s: Sys, a: Action, id: string, cancel: bool)
    requires Inv(s) && Standing(s, id, cancel) && Allowed(s, a)
    requires a.StreamEnds? && RunOf(s, a.r, id) && RunAt(s, a.r, Streaming)
    ensures var s' := Step(s, a).sys;
            id in s'.tasks && if a.ending.Interrupt? then Standing(s', id, cancel) else s'.tasks[id].status !in LIVE
  {
    OnlyRun(s, a.r, id);
    StepKeepsInv(s, a);
    RestHasNoWork(Step(s, a).sys, id);
  }

  lemma OtherStepKeepsStanding(s: Sys, a: Action, id: string, cancel: bool)
    requires Inv(s) && Standing(s, id, cancel) && Allowed(s, a) && !Opposite(a, id, cancel)
    requires !(a.NodeDone? && RunOf(s, a.r, id) && Step(s, a).answer.Accepted?)
    ensures var s' := Step(s, a).sys;
            Standing(s', id, cancel) || (a.StreamEnds? && id in s'.tasks && s'.tasks[id].status !in LIVE)
  {
    if a.Dequeue? {
      DequeueLeavesUntouched(s, id);
    } else if Elsewhere(s, a, id) {
      ElsewhereLeavesUntouched(s, a, id);
    } else if IsRequest(a) {
      OwnRequestKeepsStanding(s, a, id, cancel);
    } else {
      OnlyRunPhase(s, a.r, id);
      if a.Begin? && RunAt(s, a.r, Starting) {
        EntryKeepsStanding(s, a.r, id, cancel);
      } else if a.StreamEnds? && RunAt(s, a.r, Streaming) {
        EndKeepsStanding(s, a, id, cancel);
      }
    }
  }

  // ---- a request that was seen ----

  /** The run that stops on request can only close its task, with the requested status. */
  lemma OwnRunCloses(s: Sys, a: Action, id: string, cancel: bool)
    requires Inv(s) && Honoured(s, id, cancel) && IsMove(a) && RunOf(s, a.r, id)
    ensures var s' := Step(s, a).sys;
            if a.Close? then id in s'.tasks && s'.tasks[id].status == Requested(cancel)
            else s' == s && !Step(s, a).answer.Accepted?
  {
    OnlyRunPhase(s, a.r, id);
  }

  /** Requests do not touch runs, nor the status of an active task. */
  lemma RequestsLeaveActive(s: Sys, a: Action, id: string)
    requires Inv(s) && id in s.tasks && s.tasks[id].status in ACTIVE && IsRequest(a)
    ensures var s' := Step(s, a).sys;
            s'.runs == s.runs && id in s'.tasks && s'.tasks[id].status == s.tasks[id].status
  {
    OtherRequestQueue(s, a);
    if a.id != id {
      OtherRequestTask(s, a, id);
    } else {
      assert TaskInv(s, id);
      OwnRequestLeavesActive(s, a);
    }
  }

  lemma OwnRequestLeavesActive(s: Sys, a: Action)
    requires IsRequest(a) && a.id in s.tasks && s.tasks[a.id].status in ACTIVE && ApprovalsOk(s.tasks[a.id])
    ensures var s' := Step(s, a).sys; a.id in s'.tasks && s'.tasks[a.id].status == s.tasks[a.id].status
  {
  }

  /** So until it closes, the run that has seen the request stays, and takes no further event. */
  lemma HonouredCloses(s: Sys, a: Action, id: string, cancel: bool)
    requires Inv(s) && Honoured(s, id, cancel)
    ensures var s' := Step(s, a).sys;
            || (Honoured(s', id, cancel) && !(a.NodeDone? && RunOf(s, a.r, id) && Step(s, a).answer.Accepted?))
            || (!a.NodeDone? && id in s'.tasks && s'.tasks[id].status == Requested(cancel))
  {
    if a.Dequeue? {
      DequeueLeavesUntouched(s, id);
    } else if IsRequest(a) {
      RequestsLeaveActive(s, a, id);
    } else if RunOf(s, a.r, id) {
      OwnRunCloses(s, a, id, cancel);
    } else {
      ElsewhereLeavesUntouched(s, a, id);
    }
  }

  // ---- the whole continuation ----

  datatype Fate = InFlight | Closed(status: TaskStatus)

  /** The status with which the task comes to rest, if it does during these steps. */
  function FateOf(s: Sys, actions: seq<Action>, id: string): Fate
    decreases |actions|
  {
    if actions == [] then InFlight
    else
      var s' := Step(s, actions[0]).sys;
      if id in s'.tasks && s'.tasks[id].status !in LIVE then Fate.Closed(s'.tasks[id].status)
      else FateOf(s', actions[1..], id)
  }

  /** The node events handled for the task until it comes to rest. */
  function NodesSeen(s: Sys, actions: seq<Action>, id: string): nat
    decreases |actions|
  {
    if actions == [] then 0
    else
      var a := actions[0];
      var s' := Step(s, a).sys;
      (if a.NodeDone? && RunOf(s, a.r, id) && Step(s, a).answer.Accepted? then 1 else 0)
      + (if id in s'.tasks && s'.tasks[id].status !in LIVE then 0 else NodesSeen(s', actions[1..], id))
  }

  lemma {:induction false} AfterHonouring(s: Sys, actions: seq<Action>, id: string, cancel: bool)
    requires Inv(s) && Honoured(s, id, cancel) && AllAllowed(s, actions)
    ensures NodesSeen(s, actions, id) == 0
    ensures FateOf(s, actions, id) in {InFlight, Fate.Closed(Requested(cancel))}
    decreases |actions|
  {
    if actions != [] {
      StepKeepsInv(s, actions[0]);
      HonouredCloses(s, actions[0], id, cancel);
      if Honoured(Step(s, actions[0]).sys, id, cancel) {
        AfterHonouring(Step(s, actions[0]).sys, actions[1..], id, cancel);
      }
    }
  }

  ghost predicate NoneOpposite(actions: seq<Action>, id: string, cancel: bool) {
    forall a | a in actions :: !Opposite(a, id, cancel)
  }

  /** From a standing request on, in every continuation without the opposite request: at most one
      more node event of the task is handled until it comes to rest, also across an approval, and
      once one is, the task comes to rest with the requested status and no other. */
  lemma {:induction false} RequestTakesEffect(s: Sys, actions: seq<Action>, id: string, cancel: bool)
    requires Inv(s) && Standing(s, id, cancel) && AllAllowed(s, actions) && NoneOpposite(actions, id, cancel)
    ensures NodesSeen(s, actions, id) <= 1
    ensures NodesSeen(s, actions, id) == 1 ==> FateOf(s, actions, id) in {InFlight, Fate.Closed(Requested(cancel))}
    decreases |actions|
  {
    if actions != [] {
      var a := actions[0];
      assert a in actions;
      StepKeepsInv(s, a);
      if a.NodeDone? && RunOf(s, a.r, id) && Step(s, a).answer.Accepted? {
        NodeEventHonours(s, a, id, cancel);
        AfterHonouring(Step(s, a).sys, actions[1..], id, cancel);
      } else {
        OtherStepKeepsStanding(s, a, id, cancel);
        if Standing(Step(s, a).sys, id, cancel) {
          RequestTakesEffect(Step(s, a).sys, actions[1..], id, cancel);
        }
      }
    }
  }

  // ---- the retry from an index ----

  const SOME_EVENT := Workflow.NodeEvent(Workflow.Executor, NO_UPDATE)

  lemma OneStepFirst(s: Sys, a: Action, rest: seq<Action>, id: string)
    ensures AllAllowed(s, [a] + rest) <==> Allowed(s, a) && AllAllowed(Step(s, a).sys, rest)
    ensures Exec(s, [a] + rest) == Exec(Step(s, a).sys, rest)
    ensures NodesSeen(s, [a] + rest, id)
            == (if a.NodeDone? && RunOf(s, a.r, id) && Step(s, a).answer.Accepted? then 1 else 0)
               + (if id in Step(s, a).sys.tasks && Step(s, a).sys.tasks[id].status !in LIVE then 0
                  else NodesSeen(Step(s, a).sys, rest, id))
  {
    assert ([a] + rest)[1..] == rest;
  }

  /** An unflagged task whose run is streaming takes an event and goes on. */
  lemma UnflaggedGoesOn(s: Sys, r: nat, id: string)
    requires Inv(s) && RunOf(s, r, id) && RunAt(s, r, Streaming) && id !in s.cancel && id !in s.pause
    ensures var o := Step(s, NodeDone(r, SOME_EVENT));
            && o.answer.Accepted? && Inv(o.sys) && RunOf(o.sys, r, id) && RunAt(o.sys, r, Streaming)
            && id !in o.sys.cancel && id !in o.sys.pause && id in o.sys.tasks && o.sys.tasks[id].status in LIVE
  {
    OnlyRun(s, r, id);
    EventKeepsActive(s.tasks[id], SOME_EVENT);
    StepKeepsInv(s, NodeDone(r, SOME_EVENT));
  }

  lemma UnflaggedTakesTwo(s: Sys, r: nat, id: string, cancel: bool) returns (actions: seq<Action>)
    requires Inv(s) && RunOf(s, r, id) && RunAt(s, r, Streaming) && id !in s.cancel && id !in s.pause
    ensures AllAllowed(s, actions) && NoneOpposite(actions, id, cancel) && NodesSeen(s, actions, id) == 2
  {
    var event := NodeDone(r, SOME_EVENT);
    UnflaggedGoesOn(s, r, id);
    var s1 := Step(s, event).sys;
    UnflaggedGoesOn(s1, r, id);
    OneStepFirst(s1, event, [], id);
    OneStepFirst(s, event, [event] + [], id);
    actions := [event] + ([event] + []);
  }

  lemma EntryUnflags(s: Sys, r: nat, id: string)
    requires Inv(s) && RunOf(s, r, id) && RunAt(s, r, Starting) && FromIndex(s.runs[r].kind)
    ensures var s' := Step(s, Begin(r)).sys;
            && Inv(s') && RunOf(s', r, id) && RunAt(s', r, Streaming) && id !in s'.cancel && id !in s'.pause
            && id in s'.tasks && s'.tasks[id].status in LIVE
  {
    OnlyRun(s, r, id);
    StepKeepsInv(s, Begin(r));
  }

  /** A task about to enter a retry from an index can take two more events, whatever its flags. */
  lemma {:induction false} RetryTakesTwoMore(s: Sys, id: string, cancel: bool) returns (actions: seq<Action>)
    requires Inv(s) && RetryAhead(s, id)
    ensures AllAllowed(s, actions) && NoneOpposite(actions, id, cancel) && NodesSeen(s, actions, id) == 2
    decreases |s.queue|
  {
    if w :| w in s.runs && w.taskId == id && w.phase.Starting? && FromIndex(w.kind) {
      var r :| 0 <= r < |s.runs| && s.runs[r] == w;
      EntryUnflags(s, r, id);
      var more := UnflaggedTakesTwo(Step(s, Begin(r)).sys, r, id, cancel);
      OneStepFirst(s, Begin(r), more, id);
      actions := [Begin(r)] + more;
    } else {
      var s1 := Step(s, Dequeue).sys;
      DequeueLeavesUntouched(s, id);
      StepKeepsInv(s, Dequeue);
      RetryIsActive(s, id);
      var more := RetryTakesTwoMore(s1, id, cancel);
      OneStepFirst(s, Dequeue, more, id);
      actions := [Dequeue] + more;
    }
  }

  lemma RetryIsActive(s: Sys, id: string)
    requires Inv(s) && RetryAhead(s, id)
    ensures id in s.tasks && s.tasks[id].status in ACTIVE
  {
    if !(id in s.tasks && s.tasks[id].status in ACTIVE) {
      RestHasNoWork(s, id);
    }
  }

  /** In every continuation without the opposite request, at most one more node event is handled. */
  ghost predicate AtMostOneMore(s: Sys, id: string, cancel: bool) {
    forall actions | AllAllowed(s, actions) && NoneOpposite(actions, id, cancel) :: NodesSeen(s, actions, id) <= 1
  }

  /** The exact condition: an accepted request on a task that is not at rest bounds its further work
      by one node event if and only if the task is not about to enter a retry from an index. */
  lemma RequestHoldsIff(s: Sys, id: string, cancel: bool)
    requires Inv(s) && id in s.tasks && s.tasks[id].status in LIVE
    requires Step(s, Request(id, cancel)).answer.Accepted?
    ensures AtMostOneMore(Step(s, Request(id, cancel)).sys, id, cancel) <==> !RetryAhead(s, id)
  {
    RequestOnlyFlags(s, id, cancel);
    RequestStandsIff(s, id, cancel);
    var s' := Step(s, Request(id, cancel)).sys;
    if RetryAhead(s, id) {
      var actions := RetryTakesTwoMore(s', id, cancel);
      assert NodesSeen(s', actions, id) > 1;
    } else {
      forall actions | AllAllowed(s', actions) && NoneOpposite(actions, id, cancel) ensures NodesSeen(s', actions, id) <= 1 {
        if Standing(s', id, cancel) {
          RequestTakesEffect(s', actions, id, cancel);
        } else {
          var c := IsStopping(s, id, true);
          StoppingIsActive(s', id, c);
          AfterHonouring(s', actions, id, c);
        }
      }
    }
  }

  lemma StoppingIsActive(s: Sys, id: string, cancel: bool)
    requires Inv(s) && IsStopping(s, id, cancel)
    ensures Honoured(s, id, cancel)
  {
    if !(id in s.tasks && s.tasks[id].status in ACTIVE) {
      RestHasNoWork(s, id);
    }
  }
}
