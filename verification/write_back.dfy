/** The persisted task stays in step with the hidden agent state, event by event. */
module WriteBack {
  import opened Common
  import opened AgentStates
  import opened Scheduler
  import opened Workflow
  import opened TaskModel

  /** The results produced under the current plan: those of the executor events since the last
      event that installed a plan. */
  function ResultsUnderPlan(events: seq<NodeEvent>): seq<TaskResult> {
    if events == [] || events[|events| - 1].update.plan.Some? then []
    else
      var earlier := ResultsUnderPlan(events[..|events| - 1]);
      if events[|events| - 1].node.Executor? then earlier + events[|events| - 1].update.results else earlier
  }

  lemma EventsExtend(t: Task, events: seq<NodeEvent>, e: NodeEvent)
    ensures HandleEvents(t, events + [e]) == HandleEvent(HandleEvents(t, events), e)
    ensures ResultsUnderPlan(events + [e])
            == if e.update.plan.Some? then []
               else if e.node.Executor? then ResultsUnderPlan(events) + e.update.results else ResultsUnderPlan(events)
  {
    assert (events + [e])[..|events|] == events;
  }

  // ---- incremental writing equals writing once ----

  lemma {:induction false} WritingTwice(subtasks: seq<SubTask>, a: seq<TaskResult>, b: seq<TaskResult>)
    ensures WriteResults(WriteResults(subtasks, a), b) == WriteResults(subtasks, a + b)
  {
    if b == [] {
      assert a + b == a;
    } else {
      assert (a + b)[..|a + b| - 1] == a + b[..|b| - 1];
      WritingTwice(subtasks, a, b[..|b| - 1]);
    }
  }

  ghost predicate InStep(c: Config, t: Task) {
    NonEmptyPlan(c.state.plan) ==>
      t.subtasks == WriteResults(FreshSubtasks(c.state.plan.value), ResultsUnderPlan(c.events))
  }

  predicate PlanMade(node: Node) {
    node.Executor? || node.ReflectionNode? || node.Replanner?
  }

  ghost predicate WriteBackInv(c: Config, t: Task) {
    && (!PlanMade(c.node) && !Done(c) ==> c.state.plan.None?)
    && InStep(c, t)
  }

  /** What an event does to the persisted subtasks, node by node. */
  lemma ExecutorKeepsInStep(limit: nat, c: Config, reply: Reply, t: Task, events: seq<NodeEvent>)
    requires c.node.Executor? && InStep(c, t)
    requires var e := NodeEvent(c.node, NodeOutput(limit, c.node, c.state, reply));
             events == c.events + [e] && ResultsUnderPlan(events) == ResultsUnderPlan(c.events) + e.update.results
    ensures var d := Step(limit, c, Answers(reply));
            d.events == events && d.state.plan == c.state.plan && InStep(d, HandleEvent(t, events[|events| - 1]))
  {
    if c.state.plan.Some? {
      WritingTwice(FreshSubtasks(c.state.plan.value), ResultsUnderPlan(c.events), NodeOutput(limit, c.node, c.state, reply).results);
    }
  }

  lemma OtherNodeKeepsInStep(limit: nat, c: Config, reply: Reply, t: Task, events: seq<NodeEvent>)
    requires !c.node.Executor? && !Done(c) && WriteBackInv(c, t)
    requires var e := NodeEvent(c.node, NodeOutput(limit, c.node, c.state, reply));
             events == c.events + [e] && ResultsUnderPlan(events) == if e.update.plan.Some? then [] else ResultsUnderPlan(c.events)
    ensures var d := Step(limit, c, Answers(reply)); d.events == events && InStep(d, HandleEvent(t, events[|events| - 1]))
  {
  }

  lemma StepKeepsNoPlan(limit: nat, c: Config, input: Input)
    requires !PlanMade(c.node) && !Done(c) ==> c.state.plan.None?
    ensures var d := Step(limit, c, input); !PlanMade(d.node) && !Done(d) ==> d.state.plan.None?
  {
  }

  lemma StepKeepsWriteBack(limit: nat, c: Config, input: Input, t0: Task)
    requires WriteBackInv(c, HandleEvents(t0, c.events))
    ensures var d := Step(limit, c, input); WriteBackInv(d, HandleEvents(t0, d.events))
  {
    StepKeepsNoPlan(limit, c, input);
    if !Done(c) && input.Answers? {
      var e := NodeEvent(c.node, NodeOutput(limit, c.node, c.state, input.reply));
      EventsExtend(t0, c.events, e);
      if c.node.Executor? {
        ExecutorKeepsInStep(limit, c, input.reply, HandleEvents(t0, c.events), c.events + [e]);
      } else {
        OtherNodeKeepsInStep(limit, c, input.reply, HandleEvents(t0, c.events), c.events + [e]);
      }
    }
  }

  /** For every run, every plan and whatever the task held before: after every handled node event
      the persisted subtasks are the subtasks of the state's plan, freshly created, with all the
      results obtained under that plan written once. (An empty plan dictionary is not persisted.) */
  lemma {:induction false} PersistedFollowsState(limit: nat, c: Config, inputs: seq<Input>, t0: Task)
    requires WriteBackInv(c, HandleEvents(t0, c.events))
    ensures var d := Run(limit, c, inputs); WriteBackInv(d, HandleEvents(t0, d.events))
    decreases |inputs|
  {
    if inputs != [] {
      StepKeepsWriteBack(limit, c, inputs[0], t0);
      PersistedFollowsState(limit, Step(limit, c, inputs[0]), inputs[1..], t0);
    }
  }

  // ---- an empty plan dictionary ----

  predicate WritesPlan(e: NodeEvent) {
    (e.node.Planner? || e.node.Replanner?) && NonEmptyPlan(e.update.plan.GetOr(None))
  }

  /** How many subtasks the last plan that was written has; n before any. */
  function WrittenSubtasks(events: seq<NodeEvent>, n: nat): nat {
    if events == [] then n
    else
      var last := events[|events| - 1];
      if WritesPlan(last) then |last.update.plan.value.value.subtasks.GetOr([])|
      else WrittenSubtasks(events[..|events| - 1], n)
  }

  lemma {:induction false} WritingKeepsLength(subtasks: seq<SubTask>, results: seq<TaskResult>)
    ensures |WriteResults(subtasks, results)| == |subtasks|
  {
    if results != [] {
      WritingKeepsLength(subtasks, results[..|results| - 1]);
    }
  }

  lemma {:induction false} PersistedLength(t0: Task, events: seq<NodeEvent>)
    ensures |HandleEvents(t0, events).subtasks| == WrittenSubtasks(events, |t0.subtasks|)
  {
    if events != [] {
      var init := events[..|events| - 1];
      PersistedLength(t0, init);
      WritingKeepsLength(HandleEvents(t0, init).subtasks, events[|events| - 1].update.results);
    }
  }

  /** The persisted subtasks are those of the state's plan, with its results, if and only if that plan is
      not an empty dictionary, or the plan written before it (the task as it was found) has no subtasks. */
  lemma PersistedAgreesIff(limit: nat, goal: string, previous: seq<TaskResult>, retryFrom: Option<nat>, inputs: seq<Input>, t0: Task)
    ensures var c := Run(limit, Start(goal, previous, retryFrom), inputs);
            c.state.plan.Some? ==>
              (HandleEvents(t0, c.events).subtasks
                 == WriteResults(FreshSubtasks(c.state.plan.value), ResultsUnderPlan(c.events)) <==>
               NonEmptyPlan(c.state.plan) || WrittenSubtasks(c.events, |t0.subtasks|) == 0)
  {
    var c := Run(limit, Start(goal, previous, retryFrom), inputs);
    PersistedFollowsState(limit, Start(goal, previous, retryFrom), inputs, t0);
    PersistedLength(t0, c.events);
    if c.state.plan.Some? && !NonEmptyPlan(c.state.plan) {
      WritingKeepsLength(FreshSubtasks(c.state.plan.value), ResultsUnderPlan(c.events));
    }
  }

  // ---- plans without dependencies: the persisted view position by position ----

  /** The results under a plan are those of its first subtasks, in order. */
  ghost predicate Aligned(items: seq<Item>, results: seq<TaskResult>) {
    |results| <= |items| && forall i | 0 <= i < |results| :: results[i].subtaskId == items[i].id
  }

  ghost predicate SerialInv(c: Config) {
    && (!PlanMade(c.node) && !Done(c) ==> c.state.plan.None?)
    && (c.state.plan.Some? && !HasDependencyKey(Items(Subtasks(c.state))) ==>
          && |ResultsUnderPlan(c.events)| == c.state.index
          && Aligned(Items(Subtasks(c.state)), ResultsUnderPlan(c.events)))
  }

  lemma StepKeepsSerial(limit: nat, c: Config, input: Input)
    requires SerialInv(c)
    ensures SerialInv(Step(limit, c, input))
  {
    if !Done(c) && input.Answers? {
      var u := NodeOutput(limit, c.node, c.state, input.reply);
      var d := Step(limit, c, input);
      assert (c.events + [NodeEvent(c.node, u)])[..|c.events|] == c.events;
      if c.node.Executor? && c.state.plan.Some? && !HasDependencyKey(Items(Subtasks(c.state)))
         && c.state.index < |Subtasks(c.state)| {
        assert ChosenNow(c.state) == [c.state.index];
        assert u.results == [ResultOf(Subtasks(c.state), c.state.index, input.reply.outcome(c.state.index), false)];
      }
    }
  }

  lemma {:induction false} RunKeepsSerial(limit: nat, c: Config, inputs: seq<Input>)
    requires SerialInv(c)
    ensures SerialInv(Run(limit, c, inputs))
    decreases |inputs|
  {
    if inputs != [] {
      StepKeepsSerial(limit, c, inputs[0]);
      RunKeepsSerial(limit, Step(limit, c, inputs[0]), inputs[1..]);
    }
  }

  lemma {:induction false} FindById(subtasks: seq<SubTask>, i: nat)
    requires i < |subtasks| && forall a, b | 0 <= a < b < |subtasks| :: subtasks[a].id != subtasks[b].id
    ensures LastWithId(subtasks, subtasks[i].id) == Some(i)
  {
    if i < |subtasks| - 1 {
      FindById(subtasks[..|subtasks| - 1], i);
    }
  }

  /** The next result finds its own subtask. */
  lemma BeforeLanding(plan: Plan, results: seq<TaskResult>, next: TaskResult)
    requires var items := Items(plan.subtasks.GetOr([])); DistinctIds(items) && Aligned(items, results + [next])
    requires Landed(FreshSubtasks(plan), results, WriteResults(FreshSubtasks(plan), results))
    ensures var before := WriteResults(FreshSubtasks(plan), results);
            |results| < |before| && WriteResult(before, next) == before[|results| := Written(before[|results|], next)]
  {
    var before, items := WriteResults(FreshSubtasks(plan), results), Items(plan.subtasks.GetOr([]));
    assert (results + [next])[|results|] == next;
    assert forall i | 0 <= i < |before| :: before[i].id == items[i].id;
    FindById(before, |results|);
  }

  ghost predicate Landed(blank: seq<SubTask>, results: seq<TaskResult>, written: seq<SubTask>) {
    && |results| <= |written| == |blank|
    && forall i | 0 <= i < |blank| :: written[i] == if i < |results| then Written(blank[i], results[i]) else blank[i]
  }

  lemma {:induction false} AlignedResultsLand(plan: Plan, results: seq<TaskResult>)
    requires var items := Items(plan.subtasks.GetOr([])); DistinctIds(items) && Aligned(items, results)
    ensures Landed(FreshSubtasks(plan), results, WriteResults(FreshSubtasks(plan), results))
  {
    if results != [] {
      var n := |results| - 1;
      AlignedResultsLand(plan, results[..n]);
      assert results[..n] + [results[n]] == results;
      BeforeLanding(plan, results[..n], results[n]);
    }
  }

  /** The view of a plan without "depends_on" of which the first index subtasks have run. */
  ghost predicate SerialView(plan: Plan, index: nat, results: seq<TaskResult>, t: Task) {
    var blank := FreshSubtasks(plan);
    && |t.subtasks| == |blank|
    && index <= |blank| && |results| == index
    && (forall i | 0 <= i < index :: t.subtasks[i] == Written(blank[i], results[i]) && !t.subtasks[i].status.Pending?)
    && (forall i | index <= i < |blank| :: t.subtasks[i] == blank[i] && t.subtasks[i].status.Pending?)
  }

  /** For a plan without "depends_on" and with distinct ids, after every handled event of every
      run: the subtasks below the current index are completed or failed as their result says, the
      others are pending. */
  lemma PersistedSerialView(limit: nat, goal: string, previous: seq<TaskResult>, retryFrom: Option<nat>, inputs: seq<Input>, t0: Task)
    ensures var c := Run(limit, Start(goal, previous, retryFrom), inputs);
            var items := Items(Subtasks(c.state));
            NonEmptyPlan(c.state.plan) && !HasDependencyKey(items) && DistinctIds(items) ==>
              SerialView(c.state.plan.value, c.state.index, ResultsUnderPlan(c.events), HandleEvents(t0, c.events))
  {
    PersistedFollowsState(limit, Start(goal, previous, retryFrom), inputs, t0);
    RunKeepsSerial(limit, Start(goal, previous, retryFrom), inputs);
    var c := Run(limit, Start(goal, previous, retryFrom), inputs);
    var items := Items(Subtasks(c.state));
    if NonEmptyPlan(c.state.plan) && !HasDependencyKey(items) && DistinctIds(items) {
      AlignedResultsLand(c.state.plan.value, ResultsUnderPlan(c.events));
    }
  }

  /** Only an executing task is reported to be at a step. */
  lemma NoStepUnlessExecuting(t: Task)
    ensures CurrentStep(t).Some? ==> t.status.Executing? && exists i | 0 <= i < |t.subtasks| :: t.subtasks[i].status.Pending?
  {
  }

  /** ... so the current step reported for an executing task is the state's current index. */
  lemma CurrentStepIsIndex(plan: Plan, index: nat, results: seq<TaskResult>, t: Task)
    requires SerialView(plan, index, results, t) && t.status.Executing?
    ensures CurrentStep(t) == if index < |t.subtasks| then Some(index) else None
  {
    var pos := CurrentStep(t);
    if index < |t.subtasks| {
      assert t.subtasks[index].status.Pending?;
    }
    if pos.Some? {
      assert t.subtasks[pos.value].status.Pending?;
    }
  }
}
