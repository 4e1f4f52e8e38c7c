/** What a finished run leaves behind, and what the service makes of it. */
module WorkflowOutcome {
  import opened Common
  import opened AgentStates
  import opened Scheduler
  import opened Workflow
  import opened WorkflowTermination

  /** The text an event carries as final result, when there is one and it is not empty. */
  function CarriedText(e: NodeEvent): Option<string> {
    if e.update.finalResult.Some? && Truthy(e.update.finalResult.value) then e.update.finalResult.value else None
  }

  /** The service's local variable after the event loop: the last text carried by an event. */
  function LastCarried(events: seq<NodeEvent>): Option<string> {
    if events == [] then None
    else
      var text := CarriedText(events[|events| - 1]);
      if text.Some? then text else LastCarried(events[..|events| - 1])
  }

  /** The result with which the service closes a run that was not stopped. */
  function ClosingResult(c: Config): Option<string> {
    var carried := LastCarried(c.events);
    if carried.Some? then carried else c.state.finalResult
  }

  /** The last node of the run was the reflection (the run did not take the multi-agent branch). */
  predicate EndedByReflection(c: Config) {
    c.node.End? && c.events != [] && c.events[|c.events| - 1].node.ReflectionNode?
  }

  /** A failed replan, or an executor step without a plan: the two events that leave a text
      behind without ending the run. */
  predicate LeavesStaleText(e: NodeEvent) {
    (e.node.Replanner? && e.update.plan.None?) || (e.node.Executor? && e.update.finalResult.Some?)
  }

  /** Among these events exactly the two kinds above carry a text. */
  ghost predicate OnlyStale(events: seq<NodeEvent>) {
    forall e | e in events :: CarriedText(e).Some? <==> LeavesStaleText(e)
  }

  ghost predicate Quiet(events: seq<NodeEvent>) {
    forall e | e in events :: e.update.finalResult.None? && BeforePlanning(e.node)
  }

  ghost predicate OutcomeInv(limit: nat, c: Config) {
    && (BeforePlanning(c.node) ==> c.state.finalResult.None? && Quiet(c.events))
    && (!BeforePlanning(c.node) && !Done(c) ==> OnlyStale(c.events))
    && (c.node.End? ==> c.events != [] && (EndedByReflection(c) || c.events[|c.events| - 1].node.Reviewer?))
    && (EndedByReflection(c) ==> ReflectionOutcome(limit, c))
    && (c.node.End? && !EndedByReflection(c) ==> ReviewOutcome(c))
  }

  /** The multi-agent branch ends with the review's text, and nothing was carried before it. */
  ghost predicate ReviewOutcome(c: Config)
    requires c.events != []
  {
    && c.state.finalResult.Some?
    && c.events[|c.events| - 1].update.finalResult == Some(c.state.finalResult)
    && Quiet(c.events[..|c.events| - 1])
  }

  ghost predicate ReflectionOutcome(limit: nat, c: Config)
    requires c.events != []
  {
    && (c.state.finalResult.None? <==> c.state.iterations >= limit && Remaining(c.state) > 0)
    && (c.state.finalResult.Some? ==> Truthy(c.state.finalResult))
    && CarriedText(c.events[|c.events| - 1]) == c.state.finalResult
    && OnlyStale(c.events[..|c.events| - 1])
  }

  lemma EventsExtend(events: seq<NodeEvent>, e: NodeEvent)
    ensures OnlyStale(events) && (CarriedText(e).Some? <==> LeavesStaleText(e)) ==> OnlyStale(events + [e])
    ensures Quiet(events) && e.update.finalResult.None? && BeforePlanning(e.node) ==> Quiet(events + [e])
    ensures Quiet(events) ==> OnlyStale(events)
    ensures (events + [e])[..|events|] == events
  {
  }

  /** The state after a reflection: its result is missing when subtasks are left or another replan
      is wanted, and otherwise a text that is not empty. */
  lemma ReflectionResult(limit: nat, s: AgentState, reply: Reply)
    ensures var u := Reflect(limit, s, reply);
            var s' := Merge(s, u);
            && u.finalResult == Some(s'.finalResult) && Remaining(s') == Remaining(s)
            && (s'.finalResult.None? <==> Remaining(s) > 0 || s'.shouldReplan)
            && (s'.finalResult.Some? ==> Truthy(s'.finalResult))
            && (s'.shouldReplan ==> Remaining(s) == 0 && s'.iterations < limit)
  {
  }

  lemma ReflectionStepOutcome(limit: nat, c: Config, reply: Reply)
    requires c.node.ReflectionNode? && OnlyStale(c.events)
    ensures var d := Step(limit, c, Answers(reply));
            && (d.node.End? ==> ReflectionOutcome(limit, d))
            && (!d.node.End? ==> OnlyStale(d.events))
  {
    ReflectionResult(limit, c.state, reply);
    EventsExtend(c.events, NodeEvent(c.node, NodeOutput(limit, c.node, c.state, reply)));
  }

  lemma PlanningKeepsOutcomeInv(limit: nat, c: Config, reply: Reply)
    requires OutcomeInv(limit, c) && BeforePlanning(c.node)
    ensures OutcomeInv(limit, Step(limit, c, Answers(reply)))
  {
    EventsExtend(c.events, NodeEvent(c.node, NodeOutput(limit, c.node, c.state, reply)));
  }

  lemma WorkKeepsOutcomeInv(limit: nat, c: Config, reply: Reply)
    requires OutcomeInv(limit, c) && (c.node.Executor? || c.node.Replanner?)
    ensures OutcomeInv(limit, Step(limit, c, Answers(reply)))
  {
    EventsExtend(c.events, NodeEvent(c.node, NodeOutput(limit, c.node, c.state, reply)));
  }

  lemma StepKeepsOutcomeInv(limit: nat, c: Config, input: Input)
    requires OutcomeInv(limit, c)
    ensures OutcomeInv(limit, Step(limit, c, input))
  {
    if !Done(c) && input.Answers? {
      if BeforePlanning(c.node) {
        PlanningKeepsOutcomeInv(limit, c, input.reply);
      } else if c.node.ReflectionNode? {
        ReflectionStepOutcome(limit, c, input.reply);
      } else {
        WorkKeepsOutcomeInv(limit, c, input.reply);
      }
    }
  }

  lemma {:induction false} RunKeepsOutcomeInv(limit: nat, c: Config, inputs: seq<Input>)
    requires OutcomeInv(limit, c)
    ensures OutcomeInv(limit, Run(limit, c, inputs))
    decreases |inputs|
  {
    if inputs != [] {
      StepKeepsOutcomeInv(limit, c, inputs[0]);
      RunKeepsOutcomeInv(limit, Step(limit, c, inputs[0]), inputs[1..]);
    }
  }

  lemma {:induction false} NothingCarried(events: seq<NodeEvent>)
    ensures LastCarried(events).None? <==> forall e | e in events :: CarriedText(e).None?
    ensures LastCarried(events).Some? ==> Truthy(LastCarried(events))
  {
    if events != [] {
      NothingCarried(events[..|events| - 1]);
      assert events == events[..|events| - 1] + [events[|events| - 1]];
    }
  }

  /** When a run completes, its state lacks a final result exactly when it ended by reflection with
      the replan limit reached while the current plan still has subtasks left. */
  lemma ResultMissingIff(limit: nat, goal: string, previous: seq<TaskResult>, retryFrom: Option<nat>, inputs: seq<Input>)
    ensures var c := Run(limit, Start(goal, previous, retryFrom), inputs);
            c.node.End? ==>
              (c.state.finalResult.None? <==>
                 EndedByReflection(c) && c.state.iterations >= limit && Remaining(c.state) > 0)
  {
    RunKeepsOutcomeInv(limit, Start(goal, previous, retryFrom), inputs);
  }

  /** The condition, in terms of state and events, for a completed run to have nothing to show. */
  ghost predicate EndsEmptyHanded(limit: nat, c: Config) {
    if EndedByReflection(c) then
      c.state.iterations >= limit && Remaining(c.state) > 0 && !exists e :: e in c.events && LeavesStaleText(e)
    else c.state.finalResult == Some("")
  }

  /** The service closes a completed run as failed exactly when the state's result is missing and no
      earlier event left a stale text behind, or when the review of a multi-agent run is empty. A
      result present in the state is the one closed with. */
  lemma ClosesFailedIff(limit: nat, goal: string, previous: seq<TaskResult>, retryFrom: Option<nat>, inputs: seq<Input>)
    ensures var c := Run(limit, Start(goal, previous, retryFrom), inputs);
            c.node.End? ==>
              && (!Truthy(ClosingResult(c)) <==> EndsEmptyHanded(limit, c))
              && (c.state.finalResult.Some? ==> ClosingResult(c) == c.state.finalResult)
  {
    RunKeepsOutcomeInv(limit, Start(goal, previous, retryFrom), inputs);
    var c := Run(limit, Start(goal, previous, retryFrom), inputs);
    if c.node.End? {
      NothingCarried(c.events);
      NothingCarried(c.events[..|c.events| - 1]);
      assert c.events == c.events[..|c.events| - 1] + [c.events[|c.events| - 1]];
    }
  }

  lemma LastCarriedExtends(events: seq<NodeEvent>, e: NodeEvent)
    ensures LastCarried(events + [e]) == if CarriedText(e).Some? then CarriedText(e) else LastCarried(events)
  {
    assert (events + [e])[..|events|] == events;
  }

  lemma StepExtends(limit: nat, c: Config, reply: Reply)
    requires !Done(c)
    ensures var d, e := Step(limit, c, Answers(reply)), NodeEvent(c.node, NodeOutput(limit, c.node, c.state, reply));
            && d.events == c.events + [e]
            && LastCarried(d.events) == if CarriedText(e).Some? then CarriedText(e) else LastCarried(c.events)
  {
    LastCarriedExtends(c.events, NodeEvent(c.node, NodeOutput(limit, c.node, c.state, reply)));
  }

  const TWO_SUBTASKS := Plan(Some([PlanTask(None, "", None), PlanTask(None, "", None)]), false)

  /** One executor step into a plan of two independent subtasks, then the reflection at the limit. */
  lemma FirstOfTwo(c: Config, reply: Reply)
    requires c.node.Executor? && c.state.iterations == 2 && c.state.index == 0 && c.state.plan == Some(TWO_SUBTASKS)
    ensures var d := Step(2, c, Answers(reply));
            && d.node.ReflectionNode? && d.state.iterations == 2 && d.state.index == 1
            && d.state.plan == c.state.plan && LastCarried(d.events) == LastCarried(c.events)
  {
    StepExtends(2, c, reply);
    assert !HasDependencyKey(Items(Subtasks(c.state)));
  }

  lemma StoppedAtLimit(d: Config, reply: Reply)
    requires d.node.ReflectionNode? && d.state.iterations == 2 && d.state.index == 1 && d.state.plan == Some(TWO_SUBTASKS)
    ensures var e := Step(2, d, Answers(reply));
            && EndedByReflection(e) && e.state.finalResult.None? && Remaining(e.state) == 1
            && LastCarried(e.events) == LastCarried(d.events)
  {
    StepExtends(2, d, reply);
  }

  lemma LastPlanUnfinished(c: Config, reply: Reply)
    requires c.node.Executor? && c.state.iterations == 2 && c.state.index == 0 && c.state.plan == Some(TWO_SUBTASKS)
    ensures var d := Run(2, c, [Answers(reply)] + ([Answers(reply)] + []));
            EndedByReflection(d) && d.state.finalResult.None? && Remaining(d.state) == 1
            && LastCarried(d.events) == LastCarried(c.events)
  {
    var c1 := Step(2, c, Answers(reply));
    FirstOfTwo(c, reply);
    StoppedAtLimit(c1, reply);
    RunCons(2, c, Answers(reply), [Answers(reply)] + []);
    RunCons(2, c1, Answers(reply), []);
  }

  predicate PlanDone(c: Config) {
    HasSubtasksKey(c.state) && Remaining(c.state) == 0
  }

  lemma ReplanFails(c: Config, fails: Reply)
    requires c.node.Replanner? && c.state.iterations == 0 && PlanDone(c) && fails.plan.None?
    ensures var d := Step(2, c, Answers(fails));
            && d.node.Executor? && d.state.iterations == 1 && PlanDone(d)
            && LastCarried(d.events) == Some(REPLAN_FAILED_PREFIX + fails.error)
  {
    StepExtends(2, c, fails);
  }

  lemma NothingToExecute(c: Config, reply: Reply)
    requires c.node.Executor? && c.state.iterations == 1 && PlanDone(c)
    ensures var d := Step(2, c, Answers(reply));
            && d.node.ReflectionNode? && d.state.iterations == 1 && PlanDone(d)
            && LastCarried(d.events) == LastCarried(c.events)
  {
    StepExtends(2, c, reply);
  }

  lemma Unsatisfied(c: Config, reply: Reply)
    requires c.node.ReflectionNode? && c.state.iterations == 1 && PlanDone(c) && reply.verdict == Some(false)
    ensures var d := Step(2, c, Answers(reply));
            && d.node.Replanner? && d.state.iterations == 1
            && LastCarried(d.events) == LastCarried(c.events)
  {
    StepExtends(2, c, reply);
  }

  /** A failed first replan, with the reflection unsatisfied again: back at the replanner, with
      the failure text behind. */
  lemma FailedReplanLeavesText(c: Config, fails: Reply)
    requires c.node.Replanner? && c.state.iterations == 0 && PlanDone(c)
    requires fails.plan.None? && fails.verdict == Some(false)
    ensures var d := Run(2, c, [Answers(fails)] + ([Answers(fails)] + ([Answers(fails)] + [])));
            d.node.Replanner? && d.state.iterations == 1
            && LastCarried(d.events) == Some(REPLAN_FAILED_PREFIX + fails.error)
  {
    var f := Answers(fails);
    var c1 := Step(2, c, f);
    var c2 := Step(2, c1, f);
    ReplanFails(c, fails);
    NothingToExecute(c1, fails);
    Unsatisfied(c2, fails);
    RunCons(2, c, f, [f] + ([f] + []));
    RunCons(2, c1, f, [f] + []);
    RunCons(2, c2, f, []);
  }

  lemma SecondReplan(c: Config, plans: Reply)
    requires c.node.Replanner? && c.state.iterations == 1 && plans.plan == Some(TWO_SUBTASKS)
    ensures var d := Step(2, c, Answers(plans));
            && d.node.Executor? && d.state.iterations == 2 && d.state.index == 0 && d.state.plan == Some(TWO_SUBTASKS)
            && LastCarried(d.events) == LastCarried(c.events)
  {
    StepExtends(2, c, plans);
  }

  lemma {:induction false} RunAppend(limit: nat, c: Config, first: seq<Input>, second: seq<Input>)
    ensures Run(limit, c, first + second) == Run(limit, Run(limit, c, first), second)
    decreases |first|
  {
    if first == [] {
      assert first + second == second;
    } else {
      assert (first + second)[1..] == first[1..] + second;
      RunAppend(limit, Step(limit, c, first[0]), first[1..], second);
    }
  }

  /** From any first replan with a limit of two: if that replan fails, the reflection is unsatisfied
      again and the second replan installs two subtasks, the run closes with the text of the failed
      replan, although the last plan is unfinished and the state has no result. */
  lemma StaleTextAfterReplan(c: Config, fails: Reply, plans: Reply)
    requires c.node.Replanner? && c.state.iterations == 0 && PlanDone(c)
    requires fails.plan.None? && fails.verdict == Some(false)
    requires plans.plan == Some(TWO_SUBTASKS)
    ensures var f, p := Answers(fails), Answers(plans);
            var d := Run(2, c, [f] + ([f] + ([f] + [])) + ([p] + ([p] + ([p] + []))));
            EndedByReflection(d) && d.state.finalResult.None? && Remaining(d.state) == 1
            && ClosingResult(d) == Some(REPLAN_FAILED_PREFIX + fails.error)
  {
    var f, p := Answers(fails), Answers(plans);
    FailedReplanLeavesText(c, fails);
    var c3 := Run(2, c, [f] + ([f] + ([f] + [])));
    SecondReplan(c3, plans);
    LastPlanUnfinished(Step(2, c3, p), plans);
    RunCons(2, c3, p, [p] + ([p] + []));
    RunAppend(2, c, [f] + ([f] + ([f] + [])), [p] + ([p] + ([p] + [])));
  }

  lemma SupervisedAndPlanned(goal: string, previous: seq<TaskResult>, retryFrom: Option<nat>, begins: Reply)
    requires begins.mode.Single? && begins.plan.Some? && begins.plan.value.subtasks == Some([])
    ensures var c := Step(2, Step(2, Start(goal, previous, retryFrom), Answers(begins)), Answers(begins));
            c.node.Executor? && c.state.iterations == 0 && PlanDone(c)
  {
  }

  lemma EmptyPlanIsRejected(c: Config, begins: Reply)
    requires c.node.Executor? && c.state.iterations == 0 && PlanDone(c) && begins.verdict == Some(false)
    ensures var d := Step(2, Step(2, c, Answers(begins)), Answers(begins));
            d.node.Replanner? && d.state.iterations == 0 && PlanDone(d)
  {
    var d := Step(2, c, Answers(begins));
    assert d.node.ReflectionNode? && d.state.iterations == 0 && PlanDone(d);
  }

  /** Such a replan is reached from the start of a run: a single-agent task, an empty plan, and a
      reflection that is not satisfied. */
  lemma FirstReplanIsReached(goal: string, previous: seq<TaskResult>, retryFrom: Option<nat>, begins: Reply)
    requires begins.mode.Single? && begins.plan.Some? && begins.plan.value.subtasks == Some([])
    requires begins.verdict == Some(false)
    ensures var b := Answers(begins);
            var c := Run(2, Start(goal, previous, retryFrom), [b] + ([b] + ([b] + ([b] + []))));
            c.node.Replanner? && c.state.iterations == 0 && PlanDone(c)
  {
    var b := Answers(begins);
    var c := Start(goal, previous, retryFrom);
    var c1 := Step(2, c, b);
    var c2 := Step(2, c1, b);
    var c3 := Step(2, c2, b);
    SupervisedAndPlanned(goal, previous, retryFrom, begins);
    EmptyPlanIsRejected(c2, begins);
    RunCons(2, c, b, [b] + ([b] + ([b] + [])));
    RunCons(2, c1, b, [b] + ([b] + []));
    RunCons(2, c2, b, [b] + []);
    RunCons(2, c3, b, []);
  }

  /** So the outcome in the state and the outcome recorded can differ, in a run of ten answers from
      the start: the task is closed as completed with the text of a failed replan. */
  lemma StaleTextIsClosedAsCompleted(goal: string, previous: seq<TaskResult>, retryFrom: Option<nat>,
                                     begins: Reply, fails: Reply, plans: Reply)
    requires begins.mode.Single? && begins.plan.Some? && begins.plan.value.subtasks == Some([])
    requires begins.verdict == Some(false)
    requires fails.plan.None? && fails.verdict == Some(false)
    requires plans.plan == Some(TWO_SUBTASKS)
    ensures var b, f, p := Answers(begins), Answers(fails), Answers(plans);
            var d := Run(2, Start(goal, previous, retryFrom), [b, b, b, b, f, f, f, p, p, p]);
            EndedByReflection(d) && d.state.finalResult.None? && Remaining(d.state) == 1
            && ClosingResult(d) == Some(REPLAN_FAILED_PREFIX + fails.error)
  {
    var b, f, p := Answers(begins), Answers(fails), Answers(plans);
    var first := [b] + ([b] + ([b] + ([b] + [])));
    var later := [f] + ([f] + ([f] + [])) + ([p] + ([p] + ([p] + [])));
    FirstReplanIsReached(goal, previous, retryFrom, begins);
    StaleTextAfterReplan(Run(2, Start(goal, previous, retryFrom), first), fails, plans);
    RunAppend(2, Start(goal, previous, retryFrom), first, later);
    assert first + later == [b, b, b, b, f, f, f, p, p, p];
  }
}
