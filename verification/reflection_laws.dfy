/** The verdict of the reflection decides how a run goes on, and what the task records of it. */
module ReflectionLaws {
  import opened Common
  import opened AgentStates
  import opened Workflow
  import opened TaskModel
  import opened WorkflowOutcome

  // ---- one reflection ----

  /** With all subtasks executed and a replan left, an unsatisfied verdict, and nothing else, leads to a
      replan. A satisfied one, or an answer that could not be parsed, ends the run with the report. */
  lemma VerdictDecides(limit: nat, c: Config, reply: Reply)
    requires c.node.ReflectionNode? && Remaining(c.state) == 0 && c.state.iterations < limit
    ensures var d := Step(limit, c, Answers(reply));
            && (d.node.Replanner? <==> reply.verdict == Some(false))
            && (reply.verdict == Some(false) ==> d.state.finalResult == None)
            && (reply.verdict != Some(false) ==>
                  d.node.End? && d.state.finalResult == Some(Report(c.state.results, c.state.goal)))
  {
  }

  /** At the limit every answer ends the run, with the report if all subtasks are executed. */
  lemma LimitDecides(limit: nat, c: Config, reply: Reply)
    requires c.node.ReflectionNode? && c.state.iterations >= limit
    ensures var d := Step(limit, c, Answers(reply));
            && d.node.End?
            && d.state.finalResult == if Remaining(c.state) == 0 then Some(Report(c.state.results, c.state.goal)) else None
  {
  }

  /** The three ways on, for every state and answer. */
  lemma ReflectionRoutes(limit: nat, c: Config, reply: Reply)
    requires c.node.ReflectionNode?
    ensures var d := Step(limit, c, Answers(reply));
            && (d.node.Replanner? <==> c.state.iterations < limit && Remaining(c.state) == 0 && reply.verdict == Some(false))
            && (d.node.Executor? <==> c.state.iterations < limit && Remaining(c.state) > 0)
            && (d.node.End? <==> c.state.iterations >= limit || (Remaining(c.state) == 0 && reply.verdict != Some(false)))
  {
  }

  /** What is recorded: the verdict, and that there was none; nothing while subtasks are left. */
  lemma ReflectionRecorded(limit: nat, c: Config, reply: Reply)
    requires c.node.ReflectionNode?
    ensures var d := Step(limit, c, Answers(reply));
            if Remaining(c.state) > 0 then d.state.reflection.None?
            else && d.state.reflection.Some?
                 && (d.state.reflection.value.isSatisfactory <==> reply.verdict == Some(true))
                 && (d.state.reflection.value.degraded <==> reply.verdict.None?)
    ensures Step(limit, c, Answers(reply)).state.results == c.state.results
    ensures Step(limit, c, Answers(reply)).state.plan == c.state.plan
  {
  }

  // ---- whole runs ----

  /** Where a run stands after its first n inputs. */
  function After(limit: nat, start: Config, inputs: seq<Input>, n: nat): Config
    requires n <= |inputs|
  {
    Run(limit, start, inputs[..n])
  }

  lemma AfterOneMore(limit: nat, start: Config, inputs: seq<Input>, n: nat)
    requires n < |inputs|
    ensures After(limit, start, inputs, n + 1) == Step(limit, After(limit, start, inputs, n), inputs[n])
  {
    assert inputs[..n + 1] == inputs[..n] + [inputs[n]];
    RunAppend(limit, start, inputs[..n], [inputs[n]]);
    assert [inputs[n]][1..] == [];
  }

  /** Only a reflection leads to the replanner: in every run of the service it is the next node if and only
      if the node before was the reflection, below the limit and with all subtasks executed, and its
      answer was an unsatisfied verdict. */
  lemma ReplansFollowUnsatisfied(limit: nat, goal: string, previous: seq<TaskResult>, retryFrom: Option<nat>,
                                 inputs: seq<Input>, n: nat)
    requires n <= |inputs|
    ensures var start := Start(goal, previous, retryFrom);
            After(limit, start, inputs, n).node.Replanner? <==>
              && n > 0 && inputs[n - 1].Answers? && inputs[n - 1].reply.verdict == Some(false)
              && var c := After(limit, start, inputs, n - 1);
                 c.node.ReflectionNode? && Remaining(c.state) == 0 && c.state.iterations < limit
  {
    var start := Start(goal, previous, retryFrom);
    if n > 0 {
      AfterOneMore(limit, start, inputs, n - 1);
      var c := After(limit, start, inputs, n - 1);
      if c.node.ReflectionNode? && inputs[n - 1].Answers? {
        ReflectionRoutes(limit, c, inputs[n - 1].reply);
      } else {
        OtherNodesDoNotReplan(limit, c, inputs[n - 1]);
      }
    }
  }

  lemma OtherNodesDoNotReplan(limit: nat, c: Config, input: Input)
    requires !c.node.ReflectionNode? || input.Raises?
    ensures !Step(limit, c, input).node.Replanner?
  {
  }

  /** ... and once a reflection below the limit with all subtasks executed is answered otherwise, the run
      stays ended, with the report of the results it had, whatever comes. */
  lemma SatisfiedEndsTheRun(limit: nat, c: Config, reply: Reply, rest: seq<Input>)
    requires c.node.ReflectionNode? && Remaining(c.state) == 0 && reply.verdict != Some(false)
    ensures var d := Run(limit, c, [Answers(reply)] + rest);
            d.node.End? && d.state.finalResult == Some(Report(c.state.results, c.state.goal))
            && |d.events| == |c.events| + 1
  {
    RunCons(limit, c, Answers(reply), rest);
    EndedStays(limit, Step(limit, c, Answers(reply)), rest);
  }

  lemma {:induction false} EndedStays(limit: nat, c: Config, inputs: seq<Input>)
    requires Done(c)
    ensures Run(limit, c, inputs) == c
    decreases |inputs|
  {
    if inputs != [] {
      EndedStays(limit, c, inputs[1..]);
    }
  }

  // ---- the other nodes ----

  /** The supervisor sends a run to the sub-agents if and only if several were chosen and assigned. */
  lemma SupervisorRoutes(limit: nat, goal: string, previous: seq<TaskResult>, retryFrom: Option<nat>, reply: Reply)
    ensures var d := Step(limit, Start(goal, previous, retryFrom), Answers(reply));
            && (d.node.SubAgents? <==> reply.mode.MultiAgent? && reply.assignments != [])
            && (d.node.Planner? <==> !d.node.SubAgents?)
            && d.state.mode == Some(if d.node.SubAgents? then MultiAgent else Single)
            && (d.node.SubAgents? ==> d.state.assignments == reply.assignments)
            && d.state.goal == goal && d.state.results == previous
  {
  }

  /** The planner's answer becomes the plan, executed from its first subtask, with no replan counted. */
  lemma PlannerInstalls(limit: nat, c: Config, reply: Reply)
    requires c.node.Planner? && c.state.plan.None?
    ensures var d := Step(limit, c, Answers(reply));
            && d.node.Executor? && d.state.plan == reply.plan && d.state.index == 0 && d.state.iterations == 0
            && d.state.results == c.state.results && d.state.reflection.None? && d.state.finalResult.None?
  {
  }

  /** A replan replaces the plan and starts over, keeping the results; one that fails keeps the plan as it
      is and leaves its error as the result. Either counts. */
  lemma ReplannerInstalls(limit: nat, c: Config, reply: Reply)
    requires c.node.Replanner?
    ensures var d := Step(limit, c, Answers(reply));
            && d.node.Executor? && d.state.iterations == c.state.iterations + 1 && d.state.results == c.state.results
            && (reply.plan.Some? ==> d.state.plan == reply.plan && d.state.index == 0 && d.state.finalResult == c.state.finalResult)
            && (reply.plan.None? ==> d.state.plan == c.state.plan && d.state.index == c.state.index)
            && (reply.plan.None? ==> d.state.finalResult == Some("重新规划失败，终止执行。错误: " + reply.error))
  {
  }

  /** The executor passes to the reflection; without subtasks to look up it says so, and past the end of the
      plan it does nothing. */
  lemma ExecutorWithoutWork(limit: nat, c: Config, reply: Reply)
    requires c.node.Executor? && Remaining(c.state) == 0
    ensures var d := Step(limit, c, Answers(reply));
            && d.node.ReflectionNode? && d.state.plan == c.state.plan && d.state.index == c.state.index
            && d.state.results == c.state.results
            && d.state.finalResult == if c.state.plan.Some? && c.state.plan.value.subtasks.Some? then c.state.finalResult
                                      else Some("无有效执行计划。")
  {
  }

  /** The review of the sub-agents' work is the final result. */
  lemma ReviewerEnds(limit: nat, c: Config, reply: Reply)
    requires c.node.Reviewer?
    ensures var d := Step(limit, c, Answers(reply)); d.node.End? && d.state.finalResult == Some(reply.review)
  {
  }

  // ---- plan versions ----

  /** The event installs a plan that was made. */
  predicate InstallsMadePlan(e: NodeEvent) {
    e.update.plan.Some? && e.update.plan.value.Some?
  }

  /** In every run the plan version counts the plans made. */
  lemma {:induction false} VersionCountsPlans(limit: nat, goal: string, previous: seq<TaskResult>, retryFrom: Option<nat>,
                                              inputs: seq<Input>, n: nat)
    requires n <= |inputs|
    ensures var c := After(limit, Start(goal, previous, retryFrom), inputs, n);
            && c.state.planVersion == Count(c.events, InstallsMadePlan)
            && (!PlanInstalled(c.node) && !Done(c) ==> c.state.planVersion == 0 && c.state.plan.None?)
  {
    if n > 0 {
      VersionCountsPlans(limit, goal, previous, retryFrom, inputs, n - 1);
      AfterOneMore(limit, Start(goal, previous, retryFrom), inputs, n - 1);
      VersionStep(limit, After(limit, Start(goal, previous, retryFrom), inputs, n - 1), inputs[n - 1]);
    }
  }

  predicate PlanInstalled(node: Node) {
    node.Executor? || node.ReflectionNode? || node.Replanner?
  }

  lemma VersionStep(limit: nat, c: Config, input: Input)
    requires c.state.planVersion == Count(c.events, InstallsMadePlan)
    requires !PlanInstalled(c.node) && !Done(c) ==> c.state.planVersion == 0 && c.state.plan.None?
    ensures var d := Step(limit, c, input);
            && d.state.planVersion == Count(d.events, InstallsMadePlan)
            && (!PlanInstalled(d.node) && !Done(d) ==> d.state.planVersion == 0 && d.state.plan.None?)
  {
    if !Done(c) && input.Answers? {
      var e := NodeEvent(c.node, NodeOutput(limit, c.node, c.state, input.reply));
      CountAppend(c.events, [e], InstallsMadePlan);
      assert [e][1..] == [];
    }
  }

  // ---- what the task record shows of the run ----

  /** The status tells which node comes next: replanning exactly before the replanner, reflecting after
      any other reflection, executing after every other node but the supervisor's single-agent choice. */
  ghost predicate StatusFits(c: Config, t: Task, before: TaskStatus) {
    match c.node
    case Supervisor => t.status == before
    case Planner => t.status == before
    case Replanner => t.status.Replanning?
    case Executor => if AfterReflection(c) then t.status.Reflecting? else t.status.Executing?
    case End => if AfterReflection(c) then t.status.Reflecting? else t.status.Executing?
    case Aborted => true
    case _ => t.status.Executing?
  }

  predicate AfterReflection(c: Config) {
    c.events != [] && c.events[|c.events| - 1].node.ReflectionNode?
  }

  predicate IsReplan(e: NodeEvent) {
    e.node.Replanner?
  }

  /** Mode and reflection of the state are those of the task, as soon as they are set. */
  ghost predicate DataFits(c: Config, t: Task, t0: Task) {
    && (c.state.mode.Some? ==> t.executionMode == c.state.mode)
    && (c.state.reflection.Some? ==> t.reflection == c.state.reflection)
    && t.goal == t0.goal && t.finalResult == t0.finalResult && t.error == t0.error
  }

  /** ... and so is the number of replans, as soon as there is one. */
  ghost predicate CountFits(c: Config, t: Task, t0: Task) {
    t.iterationCount == if Count(c.events, IsReplan) > 0 then c.state.iterations else t0.iterationCount
  }

  /** The multi-agent branch is entered in that mode, and nothing is replanned before a plan is made. */
  ghost predicate BranchFits(c: Config) {
    && (c.node.SubAgents? || c.node.Reviewer? ==> c.state.mode == Some(MultiAgent))
    && (!PlanInstalled(c.node) && !Done(c) ==> Count(c.events, IsReplan) == 0)
    && (c.node.Supervisor? ==> c.events == [])
  }

  lemma StatusStep(limit: nat, c: Config, reply: Reply, t: Task, before: TaskStatus)
    requires !Done(c) && StatusFits(c, t, before)
    ensures var d := Step(limit, c, Answers(reply));
            StatusFits(d, HandleEvent(t, d.events[|d.events| - 1]), before)
  {
    if c.node.ReflectionNode? {
      ReflectionRoutes(limit, c, reply);
    }
  }

  lemma DataStep(limit: nat, c: Config, reply: Reply, t: Task, t0: Task)
    requires !Done(c) && DataFits(c, t, t0) && BranchFits(c)
    ensures var d := Step(limit, c, Answers(reply)); DataFits(d, HandleEvent(t, d.events[|d.events| - 1]), t0)
  {
  }

  lemma CountStep(limit: nat, c: Config, reply: Reply, t: Task, t0: Task)
    requires !Done(c) && CountFits(c, t, t0) && BranchFits(c)
    ensures var d := Step(limit, c, Answers(reply)); CountFits(d, HandleEvent(t, d.events[|d.events| - 1]), t0) && BranchFits(d)
  {
    var e := NodeEvent(c.node, NodeOutput(limit, c.node, c.state, reply));
    CountAppend(c.events, [e], IsReplan);
    assert [e][1..] == [];
  }

  ghost predicate RecordFits(c: Config, t: Task, t0: Task) {
    StatusFits(c, t, t0.status) && DataFits(c, t, t0) && CountFits(c, t, t0) && BranchFits(c)
  }

  lemma RecordStep(limit: nat, c: Config, input: Input, t0: Task)
    requires RecordFits(c, HandleEvents(t0, c.events), t0)
    ensures var d := Step(limit, c, input); RecordFits(d, HandleEvents(t0, d.events), t0)
  {
    if !Done(c) && input.Answers? {
      var d := Step(limit, c, input);
      assert d.events[..|d.events| - 1] == c.events;
      StatusStep(limit, c, input.reply, HandleEvents(t0, c.events), t0.status);
      DataStep(limit, c, input.reply, HandleEvents(t0, c.events), t0);
      CountStep(limit, c, input.reply, HandleEvents(t0, c.events), t0);
    }
  }

  lemma {:induction false} RecordFitsFrom(limit: nat, c: Config, inputs: seq<Input>, t0: Task)
    requires RecordFits(c, HandleEvents(t0, c.events), t0)
    ensures var d := Run(limit, c, inputs); RecordFits(d, HandleEvents(t0, d.events), t0)
    decreases |inputs|
  {
    if inputs != [] {
      RecordStep(limit, c, inputs[0], t0);
      RecordFitsFrom(limit, Step(limit, c, inputs[0]), inputs[1..], t0);
    }
  }

  /** In every run of the service, after every handled event, the task record fits the run. */
  lemma RecordFitsRun(limit: nat, goal: string, previous: seq<TaskResult>, retryFrom: Option<nat>, inputs: seq<Input>, t0: Task)
    ensures var c := Run(limit, Start(goal, previous, retryFrom), inputs);
            var t := HandleEvents(t0, c.events);
            StatusFits(c, t, t0.status) && DataFits(c, t, t0) && CountFits(c, t, t0)
  {
    RecordFitsFrom(limit, Start(goal, previous, retryFrom), inputs, t0);
  }
}
