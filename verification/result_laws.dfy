/** What the results of a run say: the answers its subtasks were given, up to the persisted record. */
module ResultLaws {
  import opened Common
  import opened AgentStates
  import opened Scheduler
  import opened Workflow
  import opened TaskModel
  import opened WriteBack
  import opened ReflectionLaws

  /** The result record that an outcome calls for: of the subtask at position k, run alone or in a batch,
      whose failures are shown as texts. */
  predicate IsAnswer(r: TaskResult, tasks: seq<PlanTask>, k: nat, outcome: Outcome, batch: bool) {
    && k < |tasks|
    && r.subtaskId == tasks[k].id.GetOr("task_" + Decimal(k)) && r.description == tasks[k].description
    && match outcome
       case Success(text) => r.status.Completed? && r.result == Some(text) && r.error.None?
       case Failure(error) =>
         && r.status.Failed?
         && if batch then r.result == Some("执行失败: " + error) && r.error.None? else r.result.None? && r.error == Some(error)
  }

  /** One executor step appends one result for each position it runs, in order, with the answer given. */
  lemma ExecutorAnswers(limit: nat, c: Config, reply: Reply, n: nat)
    requires c.node.Executor? && n < |ChosenNow(c.state)|
    ensures var results, chosen := Step(limit, c, Answers(reply)).state.results, ChosenNow(c.state);
            && |results| == |c.state.results| + |chosen| && results[..|c.state.results|] == c.state.results
            && IsAnswer(results[|c.state.results| + n], Subtasks(c.state), chosen[n], reply.outcome(chosen[n]), |chosen| > 1)
  {
    assert ChosenNow(c.state)[n] in ChosenNow(c.state);
  }

  /** No other node adds a result, unless an existing plan is taken up again. */
  lemma OthersAddNothing(limit: nat, c: Config, input: Input)
    requires c.node.Planner? ==> c.state.plan.None?
    requires !(c.node.Executor? && input.Answers? && ChosenNow(c.state) != [])
    ensures Step(limit, c, input).state.results == c.state.results
  {
  }

  lemma PlanIsNewAtPlanner(limit: nat, goal: string, previous: seq<TaskResult>, retryFrom: Option<nat>, inputs: seq<Input>, n: nat)
    requires n <= |inputs|
    ensures var c := After(limit, Start(goal, previous, retryFrom), inputs, n); c.node.Planner? ==> c.state.plan.None?
  {
    VersionCountsPlans(limit, goal, previous, retryFrom, inputs, n);
  }

  /** Every result of a run, beyond those it started with, is the answer to some executor step: it was at
      that time that the subtask at position k of the plan was run. */
  lemma {:induction false} EveryResultIsAnAnswer(limit: nat, goal: string, previous: seq<TaskResult>, retryFrom: Option<nat>,
                                                 inputs: seq<Input>, n: nat, i: nat) returns (m: nat, k: nat)
    requires n <= |inputs| && |previous| <= i < |After(limit, Start(goal, previous, retryFrom), inputs, n).state.results|
    ensures m < n && inputs[m].Answers?
    ensures var c := After(limit, Start(goal, previous, retryFrom), inputs, m);
            && c.node.Executor? && k in ChosenNow(c.state)
            && IsAnswer(After(limit, Start(goal, previous, retryFrom), inputs, n).state.results[i], Subtasks(c.state), k,
                        inputs[m].reply.outcome(k), |ChosenNow(c.state)| > 1)
  {
    var start := Start(goal, previous, retryFrom);
    if n == 0 {
      assert false;
    } else {
      AfterOneMore(limit, start, inputs, n - 1);
      var c := After(limit, start, inputs, n - 1);
      if c.node.Executor? && inputs[n - 1].Answers? && ChosenNow(c.state) != [] {
        var reply := inputs[n - 1].reply;
        ExecutorAnswers(limit, c, reply, 0);
        if i >= |c.state.results| {
          m, k := n - 1, ChosenNow(c.state)[i - |c.state.results|];
          ExecutorAnswers(limit, c, reply, i - |c.state.results|);
        } else {
          m, k := EveryResultIsAnAnswer(limit, goal, previous, retryFrom, inputs, n - 1, i);
        }
      } else {
        PlanIsNewAtPlanner(limit, goal, previous, retryFrom, inputs, n - 1);
        OthersAddNothing(limit, c, inputs[n - 1]);
        m, k := EveryResultIsAnAnswer(limit, goal, previous, retryFrom, inputs, n - 1, i);
      }
    }
  }

  // ---- up to the persisted subtasks ----

  predicate Serial(s: AgentState) {
    s.plan.Some? && !HasDependencyKey(Items(Subtasks(s)))
  }

  lemma SerialAfter(limit: nat, goal: string, previous: seq<TaskResult>, retryFrom: Option<nat>, inputs: seq<Input>, n: nat)
    requires n <= |inputs|
    ensures SerialInv(After(limit, Start(goal, previous, retryFrom), inputs, n))
  {
    RunKeepsSerial(limit, Start(goal, previous, retryFrom), inputs[..n]);
  }

  /** How the results under a plan without dependencies grow. */
  lemma SerialGrowth(limit: nat, c: Config, input: Input)
    requires SerialInv(c) && Serial(Step(limit, c, input).state)
    ensures var d := Step(limit, c, input);
            var before, now := ResultsUnderPlan(c.events), ResultsUnderPlan(d.events);
            || now == []
            || (now == before && d.state.plan == c.state.plan)
            || (c.node.Executor? && input.Answers? && d.state.plan == c.state.plan && c.state.index == |before| < |Subtasks(c.state)|
                && |now| == |before| + 1 && now[..|before|] == before
                && IsAnswer(now[|before|], Subtasks(c.state), |before|, input.reply.outcome(|before|), false))
  {
    if !Done(c) && input.Answers? {
      var e := NodeEvent(c.node, NodeOutput(limit, c.node, c.state, input.reply));
      assert (c.events + [e])[..|c.events|] == c.events;
      if c.node.Executor? && c.state.plan.Some? && c.state.index < |Subtasks(c.state)| {
        assert ChosenNow(c.state) == [c.state.index];
      }
    }
  }

  /** The step in which the i-th subtask of the current plan, which has no dependencies, was run. */
  lemma {:induction false} SerialAnswer(limit: nat, goal: string, previous: seq<TaskResult>, retryFrom: Option<nat>,
                                        inputs: seq<Input>, n: nat, i: nat) returns (m: nat)
    requires n <= |inputs|
    requires var c := After(limit, Start(goal, previous, retryFrom), inputs, n); Serial(c.state) && i < |ResultsUnderPlan(c.events)|
    ensures m < n && inputs[m].Answers?
    ensures var b, c := After(limit, Start(goal, previous, retryFrom), inputs, m), After(limit, Start(goal, previous, retryFrom), inputs, n);
            && b.node.Executor? && b.state.plan == c.state.plan && b.state.index == i
            && IsAnswer(ResultsUnderPlan(c.events)[i], Subtasks(c.state), i, inputs[m].reply.outcome(i), false)
  {
    var start := Start(goal, previous, retryFrom);
    if n == 0 {
      assert false;
    } else {
      var b, c := After(limit, start, inputs, n - 1), After(limit, start, inputs, n);
      AfterOneMore(limit, start, inputs, n - 1);
      SerialAfter(limit, goal, previous, retryFrom, inputs, n - 1);
      SerialGrowth(limit, b, inputs[n - 1]);
      if i < |ResultsUnderPlan(b.events)| {
        m := SerialAnswer(limit, goal, previous, retryFrom, inputs, n - 1, i);
      } else {
        m := n - 1;
      }
    }
  }

  /** The record of a subtask that was answered. */
  predicate Shows(t: SubTask, tasks: seq<PlanTask>, k: nat, outcome: Outcome) {
    && k < |tasks|
    && t.id == tasks[k].id.GetOr("task_" + Decimal(k)) && t.description == tasks[k].description
    && match outcome
       case Success(text) => t.status.Completed? && t.result == Some(text) && t.error.None?
       case Failure(error) => t.status.Failed? && t.result.None? && t.error == Some(error)
  }

  /** For a plan without "depends_on" and with distinct ids: every persisted subtask below the current
      index holds the answer it was given when the run was at that index; the others are new. */
  lemma PersistedSubtaskHoldsAnswer(limit: nat, goal: string, previous: seq<TaskResult>, retryFrom: Option<nat>,
                                    inputs: seq<Input>, t0: Task, i: nat) returns (m: nat)
    requires var c := Run(limit, Start(goal, previous, retryFrom), inputs);
             && NonEmptyPlan(c.state.plan) && !HasDependencyKey(Items(Subtasks(c.state))) && DistinctIds(Items(Subtasks(c.state)))
             && i < c.state.index
    ensures m < |inputs| && inputs[m].Answers?
    ensures var b := Run(limit, Start(goal, previous, retryFrom), inputs[..m]);
            var c := Run(limit, Start(goal, previous, retryFrom), inputs);
            var t := HandleEvents(t0, c.events);
            && b.node.Executor? && b.state.plan == c.state.plan && b.state.index == i
            && i < |t.subtasks| && Shows(t.subtasks[i], Subtasks(c.state), i, inputs[m].reply.outcome(i))
  {
    assert inputs[..|inputs|] == inputs;
    var c := Run(limit, Start(goal, previous, retryFrom), inputs);
    SerialAfter(limit, goal, previous, retryFrom, inputs, |inputs|);
    PersistedSerialView(limit, goal, previous, retryFrom, inputs, t0);
    m := SerialAnswer(limit, goal, previous, retryFrom, inputs, |inputs|, i);
    var t := HandleEvents(t0, c.events);
    assert t.subtasks[i] == Written(FreshSubtasks(c.state.plan.value)[i], ResultsUnderPlan(c.events)[i]);
  }

  /** ... and a subtask from the index on is named and described as in the plan, and pending. */
  lemma PersistedSubtaskIsNew(limit: nat, goal: string, previous: seq<TaskResult>, retryFrom: Option<nat>,
                              inputs: seq<Input>, t0: Task, i: nat)
    requires var c := Run(limit, Start(goal, previous, retryFrom), inputs);
             && NonEmptyPlan(c.state.plan) && !HasDependencyKey(Items(Subtasks(c.state))) && DistinctIds(Items(Subtasks(c.state)))
             && c.state.index <= i < |Subtasks(c.state)|
    ensures var c := Run(limit, Start(goal, previous, retryFrom), inputs);
            var t := HandleEvents(t0, c.events);
            && |t.subtasks| == |Subtasks(c.state)|
            && t.subtasks[i].id == Subtasks(c.state)[i].id.GetOr("task_" + Decimal(i))
            && t.subtasks[i].description == Subtasks(c.state)[i].description
            && t.subtasks[i].status.Pending? && t.subtasks[i].result.None? && t.subtasks[i].error.None?
  {
    PersistedSerialView(limit, goal, previous, retryFrom, inputs, t0);
  }

  // ---- up to the final report ----

  ghost predicate Contains(text: string, part: string) {
    exists a: string, b: string :: Around(text, a, part, b)
  }

  predicate Around(text: string, a: string, part: string, b: string) {
    text == a + part + b
  }

  lemma ContainsInside(a: string, text: string, b: string, part: string)
    requires Contains(text, part)
    ensures Contains(a + text + b, part)
  {
    var x: string, y: string :| Around(text, x, part, y);
    assert a + text + b == (a + x) + part + (y + b);
    assert Around(a + text + b, a + x, part, y + b);
  }

  lemma ContainsItself(a: string, part: string, b: string)
    ensures Contains(a + part + b, part)
  {
    assert Around(a + part + b, a, part, b);
  }

  lemma OneSideContains(a: string, b: string, part: string)
    ensures Contains(a, part) || Contains(b, part) ==> Contains(a + b, part)
  {
    if Contains(a, part) {
      ContainsInside("", a, b, part);
      assert "" + a + b == a + b;
    }
    if Contains(b, part) {
      ContainsInside(a, b, "", part);
      assert a + b + "" == a + b;
    }
  }

  lemma {:induction false} SectionsContain(results: seq<TaskResult>, i: nat, part: string)
    requires i < |results| && Contains(Section(i + 1, results[i]), part)
    ensures Contains(Sections(results), part)
  {
    var init, last := results[..|results| - 1], Section(|results|, results[|results| - 1]);
    if i < |results| - 1 {
      SectionsContain(init, i, part);
    }
    OneSideContains(Sections(init), last, part);
  }

  /** The parts of a section: number and description, status, and the texts there are. */
  lemma SectionShows(i: nat, r: TaskResult)
    ensures Contains(Section(i, r), "## 步骤 " + Decimal(i) + ": " + r.description)
    ensures Contains(Section(i, r), if r.status.Completed? then "**状态**: completed" else "**状态**: failed")
    ensures r.result.Some? && r.result.value != "" ==> Contains(Section(i, r), r.result.value)
    ensures r.error.Some? && r.error.value != "" ==> Contains(Section(i, r), r.error.value)
  {
    var title, status := "## 步骤 " + Decimal(i) + ": " + r.description, "**状态**: " + (if r.status.Completed? then "completed" else "failed");
    var result := if Truthy(r.result) then "\n" + ("**结果**:\n" + r.result.value + "\n") else "";
    var error := if Truthy(r.error) then "\n" + ("**错误**: " + r.error.value + "\n") else "";
    var head, state := "\n" + title, "\n" + (status + "\n");
    assert Section(i, r) == head + state + result + error;
    FirstPart(head, state, result, error, title);
    SecondPart(head, state, result, error, status);
    assert status == if r.status.Completed? then "**状态**: completed" else "**状态**: failed";
    if r.result.Some? && r.result.value != "" {
      ThirdPart(head + state, "**结果**:\n", r.result.value, error);
    }
    if r.error.Some? && r.error.value != "" {
      ThirdPart(head + state + result, "**错误**: ", r.error.value, "");
      assert head + state + result + error + "" == head + state + result + error;
    }
  }

  lemma FirstPart(head: string, state: string, result: string, error: string, title: string)
    requires head == "\n" + title
    ensures Contains(head + state + result + error, title)
  {
    ContainsItself("\n", title, state + result + error);
    assert "\n" + title + (state + result + error) == head + state + result + error;
  }

  lemma SecondPart(head: string, state: string, result: string, error: string, status: string)
    requires state == "\n" + (status + "\n")
    ensures Contains(head + state + result + error, status)
  {
    ContainsItself(head + "\n", status, "\n" + result + error);
    assert head + "\n" + status + ("\n" + result + error) == head + state + result + error;
  }

  lemma ThirdPart(before: string, caption: string, text: string, after: string)
    ensures Contains(before + ("\n" + (caption + text + "\n")) + after, text)
  {
    ContainsItself(before + "\n" + caption, text, "\n" + after);
    assert before + "\n" + caption + text + ("\n" + after) == before + ("\n" + (caption + text + "\n")) + after;
  }

  /** The final report names the goal, and for every result its number, description and status, and the
      text or error it has. */
  lemma ReportShowsEveryResult(results: seq<TaskResult>, goal: string, i: nat)
    requires i < |results|
    ensures var report, r := Report(results, goal), results[i];
            && Contains(report, "# 任务执行结果\n\n**目标**: " + goal)
            && Contains(report, "## 步骤 " + Decimal(i + 1) + ": " + r.description)
            && Contains(report, if r.status.Completed? then "**状态**: completed" else "**状态**: failed")
            && (r.result.Some? && r.result.value != "" ==> Contains(report, r.result.value))
            && (r.error.Some? && r.error.value != "" ==> Contains(report, r.error.value))
  {
    ReportShowsGoal(results, goal);
    var r := results[i];
    SectionShows(i + 1, r);
    ReportContains(results, goal, i, "## 步骤 " + Decimal(i + 1) + ": " + r.description);
    ReportContains(results, goal, i, if r.status.Completed? then "**状态**: completed" else "**状态**: failed");
    if r.result.Some? && r.result.value != "" {
      ReportContains(results, goal, i, r.result.value);
    }
    if r.error.Some? && r.error.value != "" {
      ReportContains(results, goal, i, r.error.value);
    }
  }

  lemma ReportShowsGoal(results: seq<TaskResult>, goal: string)
    ensures Contains(Report(results, goal), "# 任务执行结果\n\n**目标**: " + goal)
  {
    var heading := "# 任务执行结果\n\n**目标**: " + goal;
    ContainsItself("", heading, "\n" + Sections(results));
    assert "" + heading + ("\n" + Sections(results)) == Heading(goal) + Sections(results);
  }

  lemma ReportContains(results: seq<TaskResult>, goal: string, i: nat, part: string)
    requires i < |results| && Contains(Section(i + 1, results[i]), part)
    ensures Contains(Report(results, goal), part)
  {
    SectionsContain(results, i, part);
    ContainsInside(Heading(goal), Sections(results), "", part);
    assert Heading(goal) + Sections(results) + "" == Report(results, goal);
  }
}
