/** What the executor does over a whole run of the workflow. */
module ExecutorRuns {
  import opened Common
  import opened AgentStates
  import opened Scheduler
  import opened LevelScheduling
  import opened Workflow
  import opened WorkflowTermination

  /** One executor step: the version of the plan it worked on, what it saw, and what it ran. */
  datatype Round = Round(version: nat, items: seq<Item>, idx: nat, done: set<string>, ran: seq<nat>)

  predicate InstallsPlan(c: Config, input: Input) {
    c.node.Planner? || (c.node.Replanner? && input.Answers? && input.reply.plan.Some?)
  }

  function RoundsOf(c: Config, input: Input, version: nat): seq<Round> {
    if c.node.Executor? && input.Answers? && ChosenNow(c.state) != []
    then [Round(version, Items(Subtasks(c.state)), c.state.index, CompletedIds(c.state.results), ChosenNow(c.state))]
    else []
  }

  function VersionAfter(c: Config, input: Input, version: nat): nat {
    if InstallsPlan(c, input) then version + 1 else version
  }

  /** The executor steps of a run, in order; version counts the plans installed so far. */
  function Trace(limit: nat, c: Config, inputs: seq<Input>, version: nat): seq<Round>
    decreases |inputs|
  {
    if inputs == [] then []
    else RoundsOf(c, inputs[0], version)
         + Trace(limit, Step(limit, c, inputs[0]), inputs[1..], VersionAfter(c, inputs[0], version))
  }

  /** No step of the trace works on an older plan, nor goes back within the current one. */
  lemma {:induction false} RoundsLieAhead(limit: nat, c: Config, inputs: seq<Input>, version: nat)
    ensures forall r, k | r in Trace(limit, c, inputs, version) && k in r.ran ::
              r.version > version || (r.version == version && k >= c.state.index)
    decreases |inputs|
  {
    if inputs != [] {
      RoundsLieAhead(limit, Step(limit, c, inputs[0]), inputs[1..], VersionAfter(c, inputs[0], version));
    }
  }

  /** Within one plan version later steps run later positions. */
  ghost predicate Forward(t: seq<Round>) {
    forall a, b | 0 <= a < b < |t| :: t[a].version == t[b].version ==> Before(t[a], t[b])
  }

  ghost predicate Before(r: Round, q: Round) {
    forall i, k | i in r.ran && k in q.ran :: i < k
  }

  lemma ForwardPrepend(r: Round, rest: seq<Round>)
    requires Forward(rest)
    requires forall q | q in rest :: r.version == q.version ==> Before(r, q)
    ensures Forward([r] + rest)
  {
    var t := [r] + rest;
    forall a, b | 0 <= a < b < |t| && t[a].version == t[b].version ensures Before(t[a], t[b]) {
      assert t[b] == rest[b - 1];
      if a > 0 {
        assert t[a] == rest[a - 1];
      }
    }
  }

  /** ... so no position is run twice under one plan, in any run. */
  lemma {:induction false} NoPositionRunsTwice(limit: nat, c: Config, inputs: seq<Input>, version: nat)
    ensures Forward(Trace(limit, c, inputs, version))
    decreases |inputs|
  {
    if inputs != [] {
      var d, v := Step(limit, c, inputs[0]), VersionAfter(c, inputs[0], version);
      NoPositionRunsTwice(limit, d, inputs[1..], v);
      RoundsLieAhead(limit, d, inputs[1..], v);
      var here, rest := RoundsOf(c, inputs[0], version), Trace(limit, d, inputs[1..], v);
      if here != [] {
        ChosenIsSorted(here[0].items, here[0].idx, here[0].done);
        ForwardPrepend(here[0], rest);
      } else {
        assert here + rest == rest;
      }
    }
  }

  /** The members of a parallel batch had all their dependencies completed before the step, and
      do not depend on one another; the positions the step jumped over were completed already or
      had an unmet dependency. */
  ghost predicate SafeRound(r: Round) {
    && r.idx < |r.items|
    && r.ran == Chosen(r.items, r.idx, r.done)
    && (|r.ran| > 1 ==>
          && (forall k, d | k in r.ran && d in r.items[k].deps :: d in r.done)
          && (forall k, m | k in r.ran && m in r.ran :: r.items[m].id !in r.items[k].deps))
    && forall k | r.idx <= k < Next(r.items, r.idx, r.done) && k !in r.ran ::
         r.items[k].id in r.done || exists d | d in r.items[k].deps :: d !in r.done
  }

  lemma {:induction false} EveryBatchIsSafe(limit: nat, c: Config, inputs: seq<Input>, version: nat)
    ensures forall r | r in Trace(limit, c, inputs, version) :: SafeRound(r)
    decreases |inputs|
  {
    if inputs != [] {
      EveryBatchIsSafe(limit, Step(limit, c, inputs[0]), inputs[1..], VersionAfter(c, inputs[0], version));
      var here := RoundsOf(c, inputs[0], version);
      if here != [] {
        BatchIsSafe(here[0].items, here[0].idx, here[0].done);
        assert SafeRound(here[0]);
      }
    }
  }

  // ---- the workflow follows the schedule ----

  /** Which subtasks of a list of positions succeed. */
  function Succeeded(positions: set<nat>, outcome: nat -> Outcome): set<nat> {
    set k | k in positions && outcome(k).Success?
  }

  /** A step completes exactly the ids of the subtasks that succeed. */
  lemma {:induction false} ResultsComplete(tasks: seq<PlanTask>, chosen: seq<nat>, outcome: nat -> Outcome)
    requires forall k | k in chosen :: k < |tasks|
    ensures CompletedIds(ResultsOf(tasks, chosen, outcome)) == IdsOf(Items(tasks), Succeeded((set k | k in chosen), outcome))
  {
    var results, positions := ResultsOf(tasks, chosen, outcome), Succeeded((set k | k in chosen), outcome);
    forall n | 0 <= n < |chosen|
      ensures chosen[n] < |tasks| && (results[n].status.Completed? <==> outcome(chosen[n]).Success?)
      ensures results[n].subtaskId == Items(tasks)[chosen[n]].id
    {
      assert chosen[n] in chosen;
    }
    forall id | id in IdsOf(Items(tasks), positions) ensures id in CompletedIds(results) {
      var k :| k in positions && Items(tasks)[k].id == id;
      var n :| 0 <= n < |chosen| && chosen[n] == k;
      assert results[n] in results;
    }
    forall id | id in CompletedIds(results) ensures id in IdsOf(Items(tasks), positions) {
      var r :| r in results && r.status.Completed? && r.subtaskId == id;
      var n :| 0 <= n < |results| && results[n] == r;
      assert chosen[n] in positions;
    }
  }

  function RanSets(t: seq<Round>): seq<set<nat>> {
    if t == [] then [] else [set k | k in t[0].ran] + RanSets(t[1..])
  }

  lemma ReflectionGoesOn(limit: nat, d: Config, reply: Reply)
    requires d.node.ReflectionNode? && d.state.iterations < limit
    ensures var e := Step(limit, d, Answers(reply));
            && e.state.plan == d.state.plan && e.state.iterations == d.state.iterations
            && e.state.index == d.state.index && e.state.results == d.state.results
            && (Remaining(d.state) > 0 ==> e.node.Executor?)
  {
  }

  /** Where the executor stands in state s, when ok says what succeeds and this is its n-th step. */
  function FrontOf(s: AgentState, ok: Successes, n: nat): Front {
    Front(Items(Subtasks(s)), s.index, CompletedIds(s.results), ok, n)
  }

  lemma ExecutorAdvances(limit: nat, c: Config, reply: Reply, ok: Successes, n: nat)
    requires c.node.Executor? && c.state.index < |Subtasks(c.state)|
    requires forall i: nat :: ok(n, i) <==> reply.outcome(i).Success?
    ensures var d := Step(limit, c, Answers(reply));
            && d.node.ReflectionNode?
            && d.state.plan == c.state.plan && d.state.iterations == c.state.iterations
            && FrontOf(d.state, ok, n + 1) == Advanced(FrontOf(c.state, ok, n))
  {
    var chosen := ChosenNow(c.state);
    var f := FrontOf(c.state, ok, n);
    ResultsComplete(Subtasks(c.state), chosen, reply.outcome);
    CompletedIdsAppend(c.state.results, ResultsOf(Subtasks(c.state), chosen, reply.outcome));
    assert (set k | k in Current(f) && ok(n, k)) == Succeeded((set k | k in chosen), reply.outcome);
  }

  /** The executor and the reflection after it, with the k-th input and the next. */
  function TwoNodes(limit: nat, c: Config, oracle: nat -> Input, k: nat): Config {
    Step(limit, Step(limit, c, oracle(k)), oracle(k + 1))
  }

  /** What succeeds in the n-th executor step, when two inputs are given for each step. */
  function Succeeding(oracle: nat -> Input): Successes {
    (n: nat, i: nat) => oracle(2 * n).Answers? && oracle(2 * n).reply.outcome(i).Success?
  }

  ghost predicate AllAnswer(oracle: nat -> Input) {
    forall k: nat :: oracle(k).Answers?
  }

  /** One executor step, whatever succeeds in it, and the reflection after it. */
  lemma ExecutorStep(limit: nat, c: Config, oracle: nat -> Input, n: nat)
    requires c.node.Executor? && c.state.iterations < limit && AllAnswer(oracle)
    requires c.state.index < |Subtasks(c.state)|
    ensures var e := TwoNodes(limit, c, oracle, 2 * n);
            && e.state.plan == c.state.plan && e.state.iterations == c.state.iterations
            && FrontOf(e.state, Succeeding(oracle), n + 1) == Advanced(FrontOf(c.state, Succeeding(oracle), n))
            && (Remaining(e.state) > 0 ==> e.node.Executor?)
  {
    ExecutorAdvances(limit, c, oracle(2 * n).reply, Succeeding(oracle), n);
    ReflectionGoesOn(limit, Step(limit, c, oracle(2 * n)), oracle(2 * n + 1).reply);
  }

  /** Feeding m + 2 inputs: the first two, and the rest. */
  lemma TwoSteps(limit: nat, c: Config, oracle: nat -> Input, k: nat, version: nat, m: nat)
    requires c.node.Executor? && c.state.index < |Subtasks(c.state)| && oracle(k).Answers? && oracle(k + 1).Answers?
    ensures var e := TwoNodes(limit, c, oracle, k);
            && Run(limit, c, Inputs(oracle, k, m + 2)) == Run(limit, e, Inputs(oracle, k + 2, m))
            && RanSets(Trace(limit, c, Inputs(oracle, k, m + 2), version))
               == [StepSet(Items(Subtasks(c.state)), c.state.index, CompletedIds(c.state.results))]
                  + RanSets(Trace(limit, e, Inputs(oracle, k + 2, m), version))
  {
    var d := Step(limit, c, oracle(k));
    var e := TwoNodes(limit, c, oracle, k);
    assert d.node.ReflectionNode?;
    assert Inputs(oracle, k, m + 2)[1..] == Inputs(oracle, k + 1, m + 1);
    assert Inputs(oracle, k + 1, m + 1)[1..] == Inputs(oracle, k + 2, m);
    var here, later := RoundsOf(c, oracle(k), version), Trace(limit, e, Inputs(oracle, k + 2, m), version);
    assert Trace(limit, d, Inputs(oracle, k + 1, m + 1), version) == later;
    assert Trace(limit, c, Inputs(oracle, k, m + 2), version) == here + later;
    assert (here + later)[1..] == later;
  }

  /** With the m inputs from the k-th on the executor takes these steps and the plan comes to its end. */
  ghost predicate Takes(limit: nat, c: Config, oracle: nat -> Input, k: nat, m: nat, version: nat, steps: seq<set<nat>>) {
    && RanSets(Trace(limit, c, Inputs(oracle, k, m), version)) == steps
    && Run(limit, c, Inputs(oracle, k, m)).state.index == |Subtasks(c.state)|
  }

  /** ... when two inputs are given for each step, the n-th step being the first. */
  ghost predicate Follows(limit: nat, c: Config, oracle: nat -> Input, n: nat, version: nat, steps: seq<set<nat>>) {
    Takes(limit, c, oracle, 2 * n, 2 * |steps|, version, steps)
  }

  lemma TakesStep(limit: nat, c: Config, e: Config, oracle: nat -> Input, k: nat, m: nat, version: nat, rest: seq<set<nat>>)
    requires c.node.Executor? && c.state.index < |Subtasks(c.state)| && oracle(k).Answers? && oracle(k + 1).Answers?
    requires e == TwoNodes(limit, c, oracle, k) && Subtasks(e.state) == Subtasks(c.state) && m >= 2
    ensures Takes(limit, e, oracle, k + 2, m - 2, version, rest) ==>
              Takes(limit, c, oracle, k, m, version,
                    [StepSet(Items(Subtasks(c.state)), c.state.index, CompletedIds(c.state.results))] + rest)
  {
    TwoSteps(limit, c, oracle, k, version, m - 2);
  }

  lemma FrontAfter(limit: nat, c: Config, e: Config, oracle: nat -> Input, n: nat, k: nat, f: Front)
    requires c.node.Executor? && c.state.iterations < limit && AllAnswer(oracle)
    requires c.state.index < |Subtasks(c.state)| && f == FrontOf(c.state, Succeeding(oracle), n) && k == 2 * n
    requires e == TwoNodes(limit, c, oracle, k)
    ensures Subtasks(e.state) == Subtasks(c.state) && e.state.iterations == c.state.iterations
    ensures FrontOf(e.state, Succeeding(oracle), n + 1) == Advanced(f)
    ensures e.state.index < |Subtasks(e.state)| ==> e.node.Executor?
  {
    ExecutorStep(limit, c, oracle, n);
  }

  lemma StepTaken(limit: nat, c: Config, e: Config, oracle: nat -> Input, k: nat, m: nat, version: nat, f: Front)
    requires c.node.Executor? && AllAnswer(oracle)
    requires f.idx < |f.items| && f.items == Items(Subtasks(c.state)) && f.idx == c.state.index && f.done == CompletedIds(c.state.results)
    requires e == TwoNodes(limit, c, oracle, k) && Subtasks(e.state) == Subtasks(c.state) && m >= 2
    ensures Takes(limit, e, oracle, k + 2, m - 2, version, Schedule(Advanced(f))) ==> Takes(limit, c, oracle, k, m, version, Schedule(f))
  {
    assert Schedule(f) == [Current(f)] + Schedule(Advanced(f));
    TakesStep(limit, c, e, oracle, k, m, version, Schedule(Advanced(f)));
  }

  lemma NextCounts(n: nat, k: nat, m: nat, f: Front)
    requires f.idx < |f.items| && k == 2 * n && m == 2 * |Schedule(f)|
    ensures m >= 2 && m - 2 == 2 * |Schedule(Advanced(f))| && k + 2 == 2 * (n + 1)
  {
  }

  /** The configuration after one executor step, whatever succeeds in it, and the reflection after it. */
  lemma FirstStep(limit: nat, c: Config, oracle: nat -> Input, n: nat, k: nat, m: nat, version: nat, f: Front)
    returns (e: Config, g: Front, k': nat, m': nat)
    requires c.node.Executor? && c.state.iterations < limit && AllAnswer(oracle)
    requires f.idx < |f.items| && f == FrontOf(c.state, Succeeding(oracle), n)
    requires k == 2 * n && m == 2 * |Schedule(f)|
    ensures g == FrontOf(e.state, Succeeding(oracle), n + 1) && g.items == f.items && f.idx < g.idx <= |g.items|
    ensures e.state.iterations == c.state.iterations && (g.idx < |g.items| ==> e.node.Executor?)
    ensures k' == 2 * (n + 1) && m' == 2 * |Schedule(g)|
    ensures Takes(limit, e, oracle, k', m', version, Schedule(g)) ==> Takes(limit, c, oracle, k, m, version, Schedule(f))
  {
    NextCounts(n, k, m, f);
    e, g, k', m' := TwoNodes(limit, c, oracle, k), Advanced(f), k + 2, m - 2;
    FrontAfter(limit, c, e, oracle, n, k, f);
    StepTaken(limit, c, e, oracle, k, m, version, f);
  }

  lemma TakesNothing(limit: nat, c: Config, oracle: nat -> Input, k: nat, m: nat, version: nat, f: Front)
    requires c.state.index == |Subtasks(c.state)| && f.idx == |f.items|
    requires m == 2 * |Schedule(f)|
    ensures Takes(limit, c, oracle, k, m, version, Schedule(f))
  {
  }

  lemma {:induction false} TakesSchedule(limit: nat, c: Config, oracle: nat -> Input, n: nat, k: nat, m: nat, version: nat, f: Front)
    requires c.state.iterations < limit && AllAnswer(oracle)
    requires f == FrontOf(c.state, Succeeding(oracle), n) && f.idx <= |f.items| && (f.idx < |f.items| ==> c.node.Executor?)
    requires k == 2 * n && m == 2 * |Schedule(f)|
    ensures Takes(limit, c, oracle, k, m, version, Schedule(f))
    decreases |f.items| - f.idx
  {
    if f.idx == |f.items| {
      TakesNothing(limit, c, oracle, k, m, version, f);
    } else {
      var e, g, k', m' := FirstStep(limit, c, oracle, n, k, m, version, f);
      TakesSchedule(limit, e, oracle, n + 1, k', m', version, g);
    }
  }

  /** Below the replan limit executor and reflection alternate and the executor takes exactly the steps
      of the schedule, whatever succeeds or fails and whatever else the answers say. So the theorems
      about Schedule are theorems about the workflow. */
  lemma WorkflowFollowsSchedule(limit: nat, c: Config, oracle: nat -> Input, n: nat, version: nat)
    requires c.node.Executor? && c.state.iterations < limit && AllAnswer(oracle)
    requires c.state.index <= |Subtasks(c.state)|
    ensures Follows(limit, c, oracle, n, version, Schedule(FrontOf(c.state, Succeeding(oracle), n)))
  {
    var f := FrontOf(c.state, Succeeding(oracle), n);
    TakesSchedule(limit, c, oracle, n, 2 * n, 2 * |Schedule(f)|, version, f);
  }

  /** The sets of positions that the executor runs from c on, step by step, until the plan is at its
      end or the run is. */
  function ExecutorSteps(limit: nat, c: Config, oracle: nat -> Input, version: nat): seq<set<nat>> {
    RanSets(Trace(limit, c, Inputs(oracle, 0, 2 * |Schedule(FrontOf(c.state, Succeeding(oracle), 0))|), version))
  }

  lemma StepsAreSchedule(limit: nat, c: Config, oracle: nat -> Input, version: nat)
    requires c.node.Executor? && c.state.iterations < limit && c.state.index <= |Subtasks(c.state)| && AllAnswer(oracle)
    ensures ExecutorSteps(limit, c, oracle, version) == Schedule(FrontOf(c.state, Succeeding(oracle), 0))
  {
    var f := FrontOf(c.state, Succeeding(oracle), 0);
    TakesSchedule(limit, c, oracle, 0, 0, 2 * |Schedule(f)|, version, f);
  }

  lemma ItemsCarryDeps(tasks: seq<PlanTask>)
    ensures KeysCarryDeps(Items(tasks))
  {
  }

  /** For every plan, whatever its ids and earlier results, and whatever succeeds or fails: below the
      replan limit the workflow runs every subtask if and only if the plan has no dependencies or is
      listed level by level; each after its dependencies were completed if and only if these are on
      lower levels; and then it takes one executor step per level and runs exactly that level in it. */
  lemma WorkflowIsCorrectIffLevelOrdered(limit: nat, c: Config, oracle: nat -> Input, version: nat)
    requires c.node.Executor? && c.state.iterations < limit && c.state.index == 0 && AllAnswer(oracle)
    ensures var f := FrontOf(c.state, Succeeding(oracle), 0);
            var steps := ExecutorSteps(limit, c, oracle, version);
            && (RunsAll(f, steps) <==> !HasDependencyKey(f.items) || exists lev :: Listed(f, lev))
            && (Correct(f, steps) <==> !HasDependencyKey(f.items) || exists lev :: LevelOrdered(f, lev))
            && forall lev | HasDependencyKey(f.items) && Listed(f, lev) :: OneLevelPerStep(f, lev, steps)
  {
    var f := FrontOf(c.state, Succeeding(oracle), 0);
    StepsAreSchedule(limit, c, oracle, version);
    ItemsCarryDeps(Subtasks(c.state));
    RunsAllIffListed(f);
    SchedulesCorrectlyIffLevelOrdered(f);
    forall lev | HasDependencyKey(f.items) && Listed(f, lev) ensures OneLevelPerStep(f, lev, Schedule(f)) {
      LevelsRunOnePerStep(f, lev);
    }
  }

  // ---- at the replan limit ----

  /** At the limit the executor takes a single step, whatever is left. */
  lemma OneStepAtLimit(limit: nat, c: Config, oracle: nat -> Input, version: nat)
    requires c.node.Executor? && c.state.iterations >= limit && AllAnswer(oracle)
    requires c.state.index < |Subtasks(c.state)|
    ensures ExecutorSteps(limit, c, oracle, version) == [Current(FrontOf(c.state, Succeeding(oracle), 0))]
  {
    StepThenNothing(limit, c, oracle, version, 2 * |Schedule(FrontOf(c.state, Succeeding(oracle), 0))|);
  }

  lemma StepThenNothing(limit: nat, c: Config, oracle: nat -> Input, version: nat, m: nat)
    requires c.node.Executor? && c.state.iterations >= limit && AllAnswer(oracle)
    requires c.state.index < |Subtasks(c.state)| && m >= 2
    ensures RanSets(Trace(limit, c, Inputs(oracle, 0, m), version))
            == [StepSet(Items(Subtasks(c.state)), c.state.index, CompletedIds(c.state.results))]
  {
    TwoSteps(limit, c, oracle, 0, version, m - 2);
    EndedAtLimit(limit, c, oracle);
    NothingAfterEnd(limit, TwoNodes(limit, c, oracle, 0), Inputs(oracle, 2, m - 2), version);
  }

  lemma EndedAtLimit(limit: nat, c: Config, oracle: nat -> Input)
    requires c.node.Executor? && c.state.iterations >= limit && AllAnswer(oracle)
    ensures TwoNodes(limit, c, oracle, 0).node.End?
  {
  }

  lemma {:induction false} NothingAfterEnd(limit: nat, c: Config, inputs: seq<Input>, version: nat)
    requires c.node.End?
    ensures Trace(limit, c, inputs, version) == []
    decreases |inputs|
  {
    if inputs != [] {
      NothingAfterEnd(limit, c, inputs[1..], version);
    }
  }

  /** So a plan installed at the limit is run completely if and only if it has one subtask, or
      dependencies and every subtask is ready; then every subtask runs after its dependencies. */
  lemma LastPlanIsRunIff(limit: nat, c: Config, oracle: nat -> Input, version: nat)
    requires c.node.Executor? && c.state.iterations >= limit && c.state.index == 0 && AllAnswer(oracle)
    requires Subtasks(c.state) != []
    ensures var f := FrontOf(c.state, Succeeding(oracle), 0);
            RunsAll(f, ExecutorSteps(limit, c, oracle, version)) <==>
              |f.items| == 1 || (HasDependencyKey(f.items) && forall k | 0 <= k < |f.items| :: Ready(f.items, k, f.done))
  {
    var f := FrontOf(c.state, Succeeding(oracle), 0);
    OneStepAtLimit(limit, c, oracle, version);
    LastPlanIsCompleteIff(f.items, f.done);
    OneStepRuns(f, Current(f));
    assert forall k :: k in Current(f) <==> k in Chosen(f.items, 0, f.done);
  }

  lemma OneStepRuns(f: Front, step: set<nat>)
    requires f.idx == 0
    ensures RunsAll(f, [step]) <==> forall k | 0 <= k < |f.items| :: k in step
  {
    forall k | 0 <= k < |f.items| ensures Ran([step], k) <==> k in step {
      if k in step {
        assert k in [step][0];
      }
    }
    if RunsAll(f, [step]) {
      forall k | 0 <= k < |f.items| ensures k in step {
        assert Ran([step], k);
      }
    }
  }

  // ---- a reused id in a run from the start ----

  const THREE_SUBTASKS :=
    Plan(Some([PlanTask(Some("1"), "", Some([])), PlanTask(Some("2"), "", Some([])), PlanTask(Some("3"), "", Some([]))]), false)

  /** A retry from an index starts with the completed results of the earlier attempt; a new plan that
      counts its ids from the start again then meets one of them. */
  lemma RetryReusesId(limit: nat, goal: string, earlier: TaskResult, from: nat, reply: Reply, ok: Successes)
    requires earlier.subtaskId == "1" && earlier.status.Completed?
    requires reply.mode.Single? && reply.plan == Some(THREE_SUBTASKS)
    ensures var c := Step(limit, Step(limit, Start(goal, [earlier], Some(from)), Answers(reply)), Answers(reply));
            c.node.Executor? && c.state.iterations == 0 && FrontOf(c.state, ok, 0) == Front(THREE, 0, {"1"}, ok, 0)
  {
    var c := Step(limit, Step(limit, Start(goal, [earlier], Some(from)), Answers(reply)), Answers(reply));
    assert c.state.plan == Some(THREE_SUBTASKS) && c.state.results == [earlier];
    ItemsOfThree();
    assert CompletedIds([earlier]) == {"1"};
  }

  lemma ItemsOfThree()
    ensures Items(THREE_SUBTASKS.subtasks.value) == THREE
  {
  }

  /** So in that run the first subtask of the new plan is never run, whatever succeeds. */
  lemma RetrySkipsReusedId(limit: nat, goal: string, earlier: TaskResult, from: nat, reply: Reply, oracle: nat -> Input, version: nat)
    requires earlier.subtaskId == "1" && earlier.status.Completed? && limit > 0 && AllAnswer(oracle)
    requires reply.mode.Single? && reply.plan == Some(THREE_SUBTASKS)
    ensures var c := Step(limit, Step(limit, Start(goal, [earlier], Some(from)), Answers(reply)), Answers(reply));
            ExecutorSteps(limit, c, oracle, version) == [{1, 2}]
  {
    var c := Step(limit, Step(limit, Start(goal, [earlier], Some(from)), Answers(reply)), Answers(reply));
    RetryReusesId(limit, goal, earlier, from, reply, Succeeding(oracle));
    ReusedIdIsSkipped(Succeeding(oracle));
    StepsAreSchedule(limit, c, oracle, version);
  }
}
