/** Which plans the executor runs completely, and in dependency order: exactly those listed level by level. */
module LevelScheduling {
  // Nothing is assumed about identifiers (they may repeat, and may be those of earlier results) nor
  // about which subtasks fail.

  import opened AgentStates
  import opened Scheduler

  /** The positions that one executor step runs. */
  function StepSet(items: seq<Item>, idx: nat, done: set<string>): set<nat>
    requires idx < |items|
  {
    set k | k in Chosen(items, idx, done)
  }

  function IdsOf(items: seq<Item>, positions: set<nat>): set<string>
    requires forall k | k in positions :: k < |items|
  {
    set k | k in positions :: items[k].id
  }

  /** Whether the subtask at a position succeeds when it is run in a given step. */
  type Successes = (nat, nat) -> bool

  /** Where the executor stands in a plan: the current position, the ids completed, and the number of
      the step it takes next. */
  datatype Front = Front(items: seq<Item>, idx: nat, done: set<string>, ok: Successes, step: nat)

  function Current(f: Front): set<nat>
    requires f.idx < |f.items|
  {
    StepSet(f.items, f.idx, f.done)
  }

  function Following(f: Front): nat
    requires f.idx < |f.items|
  {
    Next(f.items, f.idx, f.done)
  }

  /** The ids that the step completes: those of the subtasks that succeed. */
  function Completed(f: Front, positions: set<nat>): set<string>
    requires forall k | k in positions :: k < |f.items|
  {
    IdsOf(f.items, set k | k in positions && f.ok(f.step, k))
  }

  function Advanced(f: Front): Front
    requires f.idx < |f.items|
  {
    f.(idx := Following(f), done := f.done + Completed(f, Current(f)), step := f.step + 1)
  }

  /** The steps the executor takes. */
  function Schedule(f: Front): (steps: seq<set<nat>>)
    decreases |f.items| - f.idx
  {
    if f.idx >= |f.items| then [] else [Current(f)] + Schedule(Advanced(f))
  }

  ghost predicate Ran(steps: seq<set<nat>>, i: nat) {
    exists s | 0 <= s < |steps| :: i in steps[s]
  }

  /** Every subtask from the current one on is run. */
  ghost predicate RunsAll(f: Front, steps: seq<set<nat>>) {
    forall i | f.idx <= i < |f.items| :: Ran(steps, i)
  }

  /** A subtask called d is run, and succeeds, in one of the first s steps. */
  ghost predicate CompletedBefore(f: Front, steps: seq<set<nat>>, s: nat, d: string)
    requires s <= |steps|
  {
    exists e, k | 0 <= e < s && k in steps[e] && k < |f.items| :: f.items[k].id == d && f.ok(f.step + e, k)
  }

  /** Every subtask is run in a step later than all its dependencies were completed; an id that was
      completed before, under whatever plan, counts. */
  ghost predicate RunsAfterDeps(f: Front, steps: seq<set<nat>>) {
    forall s, i, d | 0 <= s < |steps| && i in steps[s] && i < |f.items| && d in f.items[i].deps ::
      d in f.done || CompletedBefore(f, steps, s, d)
  }

  ghost predicate Correct(f: Front, steps: seq<set<nat>>) {
    RunsAll(f, steps) && RunsAfterDeps(f, steps)
  }

  // ---- levels ----

  /** The id is completed before level l is run: it was before, or a subtask of that id on a lower
      level succeeds. */
  ghost predicate Known(f: Front, lev: seq<nat>, id: string, l: nat)
    requires |lev| == |f.items|
  {
    id in f.done || exists k | f.idx <= k < |f.items| :: f.items[k].id == id && lev[k] < l && f.ok(f.step + lev[k], k)
  }

  /** All dependencies of subtask i are completed before level l. */
  ghost predicate Unlocked(f: Front, lev: seq<nat>, i: nat, l: nat)
    requires |lev| == |f.items| && i < |f.items|
  {
    forall d | d in f.items[i].deps :: Known(f, lev, d, l)
  }

  /** Subtask i could be run with level l: unlocked, and its own id not completed yet. */
  ghost predicate Waiting(f: Front, lev: seq<nat>, i: nat, l: nat)
    requires |lev| == |f.items| && i < |f.items|
  {
    Unlocked(f, lev, i, l) && !Known(f, lev, f.items[i].id, l)
  }

  /** Levels start at 0 and rise by at most one from each subtask to the next. */
  ghost predicate Climbs(items: seq<Item>, idx: nat, lev: seq<nat>) {
    && |lev| == |items|
    && (idx < |items| ==> lev[idx] == 0)
    && (forall i | idx < i < |items| :: lev[i - 1] <= lev[i] <= lev[i - 1] + 1)
  }

  /** Subtask i belongs on its level. If it could be run there, nothing on a higher level could. If not
      (a dependency is missing, or its id is completed already), it is alone on its level, and at most
      one higher subtask could be run at that point. */
  ghost predicate InPlace(f: Front, lev: seq<nat>, i: nat)
    requires |lev| == |f.items| && i < |f.items|
  {
    if Waiting(f, lev, i, lev[i]) then
      forall j | f.idx <= j < |f.items| && lev[j] > lev[i] :: !Waiting(f, lev, j, lev[i])
    else
      && (forall j | f.idx <= j < |f.items| && j != i :: lev[j] != lev[i])
      && (forall j, k | f.idx <= j < k < |f.items| && lev[j] > lev[i] && lev[k] > lev[i] ::
            !(Waiting(f, lev, j, lev[i]) && Waiting(f, lev, k, lev[i])))
  }

  /** The plan is listed level by level. */
  ghost predicate Listed(f: Front, lev: seq<nat>) {
    Climbs(f.items, f.idx, lev) && forall i | f.idx <= i < |f.items| :: InPlace(f, lev, i)
  }

  /** ... and everything a subtask needs is completed on lower levels. */
  ghost predicate LevelOrdered(f: Front, lev: seq<nat>) {
    Listed(f, lev) && forall i | f.idx <= i < |f.items| :: Unlocked(f, lev, i, lev[i])
  }

  lemma {:induction false} ClimbsIsMonotone(items: seq<Item>, idx: nat, lev: seq<nat>, i: nat, j: nat)
    requires Climbs(items, idx, lev) && idx <= i <= j < |items|
    ensures lev[i] <= lev[j]
    decreases j - i
  {
    if i < j {
      ClimbsIsMonotone(items, idx, lev, i, j - 1);
    }
  }

  // ---- one step ----

  /** The step from idx runs exactly the positions before next. */
  ghost predicate RunsPrefix(items: seq<Item>, idx: nat, step: set<nat>, next: nat) {
    && idx < next <= |items|
    && forall k: nat :: k in step <==> idx <= k < next
  }

  lemma StepBounds(f: Front)
    requires f.idx < |f.items|
    ensures f.idx < Following(f) <= |f.items|
    ensures forall k | k in Current(f) :: f.idx <= k < Following(f)
    ensures Following(f) - 1 in Current(f)
  {
    ChosenIsSorted(f.items, f.idx, f.done);
  }

  /** When the step runs a ready subtask, it runs exactly the ready ones. */
  lemma ReadyStep(items: seq<Item>, idx: nat, done: set<string>, i: nat)
    requires HasDependencyKey(items) && idx < |items| && i in StepSet(items, idx, done) && Ready(items, i, done)
    ensures forall k: nat :: k in StepSet(items, idx, done) <==> idx <= k < |items| && Ready(items, k, done)
  {
    ReadyFromIsExact(items, idx, done);
    var ready := ReadyFrom(items, idx, done);
    assert i in ready;
    if |ready| == 1 {
      assert ready == [ready[0]];
    }
  }

  /** At most one position from idx on is ready. */
  ghost predicate AtMostOneReady(items: seq<Item>, idx: nat, done: set<string>) {
    forall j, k | idx <= j < k < |items| :: !(Ready(items, j, done) && Ready(items, k, done))
  }

  lemma AtMostOneReadyIff(items: seq<Item>, idx: nat, done: set<string>)
    ensures AtMostOneReady(items, idx, done) <==> |ReadyFrom(items, idx, done)| <= 1
  {
    ReadyFromIsExact(items, idx, done);
    ReadyFromIsSorted(items, idx, done);
    var ready := ReadyFrom(items, idx, done);
    if |ready| > 1 {
      assert ready[0] in ready && ready[1] in ready;
    } else {
      forall j, k | idx <= j < k < |items| ensures !(Ready(items, j, done) && Ready(items, k, done)) {
        assert (j in ready <==> Ready(items, j, done)) && (k in ready <==> Ready(items, k, done));
      }
    }
  }

  /** A subtask that is not ready (a dependency is not completed, for instance because it failed, or its
      own id is) is run exactly when it is the current one and at most one subtask is ready. */
  lemma UnreadyIsRunIff(items: seq<Item>, idx: nat, done: set<string>, k: nat)
    requires HasDependencyKey(items) && idx < |items| && k < |items| && !Ready(items, k, done)
    ensures k in Chosen(items, idx, done) <==> k == idx && |ReadyFrom(items, idx, done)| <= 1
  {
    ReadyFromIsExact(items, idx, done);
  }

  // ---- level 0 is the first step ----

  lemma WaitingAtZeroIsReady(f: Front, lev: seq<nat>, i: nat)
    requires |lev| == |f.items| && i < |f.items|
    ensures Waiting(f, lev, i, 0) <==> Ready(f.items, i, f.done)
  {
    assert forall d :: Known(f, lev, d, 0) <==> d in f.done;
  }

  /** The first step runs exactly level 0. */
  ghost predicate ZeroFirst(f: Front, lev: seq<nat>)
    requires f.idx < |f.items| == |lev|
  {
    && RunsPrefix(f.items, f.idx, Current(f), Following(f))
    && forall k | f.idx <= k < |f.items| :: lev[k] == 0 <==> k < Following(f)
  }

  lemma StepRunsLevelZero(f: Front, lev: seq<nat>)
    requires HasDependencyKey(f.items) && Listed(f, lev) && f.idx < |f.items|
    ensures ZeroFirst(f, lev)
  {
    forall k | f.idx <= k < |f.items| ensures Waiting(f, lev, k, 0) <==> Ready(f.items, k, f.done) {
      WaitingAtZeroIsReady(f, lev, k);
    }
    if Ready(f.items, f.idx, f.done) {
      TogetherAtZero(f, lev);
    } else {
      AloneAtZero(f, lev);
    }
  }

  lemma AloneAtZero(f: Front, lev: seq<nat>)
    requires HasDependencyKey(f.items) && Listed(f, lev) && f.idx < |f.items| && !Ready(f.items, f.idx, f.done)
    requires forall k | f.idx <= k < |f.items| :: Waiting(f, lev, k, 0) <==> Ready(f.items, k, f.done)
    ensures ZeroFirst(f, lev)
  {
    assert InPlace(f, lev, f.idx) && lev[f.idx] == 0;
    assert AtMostOneReady(f.items, f.idx, f.done) by {
      forall j, k | f.idx <= j < k < |f.items| ensures !(Ready(f.items, j, f.done) && Ready(f.items, k, f.done)) {
        assert lev[k] > 0;
      }
    }
    AtMostOneReadyIff(f.items, f.idx, f.done);
    assert Chosen(f.items, f.idx, f.done) == [f.idx];
  }

  lemma ReadyIffAtZero(f: Front, lev: seq<nat>, k: nat)
    requires Listed(f, lev) && f.idx <= k < |f.items| && Ready(f.items, f.idx, f.done)
    requires Waiting(f, lev, f.idx, 0) <==> Ready(f.items, f.idx, f.done)
    requires Waiting(f, lev, k, 0) <==> Ready(f.items, k, f.done)
    ensures Ready(f.items, k, f.done) <==> lev[k] == 0
  {
    assert InPlace(f, lev, f.idx) && InPlace(f, lev, k);
  }

  lemma TogetherAtZero(f: Front, lev: seq<nat>)
    requires HasDependencyKey(f.items) && Listed(f, lev) && f.idx < |f.items| && Ready(f.items, f.idx, f.done)
    requires forall k | f.idx <= k < |f.items| :: Waiting(f, lev, k, 0) <==> Ready(f.items, k, f.done)
    ensures ZeroFirst(f, lev)
  {
    forall k | f.idx <= k < |f.items| ensures Ready(f.items, k, f.done) <==> lev[k] == 0 {
      ReadyIffAtZero(f, lev, k);
    }
    ZeroIsPrefix(f, lev);
  }

  lemma ZeroIsPrefix(f: Front, lev: seq<nat>)
    requires HasDependencyKey(f.items) && Climbs(f.items, f.idx, lev) && f.idx < |f.items| && Ready(f.items, f.idx, f.done)
    requires forall k | f.idx <= k < |f.items| :: Ready(f.items, k, f.done) <==> lev[k] == 0
    ensures ZeroFirst(f, lev)
  {
    ReadyIsRun(f.items, f.idx, f.done);
    ReadyStep(f.items, f.idx, f.done, f.idx);
    StepBounds(f);
    var last := Following(f) - 1;
    forall k | f.idx <= k <= last ensures lev[k] == 0 {
      ClimbsIsMonotone(f.items, f.idx, lev, k, last);
    }
  }

  /** A current subtask that is ready is run. */
  lemma ReadyIsRun(items: seq<Item>, idx: nat, done: set<string>)
    requires idx < |items| && Ready(items, idx, done)
    ensures idx in StepSet(items, idx, done)
  {
    ReadyFromIsExact(items, idx, done);
  }

  // ---- levels of a plan and of the rest after level 0 ----

  /** g is where the executor stands after running exactly the positions from f.idx to g.idx. */
  ghost predicate Comes(f: Front, g: Front) {
    && g.items == f.items && g.ok == f.ok && g.step == f.step + 1
    && f.idx < g.idx <= |f.items|
    && forall id :: id in g.done <==>
         id in f.done || exists k | f.idx <= k < g.idx :: f.items[k].id == id && f.ok(f.step, k)
  }

  lemma AdvancedComes(f: Front)
    requires f.idx < |f.items| && RunsPrefix(f.items, f.idx, Current(f), Following(f))
    ensures Comes(f, Advanced(f))
  {
    var g := Advanced(f);
    forall id ensures id in g.done <==>
      id in f.done || exists k | f.idx <= k < g.idx :: f.items[k].id == id && f.ok(f.step, k)
    {
      if k :| f.idx <= k < g.idx && f.items[k].id == id && f.ok(f.step, k) {
        assert k in Current(f);
      }
    }
  }

  /** low gives the subtasks from g.idx on their levels, one below lev, which puts exactly the
      positions before on level 0. */
  ghost predicate Shifted(f: Front, g: Front, lev: seq<nat>, low: seq<nat>) {
    && Comes(f, g) && |lev| == |f.items| == |low|
    && (forall k | f.idx <= k < g.idx :: lev[k] == 0)
    && (forall k | g.idx <= k < |f.items| :: lev[k] == low[k] + 1)
  }

  /** Completed before level l of the rest is completed before level l + 1 of the whole. */
  lemma KnownShifts(f: Front, g: Front, lev: seq<nat>, low: seq<nat>, id: string, l: nat)
    requires Shifted(f, g, lev, low)
    ensures Known(g, low, id, l) <==> Known(f, lev, id, l + 1)
  {
    if Known(g, low, id, l) && id !in f.done {
      KnownRises(f, g, lev, low, id, l);
    }
    if Known(f, lev, id, l + 1) && id !in g.done {
      var k :| f.idx <= k < |f.items| && f.items[k].id == id && lev[k] < l + 1 && f.ok(f.step + lev[k], k);
      assert low[k] < l && g.ok(g.step + low[k], k);
    }
  }

  lemma KnownRises(f: Front, g: Front, lev: seq<nat>, low: seq<nat>, id: string, l: nat)
    requires Shifted(f, g, lev, low) && Known(g, low, id, l) && id !in f.done
    ensures Known(f, lev, id, l + 1)
  {
    if id in g.done {
      var k :| f.idx <= k < g.idx && f.items[k].id == id && f.ok(f.step, k);
      assert lev[k] < l + 1 && f.ok(f.step + lev[k], k);
    } else {
      var k :| g.idx <= k < |g.items| && g.items[k].id == id && low[k] < l && g.ok(g.step + low[k], k);
      assert lev[k] < l + 1 && f.ok(f.step + lev[k], k);
    }
  }

  lemma WaitingShifts(f: Front, g: Front, lev: seq<nat>, low: seq<nat>, i: nat, l: nat)
    requires Shifted(f, g, lev, low) && i < |f.items|
    ensures Waiting(g, low, i, l) <==> Waiting(f, lev, i, l + 1)
  {
    forall id ensures Known(g, low, id, l) <==> Known(f, lev, id, l + 1) {
      KnownShifts(f, g, lev, low, id, l);
    }
  }

  lemma InPlaceShifts(f: Front, g: Front, lev: seq<nat>, low: seq<nat>, i: nat)
    requires Shifted(f, g, lev, low) && g.idx <= i < |f.items|
    ensures InPlace(g, low, i) <==> InPlace(f, lev, i)
  {
    WaitingShifts(f, g, lev, low, i, low[i]);
    forall j | g.idx <= j < |f.items|
      ensures Waiting(g, low, j, low[i]) <==> Waiting(f, lev, j, lev[i])
      ensures lev[j] > lev[i] <==> low[j] > low[i]
      ensures lev[j] == lev[i] <==> low[j] == low[i]
    {
      WaitingShifts(f, g, lev, low, j, low[i]);
    }
    assert forall j | f.idx <= j < g.idx :: lev[j] < lev[i];
  }

  function Lowered(lev: seq<nat>): (low: seq<nat>)
    ensures |low| == |lev|
    ensures forall i | 0 <= i < |lev| :: low[i] == if lev[i] > 0 then lev[i] - 1 else 0
  {
    seq(|lev|, i requires 0 <= i < |lev| => if lev[i] > 0 then lev[i] - 1 else 0)
  }

  /** After running level 0 the rest of the plan is listed level by level again, one level down. */
  lemma RestIsListed(f: Front, g: Front, lev: seq<nat>)
    requires Listed(f, lev) && Comes(f, g)
    requires forall k | f.idx <= k < |f.items| :: lev[k] == 0 <==> k < g.idx
    ensures Listed(g, Lowered(lev)) && Shifted(f, g, lev, Lowered(lev))
  {
    var low := Lowered(lev);
    assert Climbs(g.items, g.idx, low) by {
      assert g.idx < |g.items| ==> lev[g.idx - 1] <= lev[g.idx] <= lev[g.idx - 1] + 1;
      assert forall i | g.idx < i < |g.items| :: lev[i - 1] <= lev[i] <= lev[i - 1] + 1;
    }
    forall i | g.idx <= i < |g.items| ensures InPlace(g, low, i) {
      assert InPlace(f, lev, i);
      InPlaceShifts(f, g, lev, low, i);
    }
  }

  // ---- from levels to the schedule ----

  /** The step runs exactly the subtasks on level s. */
  ghost predicate RunsLevel(f: Front, lev: seq<nat>, step: set<nat>, s: nat)
    requires |lev| == |f.items|
  {
    forall i: nat :: i in step <==> f.idx <= i < |f.items| && lev[i] == s
  }

  /** Step s runs level s, and there are as many steps as levels. */
  ghost predicate OneLevelPerStep(f: Front, lev: seq<nat>, steps: seq<set<nat>>)
    requires |lev| == |f.items|
  {
    && |steps| == (if f.idx < |f.items| then lev[|f.items| - 1] + 1 else 0)
    && forall s | 0 <= s < |steps| :: RunsLevel(f, lev, steps[s], s)
  }

  lemma LastLevelRises(f: Front, g: Front, lev: seq<nat>, low: seq<nat>)
    requires Shifted(f, g, lev, low)
    ensures lev[|f.items| - 1] == if g.idx < |g.items| then low[|g.items| - 1] + 1 else 0
  {
  }

  /** Level 0 and then the levels of the rest. */
  lemma OneMoreLevel(f: Front, g: Front, lev: seq<nat>, low: seq<nat>, first: set<nat>, rest: seq<set<nat>>)
    requires Shifted(f, g, lev, low) && OneLevelPerStep(g, low, rest) && RunsPrefix(f.items, f.idx, first, g.idx)
    ensures OneLevelPerStep(f, lev, [first] + rest)
  {
    var steps := [first] + rest;
    forall s | 0 <= s < |steps| ensures RunsLevel(f, lev, steps[s], s) {
      if s > 0 {
        assert RunsLevel(g, low, rest[s - 1], s - 1);
      }
    }
    LastLevelRises(f, g, lev, low);
  }

  /** A plan listed level by level is run one whole level per step, in as many steps as it has levels. */
  lemma {:induction false} LevelsRunOnePerStep(f: Front, lev: seq<nat>)
    requires HasDependencyKey(f.items) && Listed(f, lev)
    ensures OneLevelPerStep(f, lev, Schedule(f))
    decreases |f.items| - f.idx
  {
    if f.idx < |f.items| {
      StepRunsLevelZero(f, lev);
      AdvancedComes(f);
      RestIsListed(f, Advanced(f), lev);
      LevelsRunOnePerStep(Advanced(f), Lowered(lev));
      OneMoreLevel(f, Advanced(f), lev, Lowered(lev), Current(f), Schedule(Advanced(f)));
    }
  }

  lemma OnePerStepRunsAll(f: Front, lev: seq<nat>, steps: seq<set<nat>>)
    requires Climbs(f.items, f.idx, lev) && OneLevelPerStep(f, lev, steps)
    ensures RunsAll(f, steps)
  {
    forall i | f.idx <= i < |f.items| ensures Ran(steps, i) {
      ClimbsIsMonotone(f.items, f.idx, lev, i, |f.items| - 1);
      assert RunsLevel(f, lev, steps[lev[i]], lev[i]);
    }
  }

  /** When step s runs level s, what is known before a level is what the steps before have completed. */
  lemma KnownIsCompleted(f: Front, lev: seq<nat>, steps: seq<set<nat>>, d: string, s: nat)
    requires |lev| == |f.items| && OneLevelPerStep(f, lev, steps) && s <= |steps|
    ensures Known(f, lev, d, s) <==> d in f.done || CompletedBefore(f, steps, s, d)
  {
    if Known(f, lev, d, s) && d !in f.done {
      var k :| f.idx <= k < |f.items| && f.items[k].id == d && lev[k] < s && f.ok(f.step + lev[k], k);
      assert RunsLevel(f, lev, steps[lev[k]], lev[k]);
    }
    if CompletedBefore(f, steps, s, d) {
      var e, k :| 0 <= e < s && k in steps[e] && k < |f.items| && f.items[k].id == d && f.ok(f.step + e, k);
      assert RunsLevel(f, lev, steps[e], e);
    }
  }

  /** So dependencies are respected exactly when they are completed on lower levels. */
  lemma DepsRespectedIff(f: Front, lev: seq<nat>, steps: seq<set<nat>>)
    requires Climbs(f.items, f.idx, lev) && OneLevelPerStep(f, lev, steps)
    ensures RunsAfterDeps(f, steps) <==> forall i | f.idx <= i < |f.items| :: Unlocked(f, lev, i, lev[i])
  {
    forall i, d | f.idx <= i < |f.items| && d in f.items[i].deps
      ensures lev[i] < |steps| && i in steps[lev[i]]
      ensures Known(f, lev, d, lev[i]) <==> d in f.done || CompletedBefore(f, steps, lev[i], d)
    {
      ClimbsIsMonotone(f.items, f.idx, lev, i, |f.items| - 1);
      assert RunsLevel(f, lev, steps[lev[i]], lev[i]);
      KnownIsCompleted(f, lev, steps, d, lev[i]);
    }
    forall s, i | 0 <= s < |steps| && i in steps[s] ensures f.idx <= i < |f.items| && lev[i] == s {
      assert RunsLevel(f, lev, steps[s], s);
    }
  }

  // ---- from the schedule to levels ----

  /** Later steps run later positions, from idx on. */
  ghost predicate GoesForward(steps: seq<set<nat>>, idx: nat, end: nat) {
    && (forall s, k | 0 <= s < |steps| && k in steps[s] :: idx <= k < end)
    && (forall s, e, i, k | 0 <= s < e < |steps| && i in steps[s] && k in steps[e] :: i < k)
  }

  lemma OneStepForward(first: set<nat>, rest: seq<set<nat>>, idx: nat, next: nat, end: nat)
    requires GoesForward(rest, next, end) && idx < next <= end && forall k | k in first :: idx <= k < next
    ensures GoesForward([first] + rest, idx, end)
  {
    var steps := [first] + rest;
    assert forall s | 0 < s < |steps| :: steps[s] == rest[s - 1];
  }

  lemma {:induction false} StepsGoForward(f: Front)
    ensures GoesForward(Schedule(f), f.idx, |f.items|)
    decreases |f.items| - f.idx
  {
    if f.idx < |f.items| {
      StepBounds(f);
      StepsGoForward(Advanced(f));
      OneStepForward(Current(f), Schedule(Advanced(f)), f.idx, Following(f), |f.items|);
    }
  }

  /** A complete schedule starts with a step that runs a prefix, and continues completely. */
  lemma CompleteScheduleSplits(f: Front, rest: seq<set<nat>>)
    requires f.idx < |f.items|
    requires forall s, k | 0 <= s < |rest| && k in rest[s] :: Following(f) <= k
    requires RunsAll(f, [Current(f)] + rest)
    ensures RunsPrefix(f.items, f.idx, Current(f), Following(f))
    ensures RunsAll(Advanced(f), rest)
  {
    StepBounds(f);
    var steps := [Current(f)] + rest;
    assert forall s | 0 <= s < |rest| :: rest[s] == steps[s + 1];
    forall k | f.idx <= k < |f.items| ensures k in Current(f) || Ran(rest, k) {
      assert Ran(steps, k);
      var s :| 0 <= s < |steps| && k in steps[s];
      if s > 0 {
        assert k in rest[s - 1];
      }
    }
  }

  /** What the first step runs is in place on level 0 of any levels of the rest, raised by one. */
  lemma FirstStepInPlace(f: Front, lev: seq<nat>, i: nat)
    requires HasDependencyKey(f.items) && f.idx < |f.items| == |lev| && ZeroFirst(f, lev)
    requires f.idx <= i < Following(f)
    ensures InPlace(f, lev, i)
  {
    assert i in Current(f) && f.idx in Current(f);
    forall k | f.idx <= k < |f.items| ensures Waiting(f, lev, k, 0) <==> Ready(f.items, k, f.done) {
      WaitingAtZeroIsReady(f, lev, k);
    }
    if Ready(f.items, i, f.done) {
      ReadyStep(f.items, f.idx, f.done, i);
    } else {
      UnreadyIsRunIff(f.items, f.idx, f.done, i);
      AtMostOneReadyIff(f.items, f.idx, f.done);
      assert Chosen(f.items, f.idx, f.done) == [f.idx];
    }
  }

  /** Level 0 before next, and the levels low, raised by one, from next on. */
  function Raised(low: seq<nat>, next: nat): (lev: seq<nat>)
    ensures |lev| == |low|
    ensures forall j | 0 <= j < |low| :: lev[j] == if j < next then 0 else low[j] + 1
  {
    seq(|low|, j requires 0 <= j < |low| => if j < next then 0 else low[j] + 1)
  }

  lemma RaisedClimbs(items: seq<Item>, idx: nat, next: nat, low: seq<nat>)
    requires idx < next <= |items| && Climbs(items, next, low)
    ensures Climbs(items, idx, Raised(low, next))
  {
    assert forall i | next < i < |items| :: low[i - 1] <= low[i] <= low[i - 1] + 1;
  }

  lemma LevelsExtend(f: Front, low: seq<nat>)
    requires HasDependencyKey(f.items) && f.idx < |f.items|
    requires RunsPrefix(f.items, f.idx, Current(f), Following(f))
    requires Listed(Advanced(f), low)
    ensures Listed(f, Raised(low, Following(f)))
  {
    var lev := Raised(low, Following(f));
    RaisedClimbs(f.items, f.idx, Following(f), low);
    AdvancedComes(f);
    forall i | f.idx <= i < |f.items| ensures InPlace(f, lev, i) {
      if i < Following(f) {
        FirstStepInPlace(f, lev, i);
      } else {
        assert InPlace(Advanced(f), low, i);
        InPlaceShifts(f, Advanced(f), lev, low, i);
      }
    }
  }

  lemma {:induction false} LevelsAreNecessary(f: Front) returns (lev: seq<nat>)
    requires HasDependencyKey(f.items) && RunsAll(f, Schedule(f))
    ensures Listed(f, lev)
    decreases |f.items| - f.idx
  {
    if f.idx >= |f.items| {
      lev := seq(|f.items|, _ => 0);
    } else {
      StepsGoForward(Advanced(f));
      CompleteScheduleSplits(f, Schedule(Advanced(f)));
      var low := LevelsAreNecessary(Advanced(f));
      LevelsExtend(f, low);
      lev := Raised(low, Following(f));
    }
  }

  // ---- plans without dependencies ----

  /** Without a "depends_on" key the subtasks are run one by one, completely. */
  lemma {:induction false} SerialPlansRunAll(f: Front)
    requires !HasDependencyKey(f.items)
    ensures RunsAll(f, Schedule(f))
    decreases |f.items| - f.idx
  {
    if f.idx < |f.items| {
      SerialStep(f);
      SerialPlansRunAll(Advanced(f));
      LaterRunsRemain(f, Schedule(Advanced(f)));
    }
  }

  lemma SerialStep(f: Front)
    requires !HasDependencyKey(f.items) && f.idx < |f.items|
    ensures Current(f) == {f.idx} && Following(f) == f.idx + 1
  {
    assert Chosen(f.items, f.idx, f.done) == [f.idx];
  }

  lemma LaterRunsRemain(f: Front, rest: seq<set<nat>>)
    requires f.idx < |f.items| && Current(f) == {f.idx} && Following(f) == f.idx + 1 && RunsAll(Advanced(f), rest)
    ensures RunsAll(f, [Current(f)] + rest)
  {
    var steps := [Current(f)] + rest;
    forall i | f.idx <= i < |f.items| ensures Ran(steps, i) {
      if i == f.idx {
        assert i in steps[0];
      } else {
        assert Ran(rest, i);
        var s :| 0 <= s < |rest| && i in rest[s];
        assert i in steps[s + 1];
      }
    }
  }

  /** An item without the key has no dependencies. */
  ghost predicate KeysCarryDeps(items: seq<Item>) {
    forall i | 0 <= i < |items| && !items[i].hasKey :: items[i].deps == []
  }

  // ---- the exact conditions ----

  /** For every plan, whatever its ids, whatever was completed before and whatever fails: the executor
      runs every subtask if and only if the plan has no "depends_on" key or is listed level by level. */
  lemma RunsAllIffListed(f: Front)
    ensures RunsAll(f, Schedule(f)) <==> !HasDependencyKey(f.items) || exists lev :: Listed(f, lev)
  {
    if !HasDependencyKey(f.items) {
      SerialPlansRunAll(f);
    } else {
      if RunsAll(f, Schedule(f)) {
        var lev := LevelsAreNecessary(f);
      }
      if lev :| Listed(f, lev) {
        LevelsRunOnePerStep(f, lev);
        OnePerStepRunsAll(f, lev, Schedule(f));
      }
    }
  }

  /** ... and each after its dependencies were completed if and only if, with a key, these are completed
      on lower levels. */
  lemma SchedulesCorrectlyIffLevelOrdered(f: Front)
    requires KeysCarryDeps(f.items)
    ensures Correct(f, Schedule(f)) <==> !HasDependencyKey(f.items) || exists lev :: LevelOrdered(f, lev)
  {
    RunsAllIffListed(f);
    StepsGoForward(f);
    if HasDependencyKey(f.items) {
      forall lev | Listed(f, lev) ensures LevelOrdered(f, lev) <==> RunsAfterDeps(f, Schedule(f)) {
        LevelsRunOnePerStep(f, lev);
        DepsRespectedIff(f, lev, Schedule(f));
      }
    }
  }

  // ---- plans whose ids are new and distinct, when nothing fails: levels are dependency levels ----

  ghost predicate NothingFails(f: Front) {
    forall s, k :: f.ok(s, k)
  }

  ghost predicate FreshIds(items: seq<Item>, done: set<string>) {
    forall k | 0 <= k < |items| :: items[k].id !in done
  }

  /** Subtask i needs something from the level just below its own. */
  ghost predicate NeedsBelow(f: Front, lev: seq<nat>, i: nat)
    requires |lev| == |f.items| && i < |f.items|
  {
    exists d, k | d in f.items[i].deps && 0 <= k < |f.items| && f.items[k].id == d :: d !in f.done && lev[k] + 1 == lev[i]
  }

  /** lev[i] is one more than the highest level among the dependencies of i, and the subtasks are
      sorted by it. */
  ghost predicate DependencyLevels(f: Front, lev: seq<nat>) {
    && Climbs(f.items, 0, lev)
    && forall i | 0 <= i < |f.items| :: Unlocked(f, lev, i, lev[i]) && (lev[i] > 0 ==> NeedsBelow(f, lev, i))
  }

  lemma {:induction false} EveryLevelIsUsed(items: seq<Item>, lev: seq<nat>, i: nat, l: nat) returns (k: nat)
    requires Climbs(items, 0, lev) && i < |items| && l <= lev[i]
    ensures k <= i && lev[k] == l
  {
    if lev[i] == l {
      k := i;
    } else {
      k := EveryLevelIsUsed(items, lev, i - 1, l);
    }
  }

  lemma SameIdSamePosition(items: seq<Item>, i: nat, k: nat)
    requires DistinctIds(items) && i < |items| && k < |items| && items[i].id == items[k].id
    ensures i == k
  {
  }

  lemma NewIdIsUnknown(f: Front, lev: seq<nat>, i: nat, l: nat)
    requires DistinctIds(f.items) && FreshIds(f.items, f.done) && |lev| == |f.items| && i < |f.items| && l <= lev[i]
    ensures !Known(f, lev, f.items[i].id, l)
  {
    forall k | 0 <= k < |f.items| && f.items[k].id == f.items[i].id ensures k == i {
      SameIdSamePosition(f.items, i, k);
    }
  }

  /** With distinct ids that no earlier result uses, and without failures, level order is the order by
      dependency level. */
  lemma LevelOrderOfFreshIds(f: Front, lev: seq<nat>)
    requires f.idx == 0 && DistinctIds(f.items) && FreshIds(f.items, f.done) && NothingFails(f)
    ensures LevelOrdered(f, lev) <==> DependencyLevels(f, lev)
  {
    if LevelOrdered(f, lev) {
      forall i | 0 <= i < |f.items| && lev[i] > 0 ensures NeedsBelow(f, lev, i) {
        LevelOrderNeedsBelow(f, lev, i);
      }
    } else if DependencyLevels(f, lev) {
      forall i | 0 <= i < |f.items| ensures InPlace(f, lev, i) {
        DependencyLevelInPlace(f, lev, i);
      }
    }
  }

  lemma DependencyLevelInPlace(f: Front, lev: seq<nat>, i: nat)
    requires f.idx == 0 && DistinctIds(f.items) && FreshIds(f.items, f.done) && NothingFails(f)
    requires DependencyLevels(f, lev) && i < |f.items|
    ensures InPlace(f, lev, i)
  {
    NewIdIsUnknown(f, lev, i, lev[i]);
    forall j | 0 <= j < |f.items| && lev[j] > lev[i] ensures !Waiting(f, lev, j, lev[i]) {
      NeedKeepsWaiting(f, lev, j, lev[i]);
    }
  }

  lemma LevelOrderNeedsBelow(f: Front, lev: seq<nat>, i: nat)
    requires f.idx == 0 && DistinctIds(f.items) && FreshIds(f.items, f.done) && NothingFails(f)
    requires LevelOrdered(f, lev) && i < |f.items| && lev[i] > 0
    ensures NeedsBelow(f, lev, i)
  {
    var l := lev[i] - 1;
    var k := EveryLevelIsUsed(f.items, lev, i, l);
    assert InPlace(f, lev, k) && Unlocked(f, lev, k, lev[k]) && Unlocked(f, lev, i, lev[i]);
    NewIdIsUnknown(f, lev, k, l);
    NewIdIsUnknown(f, lev, i, l);
    assert !Unlocked(f, lev, i, l);
    var d :| d in f.items[i].deps && !Known(f, lev, d, l);
    assert Known(f, lev, d, lev[i]);
    var j :| 0 <= j < |f.items| && f.items[j].id == d && lev[j] < lev[i] && f.ok(f.step + lev[j], j);
  }

  lemma NeedKeepsWaiting(f: Front, lev: seq<nat>, j: nat, l: nat)
    requires DistinctIds(f.items) && DependencyLevels(f, lev) && j < |f.items| && lev[j] > l
    ensures !Waiting(f, lev, j, l)
  {
    assert NeedsBelow(f, lev, j);
    var d, k :| d in f.items[j].deps && 0 <= k < |f.items| && f.items[k].id == d && d !in f.done && lev[k] + 1 == lev[j];
    forall m | 0 <= m < |f.items| && f.items[m].id == d ensures m == k {
      SameIdSamePosition(f.items, k, m);
    }
    assert !Known(f, lev, d, l);
  }

  // ---- two inputs on which a subtask is never run ----

  const THREE := [Item("1", [], true), Item("2", [], true), Item("3", [], true)]

  /** With an id that an earlier result uses, dependency levels are not enough: of three independent
      subtasks the first, whose id is completed already, is never run, whatever succeeds. */
  lemma ReusedIdIsSkipped(ok: Successes)
    ensures DistinctIds(THREE) && DependencyLevels(Front(THREE, 0, {"1"}, ok, 0), [0, 0, 0])
    ensures Schedule(Front(THREE, 0, {"1"}, ok, 0)) == [{1, 2}]
    ensures !RunsAll(Front(THREE, 0, {"1"}, ok, 0), [{1, 2}])
  {
    var f := Front(THREE, 0, {"1"}, ok, 0);
    LastTwoOfThree();
    assert Current(f) == {1, 2} && Following(f) == 3;
    assert Schedule(Advanced(f)) == [];
    ScheduleStep(f, Advanced(f), {1, 2}, []);
    NoDependencies(f, [0, 0, 0]);
    ZeroIsMissing(f);
  }

  lemma NoDependencies(f: Front, lev: seq<nat>)
    requires |lev| == |f.items| && forall i | 0 <= i < |f.items| :: f.items[i].deps == [] && lev[i] == 0
    ensures DependencyLevels(f, lev)
  {
  }

  lemma ZeroIsMissing(f: Front)
    requires f.idx == 0 && |f.items| == 3
    ensures !RunsAll(f, [{1, 2}])
  {
    assert !Ran([{1, 2}], 0);
  }

  lemma LastTwoOfThree()
    ensures Chosen(THREE, 0, {"1"}) == [1, 2]
  {
    var done := {"1"};
    assert THREE[0].hasKey;
    assert !Ready(THREE, 0, done) && Ready(THREE, 1, done) && Ready(THREE, 2, done);
    assert ReadyFrom(THREE, 3, done) == [];
    assert ReadyFrom(THREE, 2, done) == [2];
    assert ReadyFrom(THREE, 1, done) == [1, 2];
    assert ReadyFrom(THREE, 0, done) == [1, 2];
  }

  const FIVE := [Item("1", [], true), Item("2", [], true), Item("3", ["1"], true), Item("4", ["2"], true), Item("5", ["2"], true)]

  /** Of five subtasks in dependency order the first fails: the two that depend on the second are run
      next, and the one between them and its failed dependency never is. */
  lemma FailureSkipsDependent(ok: Successes, all: Successes)
    requires forall s, k :: all(s, k)
    requires forall s, k :: ok(s, k) <==> k != 0
    ensures DependencyLevels(Front(FIVE, 0, {}, all, 0), [0, 0, 1, 1, 1])
    ensures Schedule(Front(FIVE, 0, {}, ok, 0)) == [{0, 1}, {3, 4}]
    ensures !RunsAll(Front(FIVE, 0, {}, ok, 0), [{0, 1}, {3, 4}])
  {
    FiveInOrder(Front(FIVE, 0, {}, all, 0));
    FirstStepOfFive(ok);
    SecondStepOfFive(ok);
    ScheduleStep(Front(FIVE, 0, {}, ok, 0), Front(FIVE, 2, {"2"}, ok, 1), {0, 1}, [{3, 4}]);
    assert [{0, 1}] + [{3, 4}] == [{0, 1}, {3, 4}];
    TwoIsMissing(Front(FIVE, 0, {}, ok, 0));
  }

  lemma ScheduleStep(f: Front, g: Front, first: set<nat>, rest: seq<set<nat>>)
    requires f.idx < |f.items| && Current(f) == first && Advanced(f) == g && Schedule(g) == rest
    ensures Schedule(f) == [first] + rest
  {
  }

  lemma TwoIsMissing(f: Front)
    requires f.idx == 0 && |f.items| == 5
    ensures !RunsAll(f, [{0, 1}, {3, 4}])
  {
    assert !Ran([{0, 1}, {3, 4}], 2);
  }

  lemma FirstStepOfFive(ok: Successes)
    requires forall s, k :: ok(s, k) <==> k != 0
    ensures var f := Front(FIVE, 0, {}, ok, 0);
            Current(f) == {0, 1} && Advanced(f) == Front(FIVE, 2, {"2"}, ok, 1)
  {
    var f := Front(FIVE, 0, {}, ok, 0);
    FirstOfFive();
    assert Current(f) == {0, 1} && Following(f) == 2;
    OnlySecondCompletes(f);
  }

  lemma OnlySecondCompletes(f: Front)
    requires |f.items| > 1 && f.ok(f.step, 1) && !f.ok(f.step, 0)
    ensures Completed(f, {0, 1}) == {f.items[1].id}
  {
    assert (set k | k in {0, 1} && f.ok(f.step, k)) == {1};
  }

  lemma SecondStepOfFive(ok: Successes)
    ensures Schedule(Front(FIVE, 2, {"2"}, ok, 1)) == [{3, 4}]
  {
    var g := Front(FIVE, 2, {"2"}, ok, 1);
    SecondOfFive();
    assert Current(g) == {3, 4} && Following(g) == 5;
    assert Schedule(Advanced(g)) == [];
  }

  lemma FirstOfFive()
    ensures Chosen(FIVE, 0, {}) == [0, 1]
  {
    assert FIVE[0].hasKey;
    assert Ready(FIVE, 0, {}) && Ready(FIVE, 1, {});
    assert "1" in FIVE[2].deps && "2" in FIVE[3].deps && "2" in FIVE[4].deps;
    assert ReadyFrom(FIVE, 5, {}) == [];
    assert ReadyFrom(FIVE, 4, {}) == [] && ReadyFrom(FIVE, 3, {}) == [] && ReadyFrom(FIVE, 2, {}) == [];
    assert ReadyFrom(FIVE, 1, {}) == [1];
    assert ReadyFrom(FIVE, 0, {}) == [0, 1];
  }

  lemma SecondOfFive()
    ensures Chosen(FIVE, 2, {"2"}) == [3, 4]
  {
    var done := {"2"};
    assert FIVE[0].hasKey;
    assert "1" in FIVE[2].deps && Ready(FIVE, 3, done) && Ready(FIVE, 4, done);
    assert ReadyFrom(FIVE, 5, done) == [];
    assert ReadyFrom(FIVE, 4, done) == [4];
    assert ReadyFrom(FIVE, 3, done) == [3, 4];
    assert ReadyFrom(FIVE, 2, done) == [3, 4];
  }

  lemma FiveInOrder(f: Front)
    requires f.items == FIVE && f.idx == 0 && f.done == {} && NothingFails(f)
    ensures DependencyLevels(f, [0, 0, 1, 1, 1])
  {
    TwoLevels(f, [0, 0, 1, 1, 1], "1", "2");
  }

  ghost predicate OnLevel(f: Front, lev: seq<nat>, i: nat)
    requires |lev| == |f.items| && i < |f.items|
  {
    Unlocked(f, lev, i, lev[i]) && (lev[i] > 0 ==> NeedsBelow(f, lev, i))
  }

  lemma TwoLevels(f: Front, lev: seq<nat>, a: string, b: string)
    requires |f.items| == |lev| == 5 && f.idx == 0 && f.done == {} && NothingFails(f)
    requires f.items[0].id == a && f.items[1].id == b && f.items[0].deps == f.items[1].deps == []
    requires f.items[2].deps == [a] && f.items[3].deps == f.items[4].deps == [b]
    requires lev[0] == lev[1] == 0 && lev[2] == lev[3] == lev[4] == 1
    ensures DependencyLevels(f, lev)
  {
    LevelZero(f, lev, 0);
    LevelZero(f, lev, 1);
    LevelOne(f, lev, 2, 0);
    LevelOne(f, lev, 3, 1);
    LevelOne(f, lev, 4, 1);
    AllFive(f, lev);
  }

  lemma AllFive(f: Front, lev: seq<nat>)
    requires |f.items| == |lev| == 5 && lev[0] == lev[1] == 0 && lev[2] == lev[3] == lev[4] == 1
    requires OnLevel(f, lev, 0) && OnLevel(f, lev, 1) && OnLevel(f, lev, 2) && OnLevel(f, lev, 3) && OnLevel(f, lev, 4)
    ensures DependencyLevels(f, lev)
  {
    assert forall i | 0 <= i < |f.items| :: OnLevel(f, lev, i);
  }

  lemma LevelZero(f: Front, lev: seq<nat>, i: nat)
    requires |lev| == |f.items| && i < |lev| && lev[i] == 0 && f.items[i].deps == []
    ensures OnLevel(f, lev, i)
  {
  }

  lemma KnownByFirst(f: Front, lev: seq<nat>, k: nat)
    requires |lev| == |f.items| && f.idx == 0 && NothingFails(f) && k < |lev| && lev[k] == 0
    ensures Known(f, lev, f.items[k].id, 1)
  {
    assert f.ok(f.step + lev[k], k);
  }

  lemma LevelOne(f: Front, lev: seq<nat>, i: nat, k: nat)
    requires |lev| == |f.items| && i < |lev| && k < |lev| && lev[i] == 1 && lev[k] == 0
    requires f.items[i].deps == [f.items[k].id] && f.done == {} && f.idx == 0 && NothingFails(f)
    ensures OnLevel(f, lev, i)
  {
    KnownByFirst(f, lev, k);
    assert f.items[k].id in f.items[i].deps;
  }
}
