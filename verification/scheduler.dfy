/** The executor's choice of the subtasks to run next. */
module Scheduler {
  import opened AgentStates

  predicate HasDependencyKey(items: seq<Item>) {
    exists i | 0 <= i < |items| :: items[i].hasKey
  }

  predicate Ready(items: seq<Item>, i: nat, done: set<string>)
    requires i < |items|
  {
    items[i].id !in done && (forall d | d in items[i].deps :: d in done)
  }

  /** The positions from i on that are ready, in order. */
  function ReadyFrom(items: seq<Item>, i: nat, done: set<string>): (batch: seq<nat>)
    ensures forall k | k in batch :: i <= k < |items|
    decreases |items| - i
  {
    if i >= |items| then []
    else (if Ready(items, i, done) then [i] else []) + ReadyFrom(items, i + 1, done)
  }

  function Batch(items: seq<Item>, idx: nat, done: set<string>): seq<nat> {
    if !HasDependencyKey(items) then [idx]
    else
      var ready := ReadyFrom(items, idx, done);
      if ready == [] then [idx] else ready
  }

  /** The positions one executor step runs: the batch if it has two or more members,
      otherwise the current position, whatever the batch holds. */
  function Chosen(items: seq<Item>, idx: nat, done: set<string>): (chosen: seq<nat>)
    requires idx < |items|
    ensures chosen != []
    ensures forall k | k in chosen :: idx <= k < |items|
  {
    var batch := Batch(items, idx, done);
    if |batch| > 1 then batch else [idx]
  }

  /** Where the step leaves the current position: past the largest position run, which is the
      last one (ChosenIsSorted). */
  function Next(items: seq<Item>, idx: nat, done: set<string>): (next: nat)
    requires idx < |items|
    ensures idx < next <= |items|
  {
    var chosen := Chosen(items, idx, done);
    assert chosen[|chosen| - 1] in chosen;
    chosen[|chosen| - 1] + 1
  }

  /** The batch is computed by scanning forward once, as the source does. */
  method GetParallelBatch(items: seq<Item>, idx: nat, results: seq<TaskResult>) returns (batch: seq<nat>)
    ensures batch == Batch(items, idx, CompletedIds(results))
    ensures batch != []
    ensures Increasing(batch)
    ensures |batch| > 1 ==> forall k :: k in batch <==> idx <= k < |items| && Ready(items, k, CompletedIds(results))
  {
    var done: set<string> := {};
    for n := 0 to |results|
      invariant done == CompletedIds(results[..n])
    {
      CompletedIdsAppend(results[..n], [results[n]]);
      assert results[..n + 1] == results[..n] + [results[n]];
      if results[n].status.Completed? {
        done := done + {results[n].subtaskId};
      }
    }
    assert results[..|results|] == results;

    var hasDeps := false;
    for n := 0 to |items|
      invariant hasDeps <==> exists i | 0 <= i < n :: items[i].hasKey
    {
      if items[n].hasKey {
        hasDeps := true;
      }
    }
    if !hasDeps {
      return [idx];
    }

    batch := [];
    var i := idx;
    while i < |items|
      invariant idx <= i
      invariant batch + ReadyFrom(items, i, done) == ReadyFrom(items, idx, done)
    {
      if Ready(items, i, done) {
        batch := batch + [i];
      }
      i := i + 1;
    }
    assert batch == ReadyFrom(items, idx, done);
    ReadyFromIsSorted(items, idx, done);
    ReadyFromIsExact(items, idx, done);
    if batch == [] {
      batch := [idx];
    }
  }

  lemma CompletedIdsAppend(results: seq<TaskResult>, more: seq<TaskResult>)
    ensures CompletedIds(results + more) == CompletedIds(results) + CompletedIds(more)
  {
    assert forall r :: r in results + more <==> r in results || r in more;
  }

  lemma {:induction false} ReadyFromIsExact(items: seq<Item>, i: nat, done: set<string>)
    ensures forall k :: k in ReadyFrom(items, i, done) <==> i <= k < |items| && Ready(items, k, done)
    decreases |items| - i
  {
    if i < |items| {
      ReadyFromIsExact(items, i + 1, done);
    }
  }

  predicate Increasing(b: seq<nat>) {
    forall x, y | 0 <= x < y < |b| :: b[x] < b[y]
  }

  lemma {:induction false} ReadyFromIsSorted(items: seq<Item>, i: nat, done: set<string>)
    ensures Increasing(ReadyFrom(items, i, done))
    decreases |items| - i
  {
    if i < |items| {
      ReadyFromIsSorted(items, i + 1, done);
      var rest := ReadyFrom(items, i + 1, done);
      assert forall y | 0 <= y < |rest| :: rest[y] in rest;
    }
  }

  /** The positions run are listed in increasing order, so the step moves just past the largest. */
  lemma ChosenIsSorted(items: seq<Item>, idx: nat, done: set<string>)
    requires idx < |items|
    ensures Increasing(Chosen(items, idx, done))
    ensures forall k | k in Chosen(items, idx, done) :: k < Next(items, idx, done)
    ensures Next(items, idx, done) - 1 in Chosen(items, idx, done)
  {
    ReadyFromIsSorted(items, idx, done);
  }

  /** Safety of one step, for every plan. No member of a batch of two or more depends on a
      member of the batch, every dependency of every member is already completed, and the
      positions passed over without being run were completed or still had an unmet dependency. */
  lemma BatchIsSafe(items: seq<Item>, idx: nat, done: set<string>)
    requires idx < |items|
    ensures var chosen := Chosen(items, idx, done);
            |chosen| > 1 ==>
              && (forall k, d | k in chosen && d in items[k].deps :: d in done)
              && (forall k, m | k in chosen && m in chosen :: items[m].id !in items[k].deps)
    ensures forall k | idx <= k < Next(items, idx, done) && k !in Chosen(items, idx, done) ::
              items[k].id in done || exists d | d in items[k].deps :: d !in done
  {
    ReadyFromIsExact(items, idx, done);
    ChosenIsSorted(items, idx, done);
  }
}
