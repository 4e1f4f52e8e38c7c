/** The in-process trace recorder: a ring of the most recent runs. */
module Tracing {
  import opened Common
  import opened Budget
  import Workflow

  datatype NodeSpan = NodeSpan(node: Workflow.Node, calls: int, prompt: int, completion: int, cost: real)

  datatype Trace = Trace(taskId: string, spans: seq<NodeSpan>, total: Usage)

  function NewTrace(id: string): Trace {
    Trace(id, [], NO_USAGE)
  }

  datatype Ring = Ring(runs: map<string, Trace>, order: seq<string>)

  const EMPTY_RING := Ring(map[], [])

  /** Drop the oldest entries until at most max are left. */
  function Trimmed(max: nat, r: Ring): Ring
    decreases |r.order|
  {
    if |r.order| <= max then r else Trimmed(max, Ring(r.runs - {r.order[0]}, r.order[1..]))
  }

  function Started(max: nat, r: Ring, id: string): Ring {
    Trimmed(max, Ring(r.runs[id := NewTrace(id)], r.order + [id]))
  }

  /** The most recent limit ids; Python's slice [-0:] is the whole list. */
  function Recent(order: seq<string>, limit: nat): seq<string> {
    if limit == 0 || limit >= |order| then order else order[|order| - limit..]
  }

  class TraceRecorder {
    const maxRuns: nat
    var runs: map<string, Trace>
    var order: seq<string>

    ghost function Content(): Ring
      reads this
    {
      Ring(runs, order)
    }

    constructor (maxRuns: nat)
      ensures this.maxRuns == maxRuns && Content() == EMPTY_RING
    {
      this.maxRuns := maxRuns;
      runs, order := map[], [];
    }

    method Clear()
      modifies this
      ensures Content() == EMPTY_RING
    {
      runs, order := map[], [];
    }

    method StartRun(id: string)
      modifies this
      ensures Content() == Started(maxRuns, old(Content()), id)
    {
      runs := runs[id := NewTrace(id)];
      order := order + [id];
      while |order| > maxRuns
        invariant Trimmed(maxRuns, Content()) == Started(maxRuns, old(Content()), id)
      {
        var oldest := order[0];
        order := order[1..];
        runs := runs - {oldest};
      }
    }

    /** Writing to a run that is no longer held does nothing. */
    method AddNodeSpan(id: string, span: NodeSpan)
      modifies this`runs
      ensures runs == if id in old(runs) then old(runs)[id := old(runs)[id].(spans := old(runs)[id].spans + [span])] else old(runs)
    {
      if id in runs {
        runs := runs[id := runs[id].(spans := runs[id].spans + [span])];
      }
    }

    /** The run's usage is overwritten, not added to. */
    method RecordRunUsage(id: string, usage: Usage)
      modifies this`runs
      ensures runs == if id in old(runs) then old(runs)[id := old(runs)[id].(total := usage)] else old(runs)
    {
      if id in runs {
        runs := runs[id := runs[id].(total := usage)];
      }
    }

    /** None stands for the KeyError that a missing run raises. */
    method ListTraces(limit: nat, offset: nat) returns (traces: Option<seq<Trace>>)
      ensures traces.Some? <==> forall id | id in Listed(order, limit, offset) :: id in runs
      ensures traces.Some? ==> |traces.value| == |Listed(order, limit, offset)|
      ensures traces.Some? ==> forall i | 0 <= i < |traces.value| :: traces.value[i] == runs[Listed(order, limit, offset)[i]]
    {
      var ids := if offset != 0 then Recent(order, limit + offset) else Recent(order, limit);
      var found := [];
      for i := 0 to |ids|
        invariant |found| == i
        invariant forall j | 0 <= j < i :: ids[j] in runs && found[j] == runs[ids[j]]
      {
        if ids[i] !in runs {
          assert ids[i] in Listed(order, limit, offset);
          return None;
        }
        found := found + [runs[ids[i]]];
      }
      return Some(found);
    }
  }

  function Listed(order: seq<string>, limit: nat, offset: nat): seq<string> {
    Recent(order, limit + offset)
  }

  /** What paging should give: limit ids, leaving out the offset most recent ones. */
  function Page(order: seq<string>, limit: nat, offset: nat): seq<string> {
    var end := if offset < |order| then |order| - offset else 0;
    order[if limit < end then end - limit else 0..end]
  }

  /** The listing is a page exactly without an offset, or when there is nothing to list. */
  lemma ListingIsPageIff(order: seq<string>, limit: nat, offset: nat)
    requires limit > 0
    ensures Listed(order, limit, offset) == Page(order, limit, offset) <==> offset == 0 || order == []
  {
    if offset > 0 && order != [] {
      assert |Listed(order, limit, offset)| > |Page(order, limit, offset)|;
    }
  }

  // ---- the ring as a list of the last starts ----

  /** The order has no duplicates and its ids are exactly the runs held. */
  ghost predicate WellFormed(r: Ring) {
    && (forall i, j | 0 <= i < j < |r.order| :: r.order[i] != r.order[j])
    && (forall id :: id in r.runs <==> id in r.order)
  }

  lemma StartOfNewRun(max: nat, r: Ring, id: string)
    requires WellFormed(r) && |r.order| <= max && id !in r.runs && max > 0
    ensures var r' := Started(max, r, id);
            && WellFormed(r')
            && r'.order == (if |r.order| == max then r.order[1..] else r.order) + [id]
  {
    var grown := Ring(r.runs[id := NewTrace(id)], r.order + [id]);
    if |r.order| == max {
      var cut := Ring(grown.runs - {grown.order[0]}, grown.order[1..]);
      assert Trimmed(max, grown) == Trimmed(max, cut) == cut;
      assert cut.order == r.order[1..] + [id];
      forall x ensures x in cut.runs <==> x in cut.order {
        if x in r.order {
          var k :| 0 <= k < |r.order| && r.order[k] == x;
          assert k > 0 ==> cut.order[k - 1] == x;
        }
      }
    }
  }

  lemma {:induction false} TrimmedKeepsTraces(max: nat, r: Ring, k: string)
    ensures k in Trimmed(max, r).runs ==> k in r.runs && Trimmed(max, r).runs[k] == r.runs[k]
    decreases |r.order|
  {
    if |r.order| > max {
      TrimmedKeepsTraces(max, Ring(r.runs - {r.order[0]}, r.order[1..]), k);
    }
  }

  /** Starting empties the trace of its run, held before or not, and leaves every other trace that it keeps
      as it was. */
  lemma StartEmptiesOneTrace(max: nat, r: Ring, id: string, k: string)
    requires k in Started(max, r, id).runs
    ensures k == id ==> Started(max, r, id).runs[k] == Trace(id, [], Usage(0, 0, 0, 0.0))
    ensures k != id ==> k in r.runs && Started(max, r, id).runs[k] == r.runs[k]
  {
    TrimmedKeepsTraces(max, Ring(r.runs[id := NewTrace(id)], r.order + [id]), k);
  }

  /** The exact condition: starting keeps the ring well formed if and only if the run is not
      held already. */
  lemma StartKeepsFormIff(max: nat, r: Ring, id: string)
    requires WellFormed(r) && |r.order| <= max && max > 0
    ensures WellFormed(Started(max, r, id)) <==> id !in r.runs
  {
    if id !in r.runs {
      StartOfNewRun(max, r, id);
    } else {
      var k :| 0 <= k < |r.order| && r.order[k] == id;
      var grown := Ring(r.runs[id := NewTrace(id)], r.order + [id]);
      if |r.order| < max {
        assert grown.order[k] == grown.order[|r.order|];
      } else {
        var cut := Ring(grown.runs - {grown.order[0]}, grown.order[1..]);
        assert Trimmed(max, grown) == Trimmed(max, cut) == cut;
        assert cut.order[|r.order| - 1] == id;
        if k > 0 {
          assert cut.order[k - 1] == id;
        }
      }
    }
  }

  /** The ring after a sequence of starts. */
  function RingAfter(max: nat, starts: seq<string>): Ring {
    if starts == [] then EMPTY_RING
    else Started(max, RingAfter(max, starts[..|starts| - 1]), starts[|starts| - 1])
  }

  /** A run is only started when it is not held. */
  ghost predicate OnlyNewRuns(max: nat, starts: seq<string>) {
    forall n | 0 <= n < |starts| :: starts[n] !in RingAfter(max, starts[..n]).runs
  }

  function LastOf(s: seq<string>, n: nat): seq<string> {
    if |s| <= n then s else s[|s| - n..]
  }

  lemma LastOfGrows(s: seq<string>, x: string, n: nat)
    requires n > 0
    ensures LastOf(s + [x], n) == (if |LastOf(s, n)| == n then LastOf(s, n)[1..] else LastOf(s, n)) + [x]
  {
  }

  /** Since the last clear, the order is the last max starts, without duplicates, and its ids are
      exactly the runs held. */
  lemma {:induction false} RingHoldsLastStarts(max: nat, starts: seq<string>)
    requires max > 0 && OnlyNewRuns(max, starts)
    ensures WellFormed(RingAfter(max, starts))
    ensures RingAfter(max, starts).order == LastOf(starts, max)
  {
    if starts != [] {
      var init, last := starts[..|starts| - 1], starts[|starts| - 1];
      assert starts == init + [last];
      forall n | 0 <= n < |init| ensures init[n] !in RingAfter(max, init[..n]).runs {
        assert init[..n] == starts[..n];
      }
      RingHoldsLastStarts(max, init);
      StartOfNewRun(max, RingAfter(max, init), last);
      LastOfGrows(init, last, max);
    }
  }

  /** So listing never meets a missing run. */
  lemma ListingFindsEveryRun(max: nat, starts: seq<string>, limit: nat, offset: nat)
    requires max > 0 && OnlyNewRuns(max, starts)
    ensures forall id | id in Listed(RingAfter(max, starts).order, limit, offset) :: id in RingAfter(max, starts).runs
  {
    RingHoldsLastStarts(max, starts);
  }
}
