/** A segment of the agent service, step by step in the life-cycle machine: what the service writes to
    the task is what the machine's steps for the same arrivals write. */
module SegmentRuns {
  import opened TaskModel
  import Workflow
  import opened Lifecycle
  import opened Budget
  import opened AgentServices
  import SingleFlight
  import ControlRequests

  // ---- the steps of a segment ----

  function RequestsOf(id: string, requests: seq<bool>): seq<Action> {
    if requests == [] then []
    else RequestsOf(id, requests[..|requests| - 1]) + [ControlRequests.Request(id, requests[|requests| - 1])]
  }

  /** The requests that arrive, then the node event. */
  function ArrivalSteps(id: string, r: nat, a: Arrival): seq<Action> {
    RequestsOf(id, a.requests) + [NodeDone(r, a.event)]
  }

  function StreamSteps(id: string, r: nat, arrivals: seq<Arrival>): seq<Action> {
    if arrivals == [] then []
    else StreamSteps(id, r, arrivals[..|arrivals| - 1]) + ArrivalSteps(id, r, arrivals[|arrivals| - 1])
  }

  /** The arrivals that are handled, then the closing step. */
  function SegmentSteps(id: string, r: nat, f: Flag, arrivals: seq<Arrival>, s: Segment, ending: Ending): seq<Action> {
    var turns := TurnsOf(f, arrivals);
    StreamSteps(id, r, arrivals[..StopAt(turns, 0)])
    + [if Stopped(Handled(turns)) then Close(r) else StreamEnds(r, EndingWith(s, ending))]
  }

  lemma ExecOne(s: Sys, a: Action)
    ensures Exec(s, [a]) == Step(s, a).sys
  {
    assert [a][1..] == [];
  }

  // ---- the run of the task, between steps ----

  function FlagIn(s: Sys, id: string): Flag {
    FlagOf(id, s.pause, s.cancel)
  }

  /** The run at position r streams, or stops with the flag it has seen. */
  function PhaseFor(f: Flag): Phase {
    match f
    case NoRequest => Streaming
    case PauseFlag => Stopping(false)
    case CancelFlag => Stopping(true)
  }

  /** e is s after the run at position r has written record t and seen flag f; all else is the same. */
  ghost predicate Moved(s: Sys, e: Sys, r: nat, t: Task, f: Flag)
    requires r < |s.runs|
  {
    && e.tasks == s.tasks[s.runs[r].taskId := t] && e.queue == s.queue
    && e.runs == s.runs[r := s.runs[r].(phase := PhaseFor(f))]
  }

  /** Requests on an active task only move its flag. */
  lemma {:induction false} RequestsMoveFlag(s: Sys, id: string, requests: seq<bool>)
    requires id in s.tasks && s.tasks[id].status in ACTIVE
    ensures var e := Exec(s, RequestsOf(id, requests));
            && e.tasks == s.tasks && e.queue == s.queue && e.runs == s.runs
            && FlagIn(e, id) == FlagAfter(FlagIn(s, id), requests)
  {
    if requests != [] {
      var init, last := requests[..|requests| - 1], ControlRequests.Request(id, requests[|requests| - 1]);
      RequestsMoveFlag(s, id, init);
      ExecAppend(s, RequestsOf(id, init), [last]);
      ExecOne(Exec(s, RequestsOf(id, init)), last);
    }
  }

  lemma EventWritten(s: Sys, r: nat, event: Workflow.NodeEvent)
    requires RunAt(s, r, Streaming) && s.runs[r].taskId in s.tasks
    ensures var e := Step(s, NodeDone(r, event)).sys;
            && Moved(s, e, r, HandleEvent(s.tasks[s.runs[r].taskId], event), FlagIn(s, s.runs[r].taskId))
            && e.pause == s.pause && e.cancel == s.cancel
  {
    var run := s.runs[r];
    assert s.runs[r := run.(phase := Streaming)] == s.runs;
  }

  lemma ArrivalWritten(s: Sys, r: nat, a: Arrival)
    requires RunAt(s, r, Streaming) && s.runs[r].taskId in s.tasks && s.tasks[s.runs[r].taskId].status in ACTIVE
    ensures var id := s.runs[r].taskId;
            var e := Exec(s, ArrivalSteps(id, r, a));
            var f := FlagAfter(FlagIn(s, id), a.requests);
            && Moved(s, e, r, HandleEvent(s.tasks[id], a.event), f) && FlagIn(e, id) == f
  {
    var id := s.runs[r].taskId;
    RequestsMoveFlag(s, id, a.requests);
    var m := Exec(s, RequestsOf(id, a.requests));
    ExecAppend(s, RequestsOf(id, a.requests), [NodeDone(r, a.event)]);
    ExecOne(m, NodeDone(r, a.event));
    EventWritten(m, r, a.event);
  }

  lemma StopAtBefore(turns: seq<Turn>, n: nat)
    requires 0 < n <= StopAt(turns, 0)
    ensures forall i | 0 <= i < n - 1 :: turns[i].flag.NoRequest?
  {
  }

  /** After the first n arrivals, none of which but the last found a request: the record is the
      segment's, and the run streams on or stops as the segment says. */
  lemma {:induction false} StreamWritten(round: Rounding, l: Limits, s: Sys, r: nat, arrivals: seq<Arrival>, n: nat)
    requires RunAt(s, r, Streaming) && s.runs[r].taskId in s.tasks && s.tasks[s.runs[r].taskId].status in ACTIVE
    requires n <= |arrivals|
    requires n <= StopAt(TurnsOf(FlagIn(s, s.runs[r].taskId), arrivals), 0)
    ensures var id := s.runs[r].taskId;
            var turns := TurnsOf(FlagIn(s, id), arrivals);
            var e := Exec(s, StreamSteps(id, r, arrivals[..n]));
            var t := After(round, l, StartOf(s.tasks[id]), turns[..n]).task;
            var f := if n == 0 then NoRequest else turns[n - 1].flag;
            && Moved(s, e, r, t, f) && t.status in ACTIVE
            && (f.NoRequest? ==> FlagIn(e, id) == FlagIn(s, id))
  {
    var id := s.runs[r].taskId;
    var turns := TurnsOf(FlagIn(s, id), arrivals);
    if n == 0 {
      assert s.runs[r := s.runs[r].(phase := Streaming)] == s.runs;
    } else {
      StreamWritten(round, l, s, r, arrivals, n - 1);
      StopAtBefore(turns, n);
      assert arrivals[..n][..n - 1] == arrivals[..n - 1];
      assert turns[..n][..n - 1] == turns[..n - 1];
      var m := Exec(s, StreamSteps(id, r, arrivals[..n - 1]));
      ExecAppend(s, StreamSteps(id, r, arrivals[..n - 1]), ArrivalSteps(id, r, arrivals[n - 1]));
      ArrivalWritten(m, r, arrivals[n - 1]);
      SingleFlight.EventKeepsActive(m.tasks[id], arrivals[n - 1].event);
    }
  }

  lemma ClosingStep(s: Sys, e: Sys, r: nat, t: Task, f: Flag, ending: Ending)
    requires r < |s.runs| && s.runs[r].taskId in s.tasks && Moved(s, e, r, t, f)
    ensures var id := s.runs[r].taskId;
            var d := Step(e, if f.NoRequest? then StreamEnds(r, ending) else Close(r)).sys;
            && d.tasks == s.tasks[id := if f.NoRequest? then EndedTask(t, ending)
                                        else t.(status := if f.CancelFlag? then Cancelled else Paused)]
            && d.queue == s.queue && d.runs == s.runs[..r] + s.runs[r + 1..]
  {
    var runs := e.runs;
    assert runs[..r] == s.runs[..r] && runs[r + 1..] == s.runs[r + 1..];
  }

  /** The whole segment: the task record that the service leaves is the one the machine leaves after
      the steps for the same arrivals, requests included, and nothing else has changed but the run
      that is over and the task's flag. */
  lemma SegmentIsExec(round: Rounding, l: Limits, s: Sys, r: nat, arrivals: seq<Arrival>, ending: Ending)
    requires RunAt(s, r, Streaming) && s.runs[r].taskId in s.tasks && s.tasks[s.runs[r].taskId].status in ACTIVE
    ensures var id := s.runs[r].taskId;
            var handled := Handled(TurnsOf(FlagIn(s, id), arrivals));
            var seg := After(round, l, StartOf(s.tasks[id]), handled);
            var e := Exec(s, SegmentSteps(id, r, FlagIn(s, id), arrivals, seg, ending));
            && e.tasks == s.tasks[id := ClosedTask(seg, handled, ending)]
            && e.queue == s.queue && e.runs == s.runs[..r] + s.runs[r + 1..]
  {
    var id := s.runs[r].taskId;
    var turns := TurnsOf(FlagIn(s, id), arrivals);
    var n := StopAt(turns, 0);
    var seg := After(round, l, StartOf(s.tasks[id]), turns[..n]);
    var steps := StreamSteps(id, r, arrivals[..n]);
    StreamWritten(round, l, s, r, arrivals, n);
    var f := if n == 0 then NoRequest else turns[n - 1].flag;
    var closing := if f.NoRequest? then StreamEnds(r, EndingWith(seg, ending)) else Close(r);
    ClosingStep(s, Exec(s, steps), r, seg.task, f, EndingWith(seg, ending));
    ExecAppend(s, steps, [closing]);
    ExecOne(Exec(s, steps), closing);
  }
}
