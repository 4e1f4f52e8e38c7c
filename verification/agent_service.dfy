/** One execution segment of the agent service: the event loop with its trace spans, and the way
    a run is closed. */
module AgentServices {
  import opened Common
  import opened AgentStates
  import opened Workflow
  import opened TaskModel
  import opened TaskControl
  import opened TaskServices
  import opened Budget
  import opened Tracing
  import Lifecycle
  import WorkflowOutcome

  datatype Flag = NoRequest | PauseFlag | CancelFlag

  /** One turn of the event loop: the model calls recorded while the node ran, the node's event, and
      what the control service answers afterwards. */
  datatype Turn = Turn(calls: seq<(int, int)>, event: NodeEvent, flag: Flag)

  /** What the stream brings: a node with its calls and event, and the pause requests (false) and
      cancel requests (true) that arrived meanwhile. */
  datatype Arrival = Arrival(calls: seq<(int, int)>, event: NodeEvent, requests: seq<bool>)

  /** What the service finds when it looks: cancel before pause. */
  function FlagOf(id: string, pause: set<string>, cancel: set<string>): Flag {
    if id in cancel then CancelFlag else if id in pause then PauseFlag else NoRequest
  }

  /** The last request counts; without one the flag stays. */
  function FlagAfter(f: Flag, requests: seq<bool>): Flag {
    if requests == [] then f else if requests[|requests| - 1] then CancelFlag else PauseFlag
  }

  /** The turns of the loop when it starts with flag f: as long as it goes on, no request arrived. */
  function TurnsOf(f: Flag, arrivals: seq<Arrival>): (turns: seq<Turn>)
    ensures |turns| == |arrivals|
    ensures forall i | 0 <= i < |turns| ::
              turns[i] == Turn(arrivals[i].calls, arrivals[i].event, FlagAfter(f, arrivals[i].requests))
  {
    seq(|arrivals|, i requires 0 <= i < |arrivals| =>
      Turn(arrivals[i].calls, arrivals[i].event, FlagAfter(f, arrivals[i].requests)))
  }

  /** Rounds a cost to six decimals; nothing here depends on how ties are rounded. */
  type Rounding = real -> real

  /** The usage as a snapshot shows it, with the cost rounded. */
  function Snapshot(round: Rounding, u: Usage): Usage {
    u.(cost := round(u.cost))
  }

  function SpanOf(node: Node, now: Usage, before: Usage): NodeSpan {
    NodeSpan(node, now.calls - before.calls, now.prompt - before.prompt,
             now.completion - before.completion, now.cost - before.cost)
  }

  /** What a segment has done so far: the task as written, the spans recorded, the usage, the
      snapshot at the last event, and the last text an event carried. */
  datatype Segment = Segment(task: Task, spans: seq<NodeSpan>, usage: Usage, seen: Usage, text: Option<string>)

  function StartOf(t: Task): Segment {
    Segment(t, [], NO_USAGE, NO_USAGE, None)
  }

  function AfterTurn(round: Rounding, l: Limits, s: Segment, turn: Turn): Segment {
    var usage := RecordAll(l, s.usage, turn.calls);
    var text := turn.event.update.finalResult.GetOr(None);
    Segment(HandleEvent(s.task, turn.event),
            s.spans + [SpanOf(turn.event.node, Snapshot(round, usage), s.seen)],
            usage,
            Snapshot(round, usage),
            if turn.flag.NoRequest? && Truthy(text) then text else s.text)
  }

  function After(round: Rounding, l: Limits, s: Segment, turns: seq<Turn>): Segment {
    if turns == [] then s
    else AfterTurn(round, l, After(round, l, s, turns[..|turns| - 1]), turns[|turns| - 1])
  }

  /** How many turns are handled when those before n found no control request: the loop ends after
      the first that does. */
  function StopAt(turns: seq<Turn>, n: nat): (k: nat)
    requires n <= |turns|
    ensures n <= k <= |turns|
    ensures forall i | n <= i < k - 1 :: turns[i].flag.NoRequest?
    ensures k < |turns| ==> n < k && !turns[k - 1].flag.NoRequest?
    decreases |turns| - n
  {
    if n == |turns| then n
    else if !turns[n].flag.NoRequest? then n + 1
    else StopAt(turns, n + 1)
  }

  function Handled(turns: seq<Turn>): seq<Turn> {
    turns[..StopAt(turns, 0)]
  }

  predicate Stopped(handled: seq<Turn>) {
    handled != [] && !handled[|handled| - 1].flag.NoRequest?
  }

  function StopStatus(handled: seq<Turn>): TaskStatus
    requires Stopped(handled)
  {
    if handled[|handled| - 1].flag.CancelFlag? then Cancelled else Paused
  }

  /** A graph that ends by itself is closed with the last text an event carried, or else with the
      result found in the checkpoint. */
  function EndingWith(s: Segment, ending: Lifecycle.Ending): Lifecycle.Ending {
    if ending.Finish? && s.text.Some? then Lifecycle.Finish(s.text) else ending
  }

  function ClosedTask(s: Segment, handled: seq<Turn>, ending: Lifecycle.Ending): Task {
    if Stopped(handled) then s.task.(status := StopStatus(handled))
    else Lifecycle.EndedTask(s.task, EndingWith(s, ending))
  }

  /** The usage that a segment writes to its trace; none when the stream raises. */
  function SegmentTotal(round: Rounding, l: Limits, s: Segment, handled: seq<Turn>, trailing: seq<(int, int)>,
                        ending: Lifecycle.Ending): Option<Usage>
  {
    if Stopped(handled) then Some(Snapshot(round, s.usage))
    else if ending.Crash? then None
    else Some(Snapshot(round, RecordAll(l, s.usage, trailing)))
  }

  /** Spans and totals go to the run's trace, if it is still held, and the record to its task, if it
      exists. */
  function WithSpans(runs: map<string, Trace>, id: string, spans: seq<NodeSpan>): map<string, Trace> {
    if id in runs then runs[id := runs[id].(spans := runs[id].spans + spans)] else runs
  }

  function WithTotal(runs: map<string, Trace>, id: string, total: Option<Usage>): map<string, Trace> {
    if id in runs && total.Some? then runs[id := runs[id].(total := total.value)] else runs
  }

  /** The traces as a segment leaves them. */
  function RunsAfter(round: Rounding, l: Limits, runs: map<string, Trace>, id: string, s: Segment, handled: seq<Turn>,
                     trailing: seq<(int, int)>, ending: Lifecycle.Ending): (left: map<string, Trace>)
    ensures left.Keys == runs.Keys
  {
    WithTotal(WithSpans(runs, id, s.spans), id, SegmentTotal(round, l, s, handled, trailing, ending))
  }

  function WithTask(tasks: map<string, Task>, id: string, t: Task): map<string, Task> {
    if id in tasks then tasks[id := t] else tasks
  }

  /** The task a segment starts from; for a missing one any record will do. */
  function TaskOf(tasks: map<string, Task>, id: string): Task {
    if id in tasks then tasks[id] else NewTask(id, "", None)
  }

  /** Model calls are recorded in the budget one by one; an exceeded limit is not seen here. */
  method RecordCalls(budget: TaskBudget, calls: seq<(int, int)>)
    modifies budget
    ensures budget.usage == RecordAll(budget.limits, old(budget.usage), calls)
  {
    for i := 0 to |calls|
      invariant budget.usage == RecordAll(budget.limits, old(budget.usage), calls[..i])
    {
      assert calls[..i + 1][..i] == calls[..i];
      var ok := budget.Record(calls[i].0, calls[i].1);
    }
    assert calls[..|calls|] == calls;
  }

  class AgentService {
    const control: TaskControlService
    const service: TaskService
    const recorder: TraceRecorder
    const round: Rounding

    constructor (control: TaskControlService, service: TaskService, recorder: TraceRecorder, round: Rounding)
      ensures this.control == control && this.service == service && this.recorder == recorder && this.round == round
    {
      this.control, this.service, this.recorder, this.round := control, service, recorder, round;
    }

    /** The fields and locals of the event loop show segment s. */
    ghost predicate Shows(id: string, tasks: map<string, Task>, runs: map<string, Trace>, budget: TaskBudget, s: Segment)
      reads service, recorder, budget
    {
      && service.tasks == WithTask(tasks, id, s.task)
      && recorder.runs == WithSpans(runs, id, s.spans)
      && budget.usage == s.usage
    }

    function Flagging(id: string): Flag
      reads control
    {
      FlagOf(id, control.pause, control.cancel)
    }

    /** Requests of users arrive while a node runs. */
    method Arrive(id: string, requests: seq<bool>)
      modifies control
      ensures Flagging(id) == FlagAfter(old(Flagging(id)), requests)
      ensures requests == [] ==> control.pause == old(control.pause) && control.cancel == old(control.cancel)
    {
      for i := 0 to |requests|
        invariant Flagging(id) == FlagAfter(old(Flagging(id)), requests[..i])
        invariant i == 0 ==> control.pause == old(control.pause) && control.cancel == old(control.cancel)
      {
        if requests[i] {
          control.RequestCancel(id);
        } else {
          control.RequestPause(id);
        }
      }
      assert requests[..|requests|] == requests;
    }

    /** One turn: the calls are recorded, the node's span is written, then its event; then the control
        flags are looked at, and the text of an event that finds no request is kept. */
    method HandleTurn(id: string, budget: TaskBudget, turn: Turn, previous: Usage, text: Option<string>,
                      ghost tasks: map<string, Task>, ghost runs: map<string, Trace>, ghost s: Segment)
      returns (usage: Usage, text': Option<string>, ghost s': Segment)
      requires Shows(id, tasks, runs, budget, s) && previous == s.seen && text == s.text
      requires turn.flag == Flagging(id)
      modifies service, recorder`runs, budget
      ensures s' == AfterTurn(round, budget.limits, s, turn)
      ensures Shows(id, tasks, runs, budget, s') && usage == s'.seen && text' == s'.text
    {
      RecordCalls(budget, turn.calls);
      usage := Snapshot(round, budget.usage);
      MoreSpans(runs, id, s.spans, SpanOf(turn.event.node, usage, previous));
      recorder.AddNodeSpan(id, SpanOf(turn.event.node, usage, previous));
      service.HandleNodeEvent(id, turn.event);
      text' := text;
      if id !in control.cancel && id !in control.pause && Truthy(turn.event.update.finalResult.GetOr(None)) {
        text' := turn.event.update.finalResult.value;
      }
      s' := AfterTurn(round, budget.limits, s, turn);
    }

    /** The loop over the event stream, up to the first control request or the end of the stream. */
    method FollowStream(id: string, budget: TaskBudget, arrivals: seq<Arrival>)
      returns (handled: seq<Turn>, text: Option<string>, ghost s: Segment)
      requires budget.usage == NO_USAGE
      modifies control, service, recorder`runs, budget
      ensures handled == Handled(TurnsOf(old(Flagging(id)), arrivals))
      ensures s == After(round, budget.limits, StartOf(TaskOf(old(service.tasks), id)), handled)
      ensures Shows(id, old(service.tasks), old(recorder.runs), budget, s) && text == s.text
    {
      ghost var turns := TurnsOf(Flagging(id), arrivals);
      handled, text, s := [], None, StartOf(TaskOf(service.tasks, id));
      var previous, n, stopped := NO_USAGE, 0, false;
      NoSpans(recorder.runs, id);
      while n < |arrivals| && !stopped
        invariant n <= |arrivals| && (stopped ==> n > 0)
        invariant handled == turns[..n]
        invariant StopAt(turns, 0) == if stopped then n else StopAt(turns, n)
        invariant !stopped ==> Flagging(id) == old(Flagging(id))
        invariant s == After(round, budget.limits, StartOf(TaskOf(old(service.tasks), id)), turns[..n])
        invariant Shows(id, old(service.tasks), old(recorder.runs), budget, s) && previous == s.seen && text == s.text
        decreases |arrivals| - n, !stopped
      {
        Arrive(id, arrivals[n].requests);
        var turn := Turn(arrivals[n].calls, arrivals[n].event, Flagging(id));
        assert turns[..n + 1][..n] == turns[..n];
        previous, text, s := HandleTurn(id, budget, turn, previous, text, old(service.tasks), old(recorder.runs), s);
        handled := handled + [turn];
        stopped := !turn.flag.NoRequest?;
        n := n + 1;
      }
    }

    /** The closing writes; usage of calls whose node did not finish is recorded before. */
    method CloseSegment(id: string, budget: TaskBudget, handled: seq<Turn>, text: Option<string>, trailing: seq<(int, int)>,
                        ending: Lifecycle.Ending, ghost tasks: map<string, Task>, ghost runs: map<string, Trace>, ghost s: Segment)
      requires Shows(id, tasks, runs, budget, s) && text == s.text
      modifies service, recorder`runs, budget
      ensures service.tasks == WithTask(tasks, id, ClosedTask(s, handled, ending))
      ensures recorder.runs == RunsAfter(round, budget.limits, runs, id, s, handled, trailing, ending)
    {
      if Stopped(handled) {
        recorder.RecordRunUsage(id, Snapshot(round, budget.usage));
        service.UpdateTaskStatus(id, StopStatus(handled));
      } else {
        RecordCalls(budget, trailing);
        if !ending.Crash? {
          recorder.RecordRunUsage(id, Snapshot(round, budget.usage));
        }
        service.CloseByEnding(id, if ending.Finish? && text.Some? then Lifecycle.Finish(text) else ending);
      }
    }

    /** A segment: the stream, then calls of a node that did not finish, then the closing write. */
    method RunSegment(id: string, budget: TaskBudget, arrivals: seq<Arrival>, trailing: seq<(int, int)>, ending: Lifecycle.Ending)
      requires budget.usage == NO_USAGE
      modifies control, service, recorder`runs, budget
      ensures var handled := Handled(TurnsOf(old(Flagging(id)), arrivals));
              var s := After(round, budget.limits, StartOf(TaskOf(old(service.tasks), id)), handled);
              && service.tasks == WithTask(old(service.tasks), id, ClosedTask(s, handled, ending))
              && recorder.runs == RunsAfter(round, budget.limits, old(recorder.runs), id, s, handled, trailing, ending)
    {
      ghost var tasks, runs := service.tasks, recorder.runs;
      var handled, text, s := FollowStream(id, budget, arrivals);
      CloseSegment(id, budget, handled, text, trailing, ending, tasks, runs, s);
    }
  }

  lemma NoSpans(runs: map<string, Trace>, id: string)
    ensures WithSpans(runs, id, []) == runs
  {
    assert id in runs ==> runs[id].spans + [] == runs[id].spans;
  }

  lemma MoreSpans(runs: map<string, Trace>, id: string, spans: seq<NodeSpan>, span: NodeSpan)
    ensures WithSpans(WithSpans(runs, id, spans), id, [span]) == WithSpans(runs, id, spans + [span])
  {
    assert id in runs ==> runs[id].spans + spans + [span] == runs[id].spans + (spans + [span]);
  }

  // ---- what the loop has written, in terms of the events ----

  function EventsOf(turns: seq<Turn>): seq<NodeEvent> {
    if turns == [] then [] else EventsOf(turns[..|turns| - 1]) + [turns[|turns| - 1].event]
  }

  /** The task is the fold of the events, whatever the calls cost, and unless a request stopped the
      loop the text is the last one that an event carried. */
  lemma {:induction false} SegmentFollowsEvents(round: Rounding, l: Limits, t: Task, turns: seq<Turn>)
    ensures After(round, l, StartOf(t), turns).task == HandleEvents(t, EventsOf(turns))
    ensures (forall turn | turn in turns :: turn.flag.NoRequest?) ==>
              After(round, l, StartOf(t), turns).text == WorkflowOutcome.LastCarried(EventsOf(turns))
  {
    if turns != [] {
      var init, last := turns[..|turns| - 1], turns[|turns| - 1];
      SegmentFollowsEvents(round, l, t, init);
      assert EventsOf(turns)[..|EventsOf(turns)| - 1] == EventsOf(init);
    }
  }

  predicate NeverStopped(turns: seq<Turn>) {
    forall i | 0 <= i < |turns| :: turns[i].flag.NoRequest?
  }

  lemma {:induction false} AllHandled(turns: seq<Turn>, n: nat)
    requires n <= |turns| && NeverStopped(turns)
    ensures StopAt(turns, n) == |turns|
    decreases |turns| - n
  {
    if n < |turns| {
      AllHandled(turns, n + 1);
    }
  }

  /** The service closes a workflow run that no request stopped with the run's closing result. */
  lemma UnstoppedRunCloses(round: Rounding, l: Limits, t: Task, turns: seq<Turn>, c: Config)
    requires NeverStopped(turns) && EventsOf(turns) == c.events
    ensures var result := WorkflowOutcome.ClosingResult(c);
            ClosedTask(After(round, l, StartOf(t), Handled(turns)), Handled(turns), Lifecycle.Finish(c.state.finalResult))
            == Closed(HandleEvents(t, c.events), if Truthy(result) then TaskStatus.Completed else TaskStatus.Failed, Some(result), None)
  {
    AllHandled(turns, 0);
    assert turns[..|turns|] == turns;
    SegmentFollowsEvents(round, l, t, turns);
  }

  /** From the workflow to the task record: a completed run that no request stopped leaves its task
      failed if and only if it ended empty-handed (the replan limit was reached with subtasks left
      and no event left a stale text, or a review was empty); every other leaves it completed. */
  lemma TaskFailsIff(round: Rounding, l: Limits, t: Task, turns: seq<Turn>, limit: nat, goal: string,
                     previous: seq<TaskResult>, retryFrom: Option<nat>, inputs: seq<Input>)
    requires var c := Run(limit, Start(goal, previous, retryFrom), inputs);
             NeverStopped(turns) && EventsOf(turns) == c.events && c.node.End?
    ensures var c := Run(limit, Start(goal, previous, retryFrom), inputs);
            var t' := ClosedTask(After(round, l, StartOf(t), Handled(turns)), Handled(turns), Lifecycle.Finish(c.state.finalResult));
            && t'.status in {TaskStatus.Failed, TaskStatus.Completed}
            && (t'.status.Failed? <==> WorkflowOutcome.EndsEmptyHanded(limit, c))
  {
    UnstoppedRunCloses(round, l, t, turns, Run(limit, Start(goal, previous, retryFrom), inputs));
    WorkflowOutcome.ClosesFailedIff(limit, goal, previous, retryFrom, inputs);
  }

  // ---- conservation ----

  function SumSpans(spans: seq<NodeSpan>): NodeSpan {
    if spans == [] then NodeSpan(End, 0, 0, 0, 0.0)
    else
      var s, last := SumSpans(spans[..|spans| - 1]), spans[|spans| - 1];
      NodeSpan(End, s.calls + last.calls, s.prompt + last.prompt, s.completion + last.completion, s.cost + last.cost)
  }

  predicate SameAmounts(s: NodeSpan, u: Usage) {
    s.calls == u.calls && s.prompt == u.prompt && s.completion == u.completion && s.cost == u.cost
  }

  /** The spans of a segment add up to the snapshot at its last node event. */
  lemma {:induction false} SpansTelescope(round: Rounding, l: Limits, t: Task, turns: seq<Turn>)
    ensures var s := After(round, l, StartOf(t), turns);
            && SameAmounts(SumSpans(s.spans), s.seen)
            && s.seen == if turns == [] then NO_USAGE
                         else Usage(s.usage.calls, s.usage.prompt, s.usage.completion, round(s.usage.cost))
  {
    if turns != [] {
      var init := turns[..|turns| - 1];
      SpansTelescope(round, l, t, init);
      var s := After(round, l, StartOf(t), turns);
      assert s.spans[..|s.spans| - 1] == After(round, l, StartOf(t), init).spans;
    }
  }

  lemma {:induction false} RecordingAdds(l: Limits, u: Usage, calls: seq<(int, int)>)
    ensures var u' := RecordAll(l, u, calls);
            u'.calls == u.calls + |calls| && u'.prompt >= u.prompt && u'.completion >= u.completion
  {
    if calls != [] {
      RecordingAdds(l, u, calls[..|calls| - 1]);
    }
  }

  /** There is one span for each node event, in order, of its node and with the calls recorded before it. */
  lemma {:induction false} SpanOfEachNode(round: Rounding, l: Limits, t: Task, turns: seq<Turn>, i: nat)
    requires i < |turns|
    ensures var spans := After(round, l, StartOf(t), turns).spans;
            |spans| == |turns| && spans[i].node == turns[i].event.node && spans[i].calls == |turns[i].calls|
  {
    var init := turns[..|turns| - 1];
    var s := After(round, l, StartOf(t), init);
    SpansTelescope(round, l, t, init);
    RecordingAdds(l, s.usage, turns[|turns| - 1].calls);
    if init == [] {
    } else {
      SpanOfEachNode(round, l, t, init, if i < |init| then i else 0);
    }
  }

  lemma {:induction false} SumAppend(a: seq<NodeSpan>, b: seq<NodeSpan>)
    ensures SumSpans(a + b).calls == SumSpans(a).calls + SumSpans(b).calls
    ensures SumSpans(a + b).prompt == SumSpans(a).prompt + SumSpans(b).prompt
    ensures SumSpans(a + b).completion == SumSpans(a).completion + SumSpans(b).completion
  {
    if b == [] {
      assert a + b == a;
    } else {
      assert (a + b)[..|a + b| - 1] == a + b[..|b| - 1];
      SumAppend(a, b[..|b| - 1]);
    }
  }

  /** The calls recorded before the node events of a list of turns. */
  function CallsOf(turns: seq<Turn>): seq<(int, int)> {
    if turns == [] then [] else CallsOf(turns[..|turns| - 1]) + turns[|turns| - 1].calls
  }

  lemma {:induction false} RecordAppend(l: Limits, u: Usage, a: seq<(int, int)>, b: seq<(int, int)>)
    ensures RecordAll(l, u, a + b) == RecordAll(l, RecordAll(l, u, a), b)
  {
    if b == [] {
      assert a + b == a;
    } else {
      assert (a + b)[..|a + b| - 1] == a + b[..|b| - 1];
      RecordAppend(l, u, a, b[..|b| - 1]);
    }
  }

  lemma {:induction false} UsageIsOfCalls(round: Rounding, l: Limits, t: Task, turns: seq<Turn>)
    ensures After(round, l, StartOf(t), turns).usage == RecordAll(l, NO_USAGE, CallsOf(turns))
  {
    if turns != [] {
      var init := turns[..|turns| - 1];
      UsageIsOfCalls(round, l, t, init);
      RecordAppend(l, NO_USAGE, CallsOf(init), turns[|turns| - 1].calls);
    }
  }

  /** A run that raises, and so one that exceeds its budget, writes no total. */
  predicate WritesTotal(handled: seq<Turn>, ending: Lifecycle.Ending) {
    Stopped(handled) || !ending.Crash?
  }

  /** The calls recorded after the last node event. */
  function Late(handled: seq<Turn>, trailing: seq<(int, int)>): seq<(int, int)> {
    if Stopped(handled) then [] else trailing
  }

  /** What a segment adds to the trace of its run, whatever the trace held before: its own calls to the
      spans, and, if it writes a total, the calls of this segment alone as the total. */
  lemma SegmentAddsToTrace(round: Rounding, l: Limits, runs: map<string, Trace>, id: string, t: Task, turns: seq<Turn>,
                           trailing: seq<(int, int)>, ending: Lifecycle.Ending)
    requires id in runs
    ensures var handled := Handled(turns);
            var left := RunsAfter(round, l, runs, id, After(round, l, StartOf(t), handled), handled, trailing, ending)[id];
            var was, sum, own := SumSpans(runs[id].spans), SumSpans(left.spans), RecordAll(l, NO_USAGE, CallsOf(handled));
            && sum.calls == was.calls + own.calls
            && sum.prompt == was.prompt + own.prompt
            && sum.completion == was.completion + own.completion
            && var all := RecordAll(l, own, Late(handled, trailing));
               left.total == if WritesTotal(handled, ending) then Usage(all.calls, all.prompt, all.completion, round(all.cost))
                             else runs[id].total
  {
    var handled := Handled(turns);
    SpansTelescope(round, l, t, handled);
    UsageIsOfCalls(round, l, t, handled);
    SumAppend(runs[id].spans, After(round, l, StartOf(t), handled).spans);
  }

  /** A run as it is started: nothing recorded. */
  predicate Fresh(trace: Trace) {
    trace.spans == [] && trace.total == NO_USAGE
  }

  /** The spans of a run stay within the total written to its trace if and only if the run did not
      raise, or no model call (no token) was recorded before its node events; and they reach it in calls
      if and only if no call was recorded after the last of these, or at all when the run raised. */
  lemma SpansWithinTotalIff(round: Rounding, l: Limits, runs: map<string, Trace>, id: string, t: Task, turns: seq<Turn>,
                            trailing: seq<(int, int)>, ending: Lifecycle.Ending)
    requires id in runs && Fresh(runs[id])
    ensures var handled := Handled(turns);
            var left := RunsAfter(round, l, runs, id, After(round, l, StartOf(t), handled), handled, trailing, ending)[id];
            var sum, own, written := SumSpans(left.spans), RecordAll(l, NO_USAGE, CallsOf(handled)), WritesTotal(handled, ending);
            && (sum.calls <= left.total.calls <==> written || CallsOf(handled) == [])
            && (sum.prompt <= left.total.prompt <==> written || own.prompt == 0)
            && (sum.completion <= left.total.completion <==> written || own.completion == 0)
            && (sum.calls == left.total.calls <==> if written then Late(handled, trailing) == [] else CallsOf(handled) == [])
            && (written && Late(handled, trailing) == [] && handled != [] ==> SameAmounts(sum, left.total))
  {
    var own := RecordAll(l, NO_USAGE, CallsOf(Handled(turns)));
    SegmentAddsToTrace(round, l, runs, id, t, turns, trailing, ending);
    RecordingAdds(l, NO_USAGE, CallsOf(Handled(turns)));
    RecordingAdds(l, own, Late(Handled(turns), trailing));
    SpansTelescope(round, l, t, Handled(turns));
    UsageIsOfCalls(round, l, t, Handled(turns));
    var spans := After(round, l, StartOf(t), Handled(turns)).spans;
    assert runs[id].spans + spans == spans;
  }

  /** The input that shows it: one node with one model call, and then an exception, as when the call
      after it exceeds the budget. */
  lemma CrashLosesTotal(round: Rounding, l: Limits, id: string, t: Task, event: NodeEvent, trailing: seq<(int, int)>, error: string)
    ensures var turns := [Turn([(1, 1)], event, NoRequest)];
            var left := RunsAfter(round, l, map[id := NewTrace(id)], id, After(round, l, StartOf(t), turns), turns,
                                  trailing, Lifecycle.Crash(error))[id];
            Handled(turns) == turns && SumSpans(left.spans).calls == 1 && left.total == NO_USAGE
  {
    var turns := [Turn([(1, 1)], event, NoRequest)];
    AllHandled(turns, 0);
    SegmentAddsToTrace(round, l, map[id := NewTrace(id)], id, t, turns, trailing, Lifecycle.Crash(error));
    RecordingAdds(l, NO_USAGE, CallsOf(turns));
    assert CallsOf(turns) == [(1, 1)];
  }

  /** A resume, or any second segment on the same trace, keeps the spans of both and the total of the
      last one that wrote it: the calls of the spans match the total if and only if the segment whose
      total is lost or missing made as many calls before its node events as the other recorded late. */
  lemma ResumeForgetsFirstSegment(round: Rounding, l: Limits, runs: map<string, Trace>, id: string,
                                  t: Task, first: seq<Turn>, late: seq<(int, int)>, ending: Lifecycle.Ending,
                                  t': Task, second: seq<Turn>, late': seq<(int, int)>, ending': Lifecycle.Ending)
    requires id in runs && Fresh(runs[id])
    ensures var a, b := Handled(first), Handled(second);
            var between := RunsAfter(round, l, runs, id, After(round, l, StartOf(t), a), a, late, ending);
            var left := RunsAfter(round, l, between, id, After(round, l, StartOf(t'), b), b, late', ending')[id];
            SumSpans(left.spans).calls == left.total.calls <==>
              if WritesTotal(b, ending') then |CallsOf(a)| == |Late(b, late')|
              else if WritesTotal(a, ending) then |CallsOf(b)| == |Late(a, late)|
              else CallsOf(a) == [] && CallsOf(b) == []
  {
    var a, b := Handled(first), Handled(second);
    var between := RunsAfter(round, l, runs, id, After(round, l, StartOf(t), a), a, late, ending);
    SegmentAddsToTrace(round, l, runs, id, t, first, late, ending);
    SegmentAddsToTrace(round, l, between, id, t', second, late', ending');
    RecordingAdds(l, NO_USAGE, CallsOf(a));
    RecordingAdds(l, NO_USAGE, CallsOf(b));
    RecordingAdds(l, RecordAll(l, NO_USAGE, CallsOf(a)), Late(a, late));
    RecordingAdds(l, RecordAll(l, NO_USAGE, CallsOf(b)), Late(b, late'));
  }
}
