/** The executor's tool-call loop: layered guards, one answer message per call. */
module ToolCalls {
  import opened Common

  type Args = map<string, string>

  datatype ToolCall = ToolCall(id: string, name: string, args: Option<Args>)

  datatype ToolMessage = ToolMessage(content: string, callId: string)

  datatype ToolResult = ToolResult(tool: string, args: Args, result: Option<string>, error: Option<string>, success: bool)

  datatype Invocation = Invocation(tool: string, args: Args)

  datatype HookAnswer = Passes | Refuses | HookRaises(error: string)

  datatype GateAnswer =
    | Approved(args: Option<Args>)
    | Rejected(reason: Option<string>)
    | NotConfirmed(reason: Option<string>)
    | GateRaises(error: string)
    | Suspends

  /** A registered tool reports a failure as a text; anything else raises. */
  datatype ToolAnswer = Output(text: string) | ReportedFailure(error: string) | ToolRaises(error: string)

  /** Everything that decides whether a call may run. Hook and gate may answer differently at
      every position; labels is None when no required parameter is missing. */
  datatype Guards = Guards(
    allowed: set<string>,
    role: string,
    roleAllows: string -> bool,
    hook: (nat, Args) -> HookAnswer,
    labels: (string, Args) -> Option<string>,
    gate: Option<(nat, Args) -> GateAnswer>)

  const SIDE_EFFECT_TOOLS: set<string> := {"sql_query", "file_processing", "web_search"}
  const FAILURE_PREFIX := "工具执行失败: "
  const REFUSED_PREFIX := "工具调用被拒绝: "
  const BLOCKED_PREFIX := "工具调用被阻断: 缺少必要参数 "

  /** What the loop does with one call. */
  datatype Verdict = Refused(content: string) | Runs(args: Args) | Suspended

  function ArgsOf(call: ToolCall): Args {
    call.args.GetOr(map[])
  }

  /** The reason for which the policy refuses the call, if it does. */
  function PolicyRefusal(g: Guards, k: nat, call: ToolCall): Option<string> {
    if call.name !in g.allowed then Some("工具未登记在白名单中，默认拒绝: " + call.name)
    else if !g.roleAllows(call.name) then Some("当前角色 '" + g.role + "' 无权调用工具 " + call.name)
    else if g.gate.None? && call.name in SIDE_EFFECT_TOOLS then
      match g.hook(k, ArgsOf(call))
      case Passes => None
      case Refuses => Some("副作用工具审批被拒绝: " + call.name)
      case HookRaises(e) => Some("副作用工具审批钩子异常，拒绝执行 " + call.name + ": " + e)
    else None
  }

  function OrElse(s: Option<string>, default: string): string {
    if Truthy(s) then s.value else default
  }

  /** An approver's argument dictionary replaces the call's own, unless it is empty. */
  function Effective(own: Args, approved: Option<Args>): Args {
    if approved.Some? && approved.value != map[] then approved.value else own
  }

  function GateVerdict(answer: GateAnswer, own: Args): Verdict {
    match answer
    case Approved(args) => Runs(Effective(own, args))
    case Rejected(reason) => Refused("工具调用被拒绝: " + OrElse(reason, "用户拒绝") + "，请调整方案或如实向用户说明")
    case NotConfirmed(reason) => Refused("工具调用未获确认，已取消: " + OrElse(reason, ""))
    case GateRaises(e) => Refused("工具调用被拒绝: 审批闸门异常 " + e)
    case Suspends => Suspended
  }

  function VerdictOn(g: Guards, k: nat, call: ToolCall): Verdict {
    var refusal, labels := PolicyRefusal(g, k, call), g.labels(call.name, ArgsOf(call));
    if refusal.Some? then Refused(REFUSED_PREFIX + refusal.value)
    else if labels.Some? then
      Refused(BLOCKED_PREFIX + labels.value + "。不要猜测或编造这些参数，请先向用户询问。")
    else if g.gate.Some? then GateVerdict(g.gate.value(k, ArgsOf(call)), ArgsOf(call))
    else Runs(ArgsOf(call))
  }

  function ContentOf(answer: ToolAnswer): string {
    match answer
    case Output(text) => text
    case ReportedFailure(e) => FAILURE_PREFIX + e
    case ToolRaises(e) => FAILURE_PREFIX + e
  }

  function ResultOf(i: Invocation, answer: ToolAnswer): ToolResult {
    if answer.ToolRaises? then ToolResult(i.tool, i.args, None, Some(answer.error), false)
    else ToolResult(i.tool, i.args, Some(ContentOf(answer)), None, true)
  }

  // ---- a list of calls, given what is done with each ----

  function Verdicts(g: Guards, calls: seq<ToolCall>): (vs: seq<Verdict>)
    ensures |vs| == |calls|
    ensures forall k {:trigger VerdictOn(g, k, calls[k])} | 0 <= k < |calls| :: vs[k] == VerdictOn(g, k, calls[k])
  {
    if calls == [] then []
    else Verdicts(g, calls[..|calls| - 1]) + [VerdictOn(g, |calls| - 1, calls[|calls| - 1])]
  }

  /** The positions below n whose call runs. */
  function RunPositions(vs: seq<Verdict>, n: nat): (positions: seq<nat>)
    requires n <= |vs|
    ensures forall i | 0 <= i < |positions| :: positions[i] < n && vs[positions[i]].Runs?
  {
    if n == 0 then [] else RunPositions(vs, n - 1) + (if vs[n - 1].Runs? then [n - 1] else [])
  }

  /** What the first n calls invoke, in order. */
  function Invocations(calls: seq<ToolCall>, vs: seq<Verdict>, n: nat): (invocations: seq<Invocation>)
    requires n <= |calls| == |vs|
    ensures |invocations| == |RunPositions(vs, n)|
  {
    if n == 0 then []
    else Invocations(calls, vs, n - 1) + (if vs[n - 1].Runs? then [Invocation(calls[n - 1].name, vs[n - 1].args)] else [])
  }

  /** The first call that suspends the run, or the number of calls. */
  function SuspendedAt(vs: seq<Verdict>, from: nat): (k: nat)
    requires from <= |vs|
    ensures from <= k <= |vs|
    ensures forall j | from <= j < k :: !vs[j].Suspended?
    ensures k < |vs| ==> vs[k].Suspended?
    decreases |vs| - from
  {
    if from == |vs| || vs[from].Suspended? then from else SuspendedAt(vs, from + 1)
  }

  /** What the loop says about the first n calls when the tools were used start times before. */
  function Messages(calls: seq<ToolCall>, vs: seq<Verdict>, n: nat, behaviour: nat -> ToolAnswer, start: nat): (messages: seq<ToolMessage>)
    requires n <= |calls| == |vs|
    ensures |messages| == n
  {
    if n == 0 then []
    else
      Messages(calls, vs, n - 1, behaviour, start)
      + [ToolMessage(match vs[n - 1]
                     case Refused(content) => content
                     case Runs(_) => ContentOf(behaviour(start + |RunPositions(vs, n - 1)|))
                     case Suspended => "",
                     calls[n - 1].id)]
  }

  /** The results collected from the first n calls: those invoked, in order, failures included. */
  function Results(calls: seq<ToolCall>, vs: seq<Verdict>, n: nat, behaviour: nat -> ToolAnswer, start: nat): (results: seq<ToolResult>)
    requires n <= |calls| == |vs|
  {
    if n == 0 then []
    else
      var sofar := Results(calls, vs, n - 1, behaviour, start);
      if vs[n - 1].Runs?
      then sofar + [ResultOf(Invocation(calls[n - 1].name, vs[n - 1].args), behaviour(start + |RunPositions(vs, n - 1)|))]
      else sofar
  }

  /** The registry of tools; its log says what was really run. */
  class ToolBelt {
    const behaviour: nat -> ToolAnswer
    var log: seq<Invocation>

    constructor (behaviour: nat -> ToolAnswer)
      ensures this.behaviour == behaviour && log == []
    {
      this.behaviour, log := behaviour, [];
    }

    method Invoke(name: string, args: Args) returns (answer: ToolAnswer)
      modifies this
      ensures log == old(log) + [Invocation(name, args)] && answer == behaviour(|old(log)|)
    {
      answer := behaviour(|log|);
      log := log + [Invocation(name, args)];
    }
  }

  /** What the policy lets pass: a listed tool, permitted to the role, and, when no gate decides
      about side effects, without any or passed by the hook. */
  predicate PolicyAllows(g: Guards, k: nat, name: string, args: Args) {
    && name in g.allowed && g.roleAllows(name)
    && (g.gate.Some? || name !in SIDE_EFFECT_TOOLS || g.hook(k, args).Passes?)
  }

  predicate GateApproves(g: Guards, k: nat, args: Args) {
    g.gate.Some? ==> g.gate.value(k, args).Approved?
  }

  predicate GateSuspends(g: Guards, k: nat, args: Args) {
    g.gate.Some? && g.gate.value(k, args).Suspends?
  }

  /** A reason is given exactly when the policy does not let the call pass; an exception of the hook is
      one. The white list comes before the role, the role before the hook. */
  method PolicyCheck(g: Guards, k: nat, name: string, args: Args) returns (reason: Option<string>)
    ensures reason.None? <==> PolicyAllows(g, k, name, args)
    ensures name !in g.allowed ==> reason == Some("工具未登记在白名单中，默认拒绝: " + name)
    ensures name in g.allowed && !g.roleAllows(name) ==> reason == Some("当前角色 '" + g.role + "' 无权调用工具 " + name)
    ensures forall call: ToolCall | call.name == name && ArgsOf(call) == args :: reason == PolicyRefusal(g, k, call)
  {
    if name !in g.allowed {
      return Some("工具未登记在白名单中，默认拒绝: " + name);
    }
    if !g.roleAllows(name) {
      return Some("当前角色 '" + g.role + "' 无权调用工具 " + name);
    }
    if g.gate.None? && name in SIDE_EFFECT_TOOLS {
      var answer := g.hook(k, args);
      if answer.HookRaises? {
        return Some("副作用工具审批钩子异常，拒绝执行 " + name + ": " + answer.error);
      }
      if answer.Refuses? {
        return Some("副作用工具审批被拒绝: " + name);
      }
    }
    return None;
  }

  /** The guards of one call. It runs if and only if the policy lets it pass, no required parameter is
      missing and the gate, if there is one, approves; it suspends the run if and only if the gate is
      reached and suspends; in every other case, exceptions included, it is refused. The arguments it
      runs with are its own unless the approver gave others. */
  method Guard(g: Guards, k: nat, call: ToolCall) returns (verdict: Verdict)
    ensures verdict.Runs? <==>
              && PolicyAllows(g, k, call.name, ArgsOf(call)) && g.labels(call.name, ArgsOf(call)).None?
              && GateApproves(g, k, ArgsOf(call))
    ensures verdict.Suspended? <==>
              && PolicyAllows(g, k, call.name, ArgsOf(call)) && g.labels(call.name, ArgsOf(call)).None?
              && GateSuspends(g, k, ArgsOf(call))
    ensures verdict.Runs? && g.gate.None? ==> verdict.args == ArgsOf(call)
    ensures verdict.Refused? && !PolicyAllows(g, k, call.name, ArgsOf(call)) ==> REFUSED_PREFIX <= verdict.content
    ensures verdict.Refused? && PolicyAllows(g, k, call.name, ArgsOf(call)) && g.labels(call.name, ArgsOf(call)).Some? ==>
              BLOCKED_PREFIX + g.labels(call.name, ArgsOf(call)).value <= verdict.content
    ensures verdict == VerdictOn(g, k, call)
  {
    var args := call.args.GetOr(map[]);
    var reason := PolicyCheck(g, k, call.name, args);
    if reason.Some? {
      return Refused(REFUSED_PREFIX + reason.value);
    }
    var labels := g.labels(call.name, args);
    if labels.Some? {
      return Refused(BLOCKED_PREFIX + labels.value + "。不要猜测或编造这些参数，请先向用户询问。");
    }
    if g.gate.Some? {
      return GateVerdict(g.gate.value(k, args), args);
    }
    return Runs(args);
  }

  /** How the transcript grows by one call. */
  lemma OneMore(calls: seq<ToolCall>, vs: seq<Verdict>, k: nat, behaviour: nat -> ToolAnswer, start: nat)
    requires k < |calls| == |vs|
    ensures var answer := behaviour(start + |RunPositions(vs, k)|);
            var invocation := Invocation(calls[k].name, if vs[k].Runs? then vs[k].args else map[]);
            && (vs[k].Refused? ==>
                  && Messages(calls, vs, k + 1, behaviour, start)
                     == Messages(calls, vs, k, behaviour, start) + [ToolMessage(vs[k].content, calls[k].id)]
                  && Results(calls, vs, k + 1, behaviour, start) == Results(calls, vs, k, behaviour, start)
                  && Invocations(calls, vs, k + 1) == Invocations(calls, vs, k))
            && (vs[k].Runs? ==>
                  && Messages(calls, vs, k + 1, behaviour, start)
                     == Messages(calls, vs, k, behaviour, start) + [ToolMessage(ContentOf(answer), calls[k].id)]
                  && Results(calls, vs, k + 1, behaviour, start)
                     == Results(calls, vs, k, behaviour, start) + [ResultOf(invocation, answer)]
                  && Invocations(calls, vs, k + 1) == Invocations(calls, vs, k) + [invocation])
  {
  }

  /** The first n calls have been dealt with, and the tools' log was before when the loop began. */
  ghost predicate SoFar(tools: ToolBelt, calls: seq<ToolCall>, vs: seq<Verdict>, n: nat, before: seq<Invocation>,
                        messages: seq<ToolMessage>, results: seq<ToolResult>)
    requires n <= |calls| == |vs|
    reads tools
  {
    && messages == Messages(calls, vs, n, tools.behaviour, |before|)
    && results == Results(calls, vs, n, tools.behaviour, |before|)
    && tools.log == before + Invocations(calls, vs, n)
  }

  /** One call that does not suspend the run: a refusal is answered; otherwise the tool runs and
      its result is collected and answered. */
  method AnswerCall(tools: ToolBelt, calls: seq<ToolCall>, k: nat, verdict: Verdict, messages: seq<ToolMessage>,
                    results: seq<ToolResult>, ghost vs: seq<Verdict>, ghost before: seq<Invocation>)
    returns (messages': seq<ToolMessage>, results': seq<ToolResult>)
    requires k < |calls| == |vs| && verdict == vs[k] && !verdict.Suspended?
    requires SoFar(tools, calls, vs, k, before, messages, results)
    modifies tools
    ensures SoFar(tools, calls, vs, k + 1, before, messages', results')
  {
    OneMore(calls, vs, k, tools.behaviour, |before|);
    var call := calls[k];
    match verdict
    case Refused(content) =>
      messages', results' := messages + [ToolMessage(content, call.id)], results;
    case Runs(args) =>
      assert before + Invocations(calls, vs, k) + [Invocation(call.name, args)]
          == before + (Invocations(calls, vs, k) + [Invocation(call.name, args)]);
      var answer := tools.Invoke(call.name, args);
      results' := results + [ResultOf(Invocation(call.name, args), answer)];
      messages' := messages + [ToolMessage(ContentOf(answer), call.id)];
  }

  /** The whole loop. Without a suspension every call is answered; with one, nothing from the
      suspending call on is run or answered. The tools run exactly the calls that all guards let
      pass, in order, and the results list exactly these. */
  method RunToolCallsLoop(g: Guards, tools: ToolBelt, calls: seq<ToolCall>)
    returns (messages: seq<ToolMessage>, results: seq<ToolResult>, suspended: bool)
    modifies tools
    ensures suspended == (SuspendedAt(Verdicts(g, calls), 0) < |calls|)
    ensures SoFar(tools, calls, Verdicts(g, calls), SuspendedAt(Verdicts(g, calls), 0), old(tools.log), messages, results)
  {
    messages, results, suspended := [], [], false;
    ghost var vs := Verdicts(g, calls);
    assert tools.log == tools.log + [];
    for k := 0 to |calls|
      invariant SuspendedAt(vs, 0) == SuspendedAt(vs, k) && !suspended
      invariant SoFar(tools, calls, vs, k, old(tools.log), messages, results)
    {
      var verdict := Guard(g, k, calls[k]);
      if verdict.Suspended? {
        return messages, results, true;
      }
      messages, results := AnswerCall(tools, calls, k, verdict, messages, results, vs, old(tools.log));
    }
  }

  // ---- what the transcript is ----

  /** The positions run are exactly those whose verdict lets them, in increasing order. */
  lemma {:induction false} RunPositionsExact(vs: seq<Verdict>, n: nat)
    requires n <= |vs|
    ensures forall k :: k in RunPositions(vs, n) <==> 0 <= k < n && vs[k].Runs?
    ensures forall i, j | 0 <= i < j < |RunPositions(vs, n)| :: RunPositions(vs, n)[i] < RunPositions(vs, n)[j]
  {
    if n > 0 {
      RunPositionsExact(vs, n - 1);
    }
  }

  /** Exactly one message per call, with the calls' ids in their order; a refused call is answered
      with its refusal, a call that runs with what its tool gave. */
  lemma {:induction false} OneMessagePerCall(calls: seq<ToolCall>, vs: seq<Verdict>, n: nat, behaviour: nat -> ToolAnswer,
                                             start: nat, k: nat)
    requires k < n <= |calls| == |vs|
    ensures var message := Messages(calls, vs, n, behaviour, start)[k];
            && message.callId == calls[k].id
            && (vs[k].Refused? ==> message.content == vs[k].content)
            && (vs[k].Runs? ==> message.content == ContentOf(behaviour(start + |RunPositions(vs, k)|)))
  {
    if k < n - 1 {
      OneMessagePerCall(calls, vs, n - 1, behaviour, start, k);
    }
  }

  /** There are as many results as calls that run. The i-th invocation, and the i-th result, are
      those of the i-th call that runs: its name, the arguments its guards settled on, and what the
      tool gave at that time. */
  lemma {:induction false} ResultsAreTheInvokedCalls(calls: seq<ToolCall>, vs: seq<Verdict>, n: nat,
                                                     behaviour: nat -> ToolAnswer, start: nat, i: nat)
    requires n <= |calls| == |vs|
    ensures |Results(calls, vs, n, behaviour, start)| == |RunPositions(vs, n)|
    ensures i < |RunPositions(vs, n)| ==>
              var k := RunPositions(vs, n)[i];
              && Invocations(calls, vs, n)[i] == Invocation(calls[k].name, vs[k].args)
              && Results(calls, vs, n, behaviour, start)[i] == ResultOf(Invocations(calls, vs, n)[i], behaviour(start + i))
  {
    if n > 0 {
      ResultsAreTheInvokedCalls(calls, vs, n - 1, behaviour, start, i);
    }
  }

  // ---- what the guards guarantee ----

  /** The verdict in one sentence: a call runs if and only if it is listed, the role permits it, no
      required parameter is missing, and: the gate approved it, or there is no gate and it has no side
      effect or the hook let it pass. */
  lemma RunsIff(g: Guards, k: nat, call: ToolCall)
    ensures VerdictOn(g, k, call).Runs? <==>
      && PolicyAllows(g, k, call.name, ArgsOf(call)) && g.labels(call.name, ArgsOf(call)).None?
      && GateApproves(g, k, ArgsOf(call))
  {
  }

  /** No guard fails open: an exception of the hook or of the gate refuses the call. */
  lemma ExceptionsRefuse(g: Guards, k: nat, call: ToolCall)
    requires if g.gate.Some? then g.gate.value(k, ArgsOf(call)).GateRaises?
             else call.name in SIDE_EFFECT_TOOLS && g.hook(k, ArgsOf(call)).HookRaises?
    ensures VerdictOn(g, k, call).Refused?
  {
  }

  /** The i-th call that runs has i calls that run before it. */
  lemma {:induction false} RankOfPosition(vs: seq<Verdict>, n: nat, i: nat)
    requires n <= |vs| && i < |RunPositions(vs, n)|
    ensures |RunPositions(vs, RunPositions(vs, n)[i])| == i
  {
    if i < |RunPositions(vs, n - 1)| {
      RankOfPosition(vs, n - 1, i);
    }
  }

  /** In the whole transcript a result counts as a success unless its tool raised. So a tool that
      reports its failure is listed as a success, while the model reads for the same call the very
      text that it reads when a tool raises. */
  lemma ReportedFailureCountsAsSuccess(calls: seq<ToolCall>, vs: seq<Verdict>, n: nat, behaviour: nat -> ToolAnswer,
                                       start: nat, i: nat)
    requires n <= |calls| == |vs| && i < |RunPositions(vs, n)|
    ensures |Results(calls, vs, n, behaviour, start)| == |RunPositions(vs, n)|
    ensures Results(calls, vs, n, behaviour, start)[i].success <==> !behaviour(start + i).ToolRaises?
    ensures behaviour(start + i).ReportedFailure? || behaviour(start + i).ToolRaises? ==>
              Messages(calls, vs, n, behaviour, start)[RunPositions(vs, n)[i]].content
              == FAILURE_PREFIX + behaviour(start + i).error
  {
    ResultsAreTheInvokedCalls(calls, vs, n, behaviour, start, i);
    RankOfPosition(vs, n, i);
    OneMessagePerCall(calls, vs, n, behaviour, start, RunPositions(vs, n)[i]);
  }

  /** What the model reads and what is collected for the i-th call that runs, told from what its tool gave
      and from the guards' verdict on the call alone. */
  lemma TranscriptShowsAnswers(g: Guards, calls: seq<ToolCall>, n: nat, behaviour: nat -> ToolAnswer, start: nat, i: nat)
    returns (k: nat)
    requires n <= |calls| && i < |RunPositions(Verdicts(g, calls), n)|
    ensures k == RunPositions(Verdicts(g, calls), n)[i] && VerdictOn(g, k, calls[k]).Runs?
    ensures i < |Results(calls, Verdicts(g, calls), n, behaviour, start)|
    ensures var message := Messages(calls, Verdicts(g, calls), n, behaviour, start)[k];
            var result := Results(calls, Verdicts(g, calls), n, behaviour, start)[i];
            && message.callId == calls[k].id
            && result.tool == calls[k].name && result.args == VerdictOn(g, k, calls[k]).args
            && match behaviour(start + i)
               case Output(text) =>
                 message.content == text && result.result == Some(text) && result.error.None? && result.success
               case ReportedFailure(error) =>
                 && message.content == "工具执行失败: " + error
                 && result.result == Some("工具执行失败: " + error) && result.error.None? && result.success
               case ToolRaises(error) =>
                 && message.content == "工具执行失败: " + error
                 && result.result.None? && result.error == Some(error) && !result.success
  {
    var vs := Verdicts(g, calls);
    k := RunPositions(vs, n)[i];
    ResultsAreTheInvokedCalls(calls, vs, n, behaviour, start, i);
    RankOfPosition(vs, n, i);
    OneMessagePerCall(calls, vs, n, behaviour, start, k);
  }

  /** What a refused call is answered when the policy does not let it pass: white list before role before hook. */
  lemma PolicyRefusalText(g: Guards, k: nat, call: ToolCall)
    requires !PolicyAllows(g, k, call.name, ArgsOf(call))
    ensures VerdictOn(g, k, call).Refused?
    ensures VerdictOn(g, k, call).content == "工具调用被拒绝: " +
              if call.name !in g.allowed then "工具未登记在白名单中，默认拒绝: " + call.name
              else if !g.roleAllows(call.name) then "当前角色 '" + g.role + "' 无权调用工具 " + call.name
              else if g.hook(k, ArgsOf(call)).HookRaises?
                then "副作用工具审批钩子异常，拒绝执行 " + call.name + ": " + g.hook(k, ArgsOf(call)).error
              else "副作用工具审批被拒绝: " + call.name
  {
  }

  /** ... when parameters are missing: which. */
  lemma MissingParametersText(g: Guards, k: nat, call: ToolCall)
    requires PolicyAllows(g, k, call.name, ArgsOf(call)) && g.labels(call.name, ArgsOf(call)).Some?
    ensures VerdictOn(g, k, call) == Refused("工具调用被阻断: 缺少必要参数 " + g.labels(call.name, ArgsOf(call)).value
                                             + "。不要猜测或编造这些参数，请先向用户询问。")
  {
  }

  /** ... and when only the gate is left: its reason, or a default one. */
  lemma GateRefusalText(g: Guards, k: nat, call: ToolCall)
    requires PolicyAllows(g, k, call.name, ArgsOf(call)) && g.labels(call.name, ArgsOf(call)).None?
    requires VerdictOn(g, k, call).Refused?
    ensures g.gate.Some?
    ensures match g.gate.value(k, ArgsOf(call))
            case Rejected(reason) =>
              VerdictOn(g, k, call).content
              == "工具调用被拒绝: " + (if reason.GetOr("") != "" then reason.value else "用户拒绝") + "，请调整方案或如实向用户说明"
            case NotConfirmed(reason) => VerdictOn(g, k, call).content == "工具调用未获确认，已取消: " + reason.GetOr("")
            case GateRaises(error) => VerdictOn(g, k, call).content == "工具调用被拒绝: 审批闸门异常 " + error
            case _ => false
  {
  }

  /** Arguments of an invocation: the call's own, unless an approver gave a non-empty dictionary. */
  lemma RunsWithApprovedArgs(g: Guards, k: nat, call: ToolCall)
    requires VerdictOn(g, k, call).Runs?
    ensures var args := VerdictOn(g, k, call).args;
            if g.gate.Some? && g.gate.value(k, ArgsOf(call)).args.GetOr(map[]) != map[]
            then Some(args) == g.gate.value(k, ArgsOf(call)).args
            else args == ArgsOf(call)
  {
  }

  lemma InvocationsStep(calls: seq<ToolCall>, vs: seq<Verdict>, n: nat)
    requires 0 < n <= |calls| == |vs|
    ensures Invocations(calls, vs, n)
            == Invocations(calls, vs, n - 1)
               + (if vs[n - 1].Runs? then [Invocation(calls[n - 1].name, vs[n - 1].args)] else [])
  {
  }

  /** Refused calls leave no trace among the invocations: those of a list are the same whatever
      refused calls stand in front of it. */
  lemma {:induction false} RefusedCallsDoNotCount(call: ToolCall, content: string, calls: seq<ToolCall>, vs: seq<Verdict>, n: nat)
    requires n <= |calls| == |vs|
    ensures Invocations([call] + calls, [Refused(content)] + vs, n + 1) == Invocations(calls, vs, n)
  {
    if n == 0 {
      assert Invocations([call] + calls, [Refused(content)] + vs, 0) == [];
    } else {
      RefusedCallsDoNotCount(call, content, calls, vs, n - 1);
      var calls', vs' := [call] + calls, [Refused(content)] + vs;
      assert calls'[n] == calls[n - 1] && vs'[n] == vs[n - 1];
      InvocationsStep(calls, vs, n);
      InvocationsStep(calls', vs', n + 1);
    }
  }
}
