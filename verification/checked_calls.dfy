/** The tool-call loop with the parameter check in place: no incomplete call reaches a tool. */
module CheckedCalls {
  import opened Common
  import R = Requirements
  import opened ToolCalls

  /** What a check knows besides the call: the rules, how a query is read off the arguments, what was
      extracted before, and the conversation; and how a list of labels is printed. */
  datatype Setting = Setting(rules: R.Rules, queryOf: Args -> string, extracted: R.Source, conversation: string,
                             show: seq<string> -> string)

  function Named(args: Args): R.Source {
    map k | k in args :: Some(args[k])
  }

  function RequestOf(st: Setting, name: string, args: Args): R.Request {
    R.Request(name, Named(args), st.queryOf(args), st.extracted, st.conversation)
  }

  predicate CallComplete(st: Setting, call: ToolCall) {
    R.Complete(st.rules, RequestOf(st, call.name, ArgsOf(call)))
  }

  function LabelsOf(pairs: seq<(string, string)>): seq<string> {
    seq(|pairs|, i requires 0 <= i < |pairs| => pairs[i].1)
  }

  /** The check as the loop uses it: nothing to say about a complete call, otherwise the labels. */
  function CheckOf(st: Setting): (string, Args) -> Option<string> {
    (name, args) =>
      var q := RequestOf(st, name, args);
      if R.FirstOfEachName(R.AllMissing(st.rules, q)) == [] then None
      else Some(st.show(LabelsOf(R.FirstOfEachName(R.AllMissing(st.rules, q)))))
  }

  lemma CheckPassesIffComplete(st: Setting, call: ToolCall)
    ensures CheckOf(st)(call.name, ArgsOf(call)).None? <==> CallComplete(st, call)
  {
    R.NothingMissingIff(st.rules, RequestOf(st, call.name, ArgsOf(call)));
  }

  /** Whatever policy and gate answer, every call that reaches a tool was complete, and every incomplete
      call that the policy lets pass is answered with what is missing. */
  lemma IncompleteCallsNeverRun(st: Setting, g: Guards, calls: seq<ToolCall>, n: nat, k: nat)
    requires g.labels == CheckOf(st) && k < n <= |calls|
    ensures k in RunPositions(Verdicts(g, calls), n) ==> CallComplete(st, calls[k])
    ensures !CallComplete(st, calls[k]) && PolicyAllows(g, k, calls[k].name, ArgsOf(calls[k])) ==>
              Verdicts(g, calls)[k].Refused? && BLOCKED_PREFIX <= Verdicts(g, calls)[k].content
  {
    CheckPassesIffComplete(st, calls[k]);
    RunPositionsExact(Verdicts(g, calls), n);
    assert Verdicts(g, calls)[k] == VerdictOn(g, k, calls[k]);
    RunsIff(g, k, calls[k]);
  }

  /** The labels are those of the report, in order. */
  ghost predicate LabelsReport(labels: seq<string>, report: seq<(string, string)>) {
    |labels| == |report| && forall i | 0 <= i < |report| :: labels[i] == report[i].1
  }

  /** What an incomplete call is answered with shows the labels that the check reports, one for each
      missing name. */
  lemma IncompleteCallShowsLabels(st: Setting, g: Guards, k: nat, call: ToolCall)
    requires g.labels == CheckOf(st) && !CallComplete(st, call) && PolicyAllows(g, k, call.name, ArgsOf(call))
    ensures var report := R.FirstOfEachName(R.AllMissing(st.rules, RequestOf(st, call.name, ArgsOf(call))));
            exists labels | LabelsReport(labels, report) ::
              VerdictOn(g, k, call) == Refused("工具调用被阻断: 缺少必要参数 " + st.show(labels) + "。不要猜测或编造这些参数，请先向用户询问。")
  {
    CheckPassesIffComplete(st, call);
    RunsIff(g, k, call);
    var report := R.FirstOfEachName(R.AllMissing(st.rules, RequestOf(st, call.name, ArgsOf(call))));
    assert LabelsReport(LabelsOf(report), report);
    MissingParametersText(g, k, call);
  }

  /** What a call knows: the requirements extracted before, from its query and from the conversation, and its
      own named arguments except the free text. */
  lemma CallKnows(st: Setting, tool: string, args: Args, name: string)
    ensures name in R.Available(st.rules, RequestOf(st, tool, args)) <==>
              || R.Tells(st.rules.texts, Some(st.extracted), name)
              || R.Tells(st.rules.texts, Some(st.rules.extract(st.queryOf(args))), name)
              || R.Tells(st.rules.texts, Some(st.rules.extract(st.conversation)), name)
              || (name in args && R.Says(st.rules.texts, Some(args[name])) && name != "query" && name != "parameters")
  {
    R.AvailableIsKnown(st.rules, RequestOf(st, tool, args), name);
  }

  /** With no gate the tool also gets the arguments that were checked. An approver's dictionary is not
      checked again: the call then runs with it, complete or not. */
  lemma ApprovedArgumentsAreNotChecked(st: Setting, g: Guards, k: nat, call: ToolCall, approved: Args)
    requires g.labels == CheckOf(st) && CallComplete(st, call) && PolicyAllows(g, k, call.name, ArgsOf(call))
    ensures g.gate.None? ==> VerdictOn(g, k, call) == Runs(ArgsOf(call))
    ensures g.gate.Some? && g.gate.value(k, ArgsOf(call)) == Approved(Some(approved)) && approved != map[] ==>
              VerdictOn(g, k, call) == Runs(approved)
  {
    CheckPassesIffComplete(st, call);
    RunsIff(g, k, call);
  }
}
