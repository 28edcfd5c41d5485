/**
 What a finished run answers, read off its trace: the prompts it asked, the replies it got and the tool results,
 and the decision it selected.
 */
module AgentAnswers {
  import opened AgentProtocol
  import opened AgentRun
  import opened AgentSafety
  import opened Options

  // ---------- What a trace heard ----------

  datatype Heard = Heard(ran: seq<(string, string)>, results: seq<string>, reply: Option<string>,
                         asked: seq<(Prompt, nat)>)

  const NOTHING_HEARD := Heard([], [], None, [])

  function Listen(h: Heard, e: Event): Heard {
    match e
    case Asked(p, tokens, reply) =>
      h.(reply := if reply.Some? then Some(reply.value.text) else None, asked := h.asked + [(p, tokens)])
    case Executed(tool, request, result) =>
      h.(ran := h.ran + [(tool, request)],
         results := if result.Some? then h.results + [result.value] else h.results)
    case _ => h
  }

  /** The tools run, with the requests they were given, their results in order, the latest reply, and the prompts
      with their token limits. */
  function Hear(t: Trace): Heard {
    if t == [] then NOTHING_HEARD else Listen(Hear(t[..|t| - 1]), t[|t| - 1])
  }

  lemma HearMore(t: Trace, e: Event)
    ensures Hear(t + [e]) == Listen(Hear(t), e)
  {
    assert (t + [e])[..|t|] == t;
  }

  lemma HearTell(t: Trace, fraction: nat)
    ensures Hear(Tell(t, fraction)) == Hear(t)
  {
    HearMore(t, Progress(fraction));
  }

  lemma HearHook(w: World, t: Trace)
    ensures Hear(BeforeRepair(w, t)) == Hear(t)
  {
    HearMore(t, Hook(w.hook(|t|)));
  }

  lemma HearAsk(w: World, t: Trace, p: Prompt, tokens: nat)
    ensures var a := Ask(w, t, p, tokens);
            && Hear(a.trace).asked == Hear(t).asked + [(p, tokens)] && Hear(a.trace).results == Hear(t).results
            && Hear(a.trace).ran == Hear(t).ran
            && (a.out.Done? ==> Hear(a.trace).reply == Some(a.out.value.text))
  {
    HearMore(t, Asked(p, tokens, w.generate(|t|)));
  }

  lemma HearExecute(w: World, t: Trace, tool: string, request: string)
    ensures var r := Execute(w, t, tool, request);
            && Hear(r.trace).asked == Hear(t).asked && Hear(r.trace).ran == Hear(t).ran + [(tool, request)]
            && (r.out.Done? ==> Hear(r.trace).results == Hear(t).results + [r.out.value])
  {
    HearMore(t, Executed(tool, request, w.execute(|t|)));
  }

  lemma {:induction false} NoToolsNoResults(t: Trace)
    requires Sum(t).tools == []
    ensures Hear(t).results == [] && Hear(t).ran == []
  {
    if t != [] {
      hide IsAnswerPrompt;
      var u, e := t[..|t| - 1], t[|t| - 1];
      assert e.Executed? ==> |Sum(t).tools| > 0;
      assert !e.Executed? ==> Sum(t).tools == Sum(u).tools;
      NoToolsNoResults(u);
    }
  }

  // ---------- The right answer ----------

  function TextOfAnswer(d: Decision): string {
    if d.text.Some? then Trim(d.text.value) else Trim("")
  }

  /** What the latest reply says, read as a final answer. */
  function Said(w: World, h: Heard): Option<string> {
    if h.reply.Some? then ParseFinalAnswer(w.library, w.partialText, h.reply.value) else None
  }

  /** A direct answer is given as it is, trimmed, unless it copies an example; a blank one is replaced by the
      trusted text, or the missing-model notice, or what the model then says. */
  ghost predicate RightAnswer(w: World, c: Config, request: string, d: Decision, before: Heard, after: Heard,
                              r: RunResult) {
    var direct := TextOfAnswer(d);
    && r.diagnosis.None? && after.ran == []
    && if !Blank(direct) then
         && after.asked == before.asked
         && (w.copiedExample(direct, request) ==>
               r.route == ClarifyCopied &&
               r.answer == "I could not understand what you meant. Please rephrase your request.")
         && (!w.copiedExample(direct, request) ==> r.route == AnswerPath && r.answer == direct)
       else if w.trusted(request).Some? then
         r.route == GuardrailPath && w.trusted(request) == Some(r.answer) && after.asked == before.asked
       else if !c.finalAnswers then r.route == TextModelRequired && after.asked == before.asked
       else
         && r.route == AnswerPath && Some(r.answer) == Said(w, after)
         && after.asked == before.asked + [(DirectAnswer, 256)]
  }

  /** Some tools answer for themselves, and all do when there is no model to explain them. */
  predicate AnswersItself(c: Config, tool: string) {
    !c.finalAnswers || tool == "search_notes" || tool == "get_battery_info" || tool == "get_media_info"
  }

  /** A tool route answers with the tool's own words for its result, or with what the model makes of it, unless that
      is a placeholder. */
  ghost predicate RightToolAnswer(w: World, c: Config, request: string, tool: string, normalized: bool, before: Heard,
                                  after: Heard, r: RunResult) {
    && r.diagnosis.None? && |after.results| == 1 && after.ran == [(tool, request)]
    && var result := after.results[0];
       if AnswersItself(c, tool) then
         && r.route == ToolPath(tool, true, normalized, false)
         && Some(r.answer) == w.toolAnswer(tool, result) && after.asked == before.asked
       else
         && after.asked == before.asked + [(ToolAnswer(tool, result), 256)] && Said(w, after).Some?
         && var fallback := w.placeholder(Said(w, after).value);
            && r.route == ToolPath(tool, false, normalized, fallback)
            && Some(r.answer) == if fallback then w.toolAnswer(tool, result) else Said(w, after)
  }

  /** The diagnosis is the one of the device, battery and storage results; the answer is its summary, followed by
      the model's suggestions if there are any. */
  ghost predicate RightHealthAnswer(w: World, c: Config, request: string, before: Heard, after: Heard, r: RunResult) {
    && |after.results| == 3
    && after.ran == [("get_device_info", request), ("get_battery_info", request), ("get_storage_info", request)]
    && r.diagnosis == w.diagnose(after.results[0], after.results[1], after.results[2]) && r.diagnosis.Some?
    && var summary := w.healthSummary(r.diagnosis.value);
       if !c.finalAnswers then
         && r.route == WorkflowPath("phone_health_check", true, false) && r.answer == summary
         && after.asked == before.asked
       else
         && after.asked == before.asked + [(HealthAnswer(r.diagnosis.value), 256)] && Said(w, after).Some?
         && var fallback := w.placeholder(Said(w, after).value);
            && r.route == WorkflowPath("phone_health_check", false, fallback)
            && r.answer == if fallback then summary
                           else summary + "\n\nLocal SLM suggestions: " + Said(w, after).value
  }

  /** The report is the one of the memory, storage and battery results. */
  ghost predicate RightReport(w: World, before: Heard, after: Heard, r: RunResult) {
    && |after.results| == 3 && r.diagnosis.None? && after.asked == before.asked
    && after.ran == [("get_memory_info", ""), ("get_storage_info", ""), ("get_battery_info", "")]
    && r.route == WorkflowPath("phone_optimization_report", true, false)
    && Some(r.answer) == w.report(after.results[0], after.results[1], after.results[2])
  }

  /** An action that resolves is proposed, one that does not is asked about, and the model is asked nothing. */
  ghost predicate RightProposal(w: World, request: string, action: string, before: Heard, after: Heard, r: RunResult) {
    && r.diagnosis.None? && after.asked == before.asked && after.ran == []
    && r.proposal == w.resolve(action, request)
    && r.route == (if r.proposal.Some? then ProposePath(action) else ClarifyAction(action))
    && r.answer == w.wording(action, r.proposal)
  }

  ghost predicate Right(w: World, c: Config, request: string, d: Decision, before: Heard, after: Heard, r: RunResult) {
    if d.action == "answer" then RightAnswer(w, c, request, d, before, after, r)
    else if d.action == "workflow" then
      if d.workflowName == Some("phone_optimization_report") then RightReport(w, before, after, r)
      else RightHealthAnswer(w, c, request, before, after, r)
    else if d.action == "propose" then
      d.proposedAction.Some? && RightProposal(w, request, d.proposedAction.value, before, after, r)
    else d.toolName.Some? && RightToolAnswer(w, c, request, d.toolName.value, d.schemaRepaired, before, after, r)
  }

  // ---------- Completion answers right ----------

  lemma AnswerIsRight(w: World, c: Config, t: Trace, request: string, s: Selection)
    requires Hear(t).ran == []
    ensures var r := CompleteAnswer(w, c, t, request, s);
            r.out.Done? ==> RightAnswer(w, c, request, s.decision, Hear(t), Hear(r.trace), r.out.value)
  {
    hide ParseFinalAnswer, Hear, Trim, Blank;
    HearTell(t, 100);
    HearTell(t, 70);
    HearTell(Tell(t, 70), 100);
    HearAsk(w, Tell(t, 70), DirectAnswer, ANSWER_TOKENS);
    HearTell(Ask(w, Tell(t, 70), DirectAnswer, ANSWER_TOKENS).trace, 100);
  }

  lemma ProposalIsRight(w: World, t: Trace, request: string, s: Selection)
    requires Hear(t).results == [] && Hear(t).ran == []
    ensures var r := CompleteProposal(w, t, request, s);
            r.out.Done? ==>
              && s.decision.proposedAction.Some?
              && RightProposal(w, request, s.decision.proposedAction.value, Hear(t), Hear(r.trace), r.out.value)
  {
    hide Hear, HasWording;
    HearTell(t, 100);
  }

  lemma ExplanationIsRight(w: World, t: Trace, s: Selection, tool: string, result: string, before: Heard, c: Config,
                           request: string)
    requires Hear(t).ran == [(tool, request)]
    requires !AnswersItself(c, tool) && Hear(t).results == [result] && Hear(t).asked == before.asked
    ensures var r := ExplainTool(w, t, s, tool, result);
            r.out.Done? ==>
              RightToolAnswer(w, c, request, tool, s.decision.schemaRepaired, before, Hear(r.trace), r.out.value)
  {
    hide ParseFinalAnswer, Hear, AnswersItself;
    HearTell(t, 70);
    HearAsk(w, Tell(t, 70), ToolAnswer(tool, result), ANSWER_TOKENS);
    HearTell(Ask(w, Tell(t, 70), ToolAnswer(tool, result), ANSWER_TOKENS).trace, 100);
  }

  lemma ToolIsRight(w: World, c: Config, t: Trace, request: string, s: Selection)
    requires Hear(t).results == [] && Hear(t).ran == []
    ensures var r := CompleteTool(w, c, t, request, s);
            r.out.Done? ==>
              && s.decision.toolName.Some?
              && RightToolAnswer(w, c, request, s.decision.toolName.value, s.decision.schemaRepaired, Hear(t),
                                 Hear(r.trace), r.out.value)
  {
    hide Hear, ExplainTool;
    if s.decision.toolName.Some? {
      var tool := s.decision.toolName.value;
      HearTell(t, 45);
      HearExecute(w, Tell(t, 45), tool, request);
      var run := Execute(w, Tell(t, 45), tool, request);
      if run.out.Done? {
        HearTell(run.trace, 100);
        if !AnswersItself(c, tool) {
          ExplanationIsRight(w, run.trace, s, tool, run.out.value, Hear(t), c, request);
        }
      }
    }
  }

  lemma SuggestionIsRight(w: World, t: Trace, s: Selection, diagnosis: string, before: Heard, c: Config,
                          request: string)
    requires Hear(t).ran == [(DEVICE, request), (BATTERY, request), (STORAGE, request)]
    requires c.finalAnswers && |Hear(t).results| == 3 && Hear(t).asked == before.asked
    requires w.diagnose(Hear(t).results[0], Hear(t).results[1], Hear(t).results[2]) == Some(diagnosis)
    ensures var r := ExplainHealth(w, t, s, diagnosis);
            r.out.Done? ==> RightHealthAnswer(w, c, request, before, Hear(r.trace), r.out.value)
  {
    hide ParseFinalAnswer, Hear;
    HearTell(t, 72);
    HearAsk(w, Tell(t, 72), HealthAnswer(diagnosis), ANSWER_TOKENS);
    HearTell(Ask(w, Tell(t, 72), HealthAnswer(diagnosis), ANSWER_TOKENS).trace, 100);
  }

  lemma HealthIsRight(w: World, c: Config, t: Trace, request: string, s: Selection)
    requires Hear(t).results == [] && Hear(t).ran == []
    ensures var r := RunHealthCheck(w, c, t, request, s);
            r.out.Done? ==> RightHealthAnswer(w, c, request, Hear(t), Hear(r.trace), r.out.value)
  {
    hide Hear, ExplainHealth;
    var t0 := Tell(t, 30);
    var device := Execute(w, t0, DEVICE, request);
    var t1 := Tell(device.trace, 40);
    var battery := Execute(w, t1, BATTERY, request);
    var t2 := Tell(battery.trace, 50);
    var storage := Execute(w, t2, STORAGE, request);
    var t3 := Tell(storage.trace, 60);
    HearTell(t, 30);
    HearExecute(w, t0, DEVICE, request);
    HearTell(device.trace, 40);
    HearExecute(w, t1, BATTERY, request);
    HearTell(battery.trace, 50);
    HearExecute(w, t2, STORAGE, request);
    HearTell(storage.trace, 60);
    HearTell(t3, 100);
    if device.out.Done? && battery.out.Done? && storage.out.Done? {
      assert Hear(t3).results == [device.out.value, battery.out.value, storage.out.value];
      var diagnosis := w.diagnose(device.out.value, battery.out.value, storage.out.value);
      if diagnosis.Some? && c.finalAnswers {
        SuggestionIsRight(w, t3, s, diagnosis.value, Hear(t), c, request);
      }
    }
  }

  lemma HearMeasure(w: World, t: Trace, tool: string)
    ensures var r := Measure(w, t, tool);
            && Hear(r.trace).asked == Hear(t).asked && Hear(r.trace).ran == Hear(t).ran + [(tool, "")]
            && (r.out.Done? ==> Hear(r.trace).results == Hear(t).results + [r.out.value])
  {
    hide Hear;
    HearExecute(w, t, tool, "");
  }

  lemma ReportIsRight(w: World, t: Trace, s: Selection)
    requires Hear(t).results == [] && Hear(t).ran == []
    ensures var r := RunPhoneOptimization(w, t, s);
            r.out.Done? ==> RightReport(w, Hear(t), Hear(r.trace), r.out.value)
  {
    hide Hear, Measure;
    var t0 := Tell(t, 35);
    var memory := Measure(w, t0, MEMORY);
    var t1 := Tell(memory.trace, 55);
    var storage := Measure(w, t1, STORAGE);
    var battery := Measure(w, storage.trace, BATTERY);
    HearTell(t, 35);
    HearMeasure(w, t0, MEMORY);
    HearTell(memory.trace, 55);
    HearMeasure(w, t1, STORAGE);
    HearMeasure(w, storage.trace, BATTERY);
    HearTell(battery.trace, 100);
    if memory.out.Done? && storage.out.Done? && battery.out.Done? {
      assert Hear(battery.trace).results == [memory.out.value, storage.out.value, battery.out.value];
    }
  }

  lemma CompletionIsRight(w: World, c: Config, t: Trace, request: string, s: Selection)
    requires Hear(t).results == [] && Hear(t).ran == []
    ensures var r := Complete(w, c, t, request, s);
            r.out.Done? ==> Right(w, c, request, s.decision, Hear(t), Hear(r.trace), r.out.value)
  {
    hide Hear, CompleteAnswer, CompleteProposal, CompleteTool, RunHealthCheck, RunPhoneOptimization, RightAnswer,
      RightProposal, RightToolAnswer, RightHealthAnswer, RightReport;
    if s.decision.action == "answer" {
      AnswerIsRight(w, c, t, request, s);
    } else if s.decision.action == "workflow" {
      if s.decision.workflowName == Some(PHONE_OPTIMIZATION_REPORT) {
        ReportIsRight(w, t, s);
      } else {
        HealthIsRight(w, c, t, request, s);
      }
    } else if s.decision.action == "propose" {
      ProposalIsRight(w, t, request, s);
    } else {
      ToolIsRight(w, c, t, request, s);
    }
  }

  /** Every finished run answers what its selected decision, its tool results and its last reply make right. */
  lemma AnswersAreRight(w: World, c: Config, request: string)
    ensures var s, r := Select(w, c, [], request), Run(w, c, request);
            r.out.Done? ==>
              && s.out.Done?
              && Right(w, c, request, s.out.value.decision, Hear(s.trace), Hear(r.trace), r.out.value)
  {
    hide Select, Complete, Right, Hear, Sum, Ready, Routing, Completes;
    var s := Select(w, c, [], request);
    if s.out.Done? {
      SelectionExecutesNothing(w, c, request);
      NoToolsNoResults(s.trace);
      CompletionIsRight(w, c, s.trace, request, s.out.value);
    }
  }

  lemma SelectionExecutesNothing(w: World, c: Config, request: string)
    ensures Sum(Select(w, c, [], request).trace).tools == []
  {
    hide Select, Sum, Ready;
    SelectFacts(w, c, request);
  }

  // ---------- Which decision is selected ----------

  /** The decision that the replies determine, whatever the configuration. */
  function Determined(w: World, c: Config, request: string): Option<Decision> {
    if c.product && w.asksForHelp(request) then Some(Decision("answer", Some(CAPABILITY_HELP), None, None, None, false))
    else if c.product && c.allowDeviceActions && w.destination(request).Some? then
      Some(Decision("propose", None, None, None,
                    Some(if w.destination(request).value.YouTube? then "search_youtube" else "search_spotify"), false))
    else if c.selector then
      if w.choose(1).Some? then RouteToDecision(w.choose(1).value) else None
    else if c.hierarchical then
      if w.generate(1).None? then None
      else match ParseScopeDecision(w.library, w.generate(1).value.text)
        case None => None
        case Some(scope) =>
          if scope == "live_device" then Reply(w, 3) else Some(Decision("answer", Some(""), None, None, None, false))
    else Deciding(w, request)
  }

  lemma HierarchyDetermines(w: World)
    ensures var s := SelectHierarchically(w, []);
            && (s.out.Done? <==> w.generate(1).Some? &&
                                 (ScopeIsLive(w) ==> Reply(w, 3).Some?) &&
                                 ParseScopeDecision(w.library, w.generate(1).value.text).Some?)
            && (s.out.Done? ==> s.out.value.decision == if ScopeIsLive(w) then Reply(w, 3).value else Answer("", false))
  {
    hide ParseAgentDecision;
    var t: Trace := [];
    var scope := Ask(w, Tell(t, 12), Scope, DECISION_TOKENS);
    assert |Tell(t, 12)| == 1 && |scope.trace| == 2 && |Tell(scope.trace, 24)| == 3;
  }

  lemma HeadDetermines(w: World)
    ensures var s, d := SelectByHead(w, []), if w.choose(1).Some? then RouteToDecision(w.choose(1).value) else None;
            (s.out.Done? <==> d.Some?) && (s.out.Done? ==> s.out.value.decision == d.value)
  {
    hide RouteToDecision;
  }

  /** Selection succeeds if and only if the replies determine a decision, and selects that one. */
  lemma SelectsDetermined(w: World, c: Config, request: string)
    ensures var s := Select(w, c, [], request);
            && (s.out.Done? <==> Determined(w, c, request).Some?)
            && (s.out.Done? ==> Some(s.out.value.decision) == Determined(w, c, request))
  {
    hide SelectLocally, SelectHierarchically, SelectByHead, Deciding, Reply, ParseScopeDecision, RouteToDecision;
    LocalSelectionDecides(w, c, request);
    HierarchyDetermines(w);
    HeadDetermines(w);
  }

  // ---------- Which prompts are asked on the way ----------

  /** The prompts of the selection with their token limits. */
  function SelectionPrompts(w: World, c: Config, request: string): seq<(Prompt, nat)> {
    if (c.product && w.asksForHelp(request)) || c.selector then []
    else if c.product && c.allowDeviceActions && w.destination(request).Some? then []
    else if c.hierarchical then [(Scope, 64)] + if ScopeIsLive(w) then [(Live, 64)] else []
    else
      [(Route(c.allowDeviceActions), 64)] +
      (if NeedsRepair(w) && w.hook(3) then [(Repair(w.generate(1).value.text), 64)] else []) +
      if Checked(w, request).Some? && IsNoteTool(Checked(w, request).value) then [(NoteRoute, 64)] else []
  }

  lemma InitialAsks(w: World, c: Config)
    ensures Hear(Initial(w, c, []).trace).asked ==
              [(Route(c.allowDeviceActions), 64)] +
              if NeedsRepair(w) && w.hook(3) then [(Repair(w.generate(1).value.text), 64)] else []
  {
    hide ParseAgentDecision, Hear;
    var t: Trace := [];
    HearNothing();
    HearTell(t, 15);
    HearAsk(w, Tell(t, 15), Route(c.allowDeviceActions), DECISION_TOKENS);
    var first := Ask(w, Tell(t, 15), Route(c.allowDeviceActions), DECISION_TOKENS);
    HearTell(first.trace, 22);
    HearHook(w, Tell(first.trace, 22));
    if first.out.Done? {
      HearAsk(w, BeforeRepair(w, Tell(first.trace, 22)), Repair(first.out.value.text), DECISION_TOKENS);
    }
  }

  lemma HearNothing()
    ensures Hear([]) == NOTHING_HEARD
  {
  }

  lemma RefineAsks(w: World, t: Trace, s: Selection)
    ensures Hear(RefineNoteRoute(w, t, s).trace).asked ==
              Hear(t).asked + if IsNoteTool(s.decision) then [(NoteRoute, 64)] else []
  {
    hide ParseAgentDecision, Hear, IsNoteTool;
    HearTell(t, 28);
    HearAsk(w, Tell(t, 28), NoteRoute, DECISION_TOKENS);
  }

  lemma LocalAsks(w: World, c: Config, request: string)
    ensures Hear(SelectLocally(w, c, [], request).trace).asked ==
              Hear(Initial(w, c, []).trace).asked +
              if Checked(w, request).Some? && IsNoteTool(Checked(w, request).value) then [(NoteRoute, 64)] else []
  {
    hide Initial, RefineNoteRoute, Routed, Hear, IsNoteTool, Normalized;
    InitialIsRouted(w, c);
    var initial := Initial(w, c, []);
    if initial.out.Done? {
      RefineAsks(w, initial.trace, Conservative(w, request, initial.out.value));
    }
  }

  lemma HierarchyAsks(w: World)
    ensures Hear(SelectHierarchically(w, []).trace).asked ==
              [(Scope, 64)] + if ScopeIsLive(w) then [(Live, 64)] else []
  {
    hide ParseAgentDecision, Hear;
    var t: Trace := [];
    HearNothing();
    HearTell(t, 12);
    HearAsk(w, Tell(t, 12), Scope, DECISION_TOKENS);
    var scope := Ask(w, Tell(t, 12), Scope, DECISION_TOKENS);
    HearTell(scope.trace, 24);
    HearAsk(w, Tell(scope.trace, 24), Live, DECISION_TOKENS);
  }

  /** Whether it succeeds or not, selection asks exactly these prompts, each with the limit for decisions. */
  lemma SelectionAsks(w: World, c: Config, request: string)
    ensures Hear(Select(w, c, [], request).trace).asked == SelectionPrompts(w, c, request)
  {
    hide SelectLocally, SelectHierarchically, Hear, NeedsRepair, ScopeIsLive, Checked, IsNoteTool, Initial;
    HearNothing();
    HearTell([], 100);
    HearTell([], 20);
    HearTell([], 15);
    HearMore(Tell([], 15), Chose(w.choose(|Tell([], 15)|)));
    LocalAsks(w, c, request);
    InitialAsks(w, c);
    HierarchyAsks(w);
  }

  // ---------- The check between routing and the note pass ----------

  lemma {:induction false} CountAtMost(text: string, words: seq<string>)
    ensures CountWords(text, words) >= 1 <==> exists i :: 0 <= i < |words| && Contains(text, words[i])
  {
    if words != [] {
      hide Contains;
      var u := words[..|words| - 1];
      CountAtMost(text, u);
      if i :| 0 <= i < |words| && Contains(text, words[i]) {
        assert i < |u| ==> Contains(text, u[i]);
      }
      if i :| 0 <= i < |u| && Contains(text, u[i]) {
        assert Contains(text, words[i]);
      }
      assert words[|words| - 1] == words[|u|];
    }
  }

  lemma {:induction false} CountsTwo(text: string, words: seq<string>)
    ensures CountWords(text, words) >= 2 <==>
              exists i, j :: 0 <= i < j < |words| && Contains(text, words[i]) && Contains(text, words[j])
  {
    if words != [] {
      hide Contains;
      var u := words[..|words| - 1];
      CountsTwo(text, u);
      CountAtMost(text, u);
      if i, j :| 0 <= i < j < |words| && Contains(text, words[i]) && Contains(text, words[j]) {
        assert Contains(text, u[i]);
        assert j < |u| ==> Contains(text, u[j]);
      }
      if i, j :| 0 <= i < j < |u| && Contains(text, u[i]) && Contains(text, u[j]) {
        assert Contains(text, words[i]) && Contains(text, words[j]);
      }
      if i :| 0 <= i < |u| && Contains(text, u[i]) {
        assert Contains(text, words[i]);
      }
    }
  }

  ghost predicate Occurs(s: string, t: string, i: nat) {
    i + |t| <= |s| && s[i..i + |t|] == t
  }

  lemma OccursLater(s: string, t: string, i: nat)
    requires s != ""
    ensures Occurs(s[1..], t, i) <==> Occurs(s, t, i + 1)
  {
    if i + |t| < |s| {
      assert s[1..][i..i + |t|] == s[i + 1..i + 1 + |t|];
    }
  }

  /** Containment is what it says. */
  lemma {:induction false} ContainsMeans(s: string, t: string)
    ensures Contains(s, t) <==> exists i: nat :: Occurs(s, t, i)
  {
    assert StartsWith(s, t) <==> Occurs(s, t, 0);
    if s == "" {
      assert forall i: nat :: Occurs(s, t, i) ==> i == 0;
    } else {
      ContainsMeans(s[1..], t);
      hide Occurs;
      if i: nat :| Occurs(s[1..], t, i) {
        OccursLater(s, t, i);
      }
      if i: nat :| Occurs(s, t, i) {
        if i > 0 {
          OccursLater(s, t, i - 1);
        }
      }
    }
  }

  /** What the check makes of a decision: a request with two media commands is asked for one; a request to clean up
      or speed up gets the report instead of the apps screen; what is then irrelevant becomes an empty answer. */
  lemma CheckMeans(w: World, request: string, s: Selection)
    ensures var text := w.lower(request);
            var media := ["stop", "pause", "continue", "resume", "next", "forward", "previous", "backward"];
            var cleanup := ["remove", "clean", "optimize", "lag", "slow"];
            var two := exists i, j :: 0 <= i < j < |media| && Contains(text, media[i]) && Contains(text, media[j]);
            var clean := exists i :: 0 <= i < |cleanup| && Contains(text, cleanup[i]);
            var d :=
              if two
              then Decision("answer", Some("Tell me one media action at a time: play/pause, next, or previous."), None,
                            None, None, false)
              else if s.decision.proposedAction == Some("review_background_apps") && clean
              then Decision("workflow", None, None, Some("phone_optimization_report"), None, false)
              else s.decision;
            && Conservative(w, request, s).decision ==
                 (if w.relevant(d, request) then d else Decision("answer", Some(""), None, None, None, false))
            && Conservative(w, request, s).pieces == s.pieces
            && Conservative(w, request, s).repairAttempted == s.repairAttempted
  {
    hide Contains, CountWords;
    CountsTwo(w.lower(request), MEDIA_WORDS);
    CountAtMost(w.lower(request), CLEANUP_WORDS);
  }
}
