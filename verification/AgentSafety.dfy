/**
 What holds of every run of the agent, whatever the model writes, the tools return or the callbacks throw.
 */
module AgentSafety {
  import opened AgentProtocol
  import opened AgentRun
  import opened Options

  // ---------- What a trace adds up to ----------

  datatype Tally = Tally(
    calls: nat,            // generator calls
    pieces: int,           // pieces they generated
    tools: seq<string>,    // tools executed, in order
    hooks: nat,            // times the repair hook ran
    repairs: nat,          // repair prompts
    fraction: nat,         // last progress reported
    rising: bool,          // progress never fell
    answering: bool,       // an answer was asked for
    orderly: bool,         // routing came before tools, tools before answers
    hooked: bool,          // every repair prompt directly followed a completed hook
    ready: bool)           // the last event is a completed hook

  predicate IsAnswerPrompt(p: Prompt) {
    p.DirectAnswer? || p.ToolAnswer? || p.HealthAnswer?
  }

  function Add(t: Tally, e: Event): Tally {
    match e
    case Progress(f) => t.(fraction := f, rising := t.rising && t.fraction <= f, ready := false)
    case Asked(p, _, reply) =>
      t.(calls := t.calls + 1, pieces := t.pieces + (if reply.Some? then reply.value.pieces else 0),
         repairs := t.repairs + (if p.Repair? then 1 else 0), answering := t.answering || IsAnswerPrompt(p),
         orderly := t.orderly && (IsAnswerPrompt(p) || (t.tools == [] && !t.answering)),
         hooked := t.hooked && (p.Repair? ==> t.ready), ready := false)
    case Executed(tool, _, _) => t.(tools := t.tools + [tool], orderly := t.orderly && !t.answering, ready := false)
    case Hook(ok) => t.(hooks := t.hooks + 1, ready := ok)
    case Chose(_) => t.(ready := false)
  }

  function Sum(t: Trace): Tally {
    if t == [] then Tally(0, 0, [], 0, 0, 0, true, false, true, true, false) else Add(Sum(t[..|t| - 1]), t[|t| - 1])
  }

  lemma Extend(t: Trace, e: Event)
    ensures Sum(t + [e]) == Add(Sum(t), e)
  {
    assert (t + [e])[..|t|] == t;
  }

  lemma TellSum(t: Trace, fraction: nat)
    ensures Sum(Tell(t, fraction)) == Add(Sum(t), Progress(fraction))
  {
    Extend(t, Progress(fraction));
  }

  lemma AskSum(w: World, t: Trace, p: Prompt, tokens: nat)
    ensures var a := Ask(w, t, p, tokens);
            && Sum(a.trace) == Add(Sum(t), Asked(p, tokens, w.generate(|t|)))
            && (a.out.Done? ==> w.generate(|t|) == Some(a.out.value))
  {
    Extend(t, Asked(p, tokens, w.generate(|t|)));
  }

  lemma ExecuteSum(w: World, t: Trace, tool: string, request: string)
    ensures Sum(Execute(w, t, tool, request).trace) == Add(Sum(t), Executed(tool, request, w.execute(|t|)))
  {
    Extend(t, Executed(tool, request, w.execute(|t|)));
  }

  /** Progress never falls. */
  ghost predicate ProgressRises(t: Trace) {
    forall i, j :: 0 <= i < j < |t| && t[i].Progress? && t[j].Progress? ==> t[i].fraction <= t[j].fraction
  }

  /** Nothing is executed once an answer was asked for, and no routing prompt follows a tool. */
  ghost predicate ToolsAreBetween(t: Trace) {
    forall i, j :: 0 <= i < j < |t| ==>
      && (t[i].Asked? && IsAnswerPrompt(t[i].prompt) ==> !t[j].Executed?)
      && (t[i].Executed? && t[j].Asked? ==> IsAnswerPrompt(t[j].prompt))
  }

  /** A repair prompt comes directly after a hook that did not throw. */
  ghost predicate RepairsAreHooked(t: Trace) {
    forall i :: 0 <= i < |t| && t[i].Asked? && t[i].prompt.Repair? ==> i > 0 && t[i - 1] == Hook(true)
  }

  ghost predicate NotAbove(t: Trace, fraction: nat) {
    forall i :: 0 <= i < |t| && t[i].Progress? ==> t[i].fraction <= fraction
  }

  lemma RisingStep(u: Trace, e: Event, fraction: nat)
    requires ProgressRises(u) && NotAbove(u, fraction) && (e.Progress? ==> fraction <= e.fraction)
    ensures ProgressRises(u + [e]) && NotAbove(u + [e], if e.Progress? then e.fraction else fraction)
  {
  }

  lemma {:induction false} RisingMeans(t: Trace)
    requires Sum(t).rising
    ensures ProgressRises(t) && NotAbove(t, Sum(t).fraction)
  {
    if t != [] {
      hide ProgressRises, NotAbove;
      var u, e := t[..|t| - 1], t[|t| - 1];
      assert t == u + [e];
      RisingMeans(u);
      RisingStep(u, e, Sum(u).fraction);
    }
  }

  /** The executed tools are those of the list, and answers were asked for only if so noted. */
  ghost predicate Noted(t: Trace, tools: seq<string>, answering: bool) {
    forall i :: 0 <= i < |t| ==>
      && (t[i].Executed? ==> t[i].tool in tools)
      && (t[i].Asked? && IsAnswerPrompt(t[i].prompt) ==> answering)
  }

  lemma NotedStep(u: Trace, e: Event, tools: seq<string>, answering: bool)
    requires Noted(u, tools, answering)
    ensures Noted(u + [e], if e.Executed? then tools + [e.tool] else tools,
                  answering || (e.Asked? && IsAnswerPrompt(e.prompt)))
  {
  }

  lemma {:induction false} ToolsMeans(t: Trace)
    ensures Noted(t, Sum(t).tools, Sum(t).answering)
  {
    if t != [] {
      hide Noted, IsAnswerPrompt;
      var u, e := t[..|t| - 1], t[|t| - 1];
      assert t == u + [e];
      ToolsMeans(u);
      NotedStep(u, e, Sum(u).tools, Sum(u).answering);
    }
  }

  lemma BetweenStep(u: Trace, e: Event, tools: seq<string>, answering: bool)
    requires ToolsAreBetween(u) && Noted(u, tools, answering)
    requires e.Executed? ==> !answering
    requires e.Asked? && !IsAnswerPrompt(e.prompt) ==> tools == []
    ensures ToolsAreBetween(u + [e])
  {
  }

  lemma {:induction false} OrderlyMeans(t: Trace)
    requires Sum(t).orderly
    ensures ToolsAreBetween(t)
  {
    if t != [] {
      hide ToolsAreBetween, Noted, IsAnswerPrompt;
      var u, e := t[..|t| - 1], t[|t| - 1];
      assert t == u + [e];
      OrderlyMeans(u);
      ToolsMeans(u);
      BetweenStep(u, e, Sum(u).tools, Sum(u).answering);
    }
  }

  predicate EndsInHook(t: Trace) {
    t != [] && t[|t| - 1] == Hook(true)
  }

  lemma HookedStep(u: Trace, e: Event)
    requires RepairsAreHooked(u) && (e.Asked? && e.prompt.Repair? ==> EndsInHook(u))
    ensures RepairsAreHooked(u + [e])
  {
  }

  lemma {:induction false} HookedMeans(t: Trace)
    requires Sum(t).hooked
    ensures RepairsAreHooked(t)
    ensures Sum(t).ready <==> EndsInHook(t)
  {
    if t != [] {
      hide RepairsAreHooked, IsAnswerPrompt;
      var u, e := t[..|t| - 1], t[|t| - 1];
      assert t == u + [e];
      HookedMeans(u);
      HookedStep(u, e);
    }
  }

  // ---------- Selection ----------

  ghost predicate Sound(a: Tally) {
    a.rising && a.orderly && a.hooked
  }

  /** Up to here only routing happened. */
  ghost predicate Routing(a: Tally, calls: nat, fraction: nat) {
    && Sound(a) && a.tools == [] && !a.answering
    && a.calls <= calls && a.fraction <= fraction && a.repairs <= a.hooks <= 1
  }

  /** A selection step that made at most the given number of calls and reported at most that progress. */
  ghost predicate Selects(s: Step<Selection>, calls: nat, fraction: nat) {
    && Routing(Sum(s.trace), calls, fraction)
    && (s.out.Done? ==>
          && s.out.value.pieces == Sum(s.trace).pieces
          && Allowed(s.out.value.decision)
          && (s.out.value.repairAttempted <==> Sum(s.trace).repairs == 1))
  }

  lemma RepairedSelects(w: World, t: Trace, invalid: Generated)
    requires Routing(Sum(t), 1, 15) && Sum(t).hooks == 0 && Sum(t).pieces == invalid.pieces
    ensures Selects(Repaired(w, t, invalid), 2, 22)
  {
    hide ParseAgentDecision, Sum, Allowed;
    var told := Tell(t, 22);
    TellSum(t, 22);
    Extend(told, Hook(w.hook(|told|)));
    var hooked := BeforeRepair(w, told);
    AskSum(w, hooked, Repair(invalid.text), DECISION_TOKENS);
    var again := Ask(w, hooked, Repair(invalid.text), DECISION_TOKENS);
    if again.out.Done? {
      ParsersAllowOnly(w.library, again.out.value.text);
    }
  }

  lemma InitialSelects(w: World, c: Config)
    ensures Selects(Initial(w, c, []), 2, 22)
  {
    hide ParseAgentDecision, Repaired, Allowed;
    var t: Trace := [];
    TellSum(t, 15);
    AskSum(w, Tell(t, 15), Route(c.allowDeviceActions), DECISION_TOKENS);
    var first := Ask(w, Tell(t, 15), Route(c.allowDeviceActions), DECISION_TOKENS);
    if first.out.Done? {
      ParsersAllowOnly(w.library, first.out.value.text);
      RepairedSelects(w, first.trace, first.out.value);
    }
  }

  lemma ConservativeAllowed(w: World, request: string, s: Selection)
    requires Allowed(s.decision)
    ensures Allowed(Conservative(w, request, s).decision)
  {
  }

  lemma RefineSelects(w: World, t: Trace, s: Selection)
    requires Selects(Step(t, Done(s)), 2, 22)
    ensures Selects(RefineNoteRoute(w, t, s), 3, 28)
  {
    hide ParseAgentDecision, Sum, Allowed, IsNoteTool;
    TellSum(t, 28);
    AskSum(w, Tell(t, 28), NoteRoute, DECISION_TOKENS);
    var refined := Ask(w, Tell(t, 28), NoteRoute, DECISION_TOKENS);
    if refined.out.Done? {
      ParsersAllowOnly(w.library, refined.out.value.text);
    }
  }

  lemma SelectLocallySelects(w: World, c: Config, request: string)
    ensures Selects(SelectLocally(w, c, [], request), 3, 28)
  {
    hide Initial, RefineNoteRoute, Sum, Allowed, Normalized;
    InitialSelects(w, c);
    var initial := Initial(w, c, []);
    if initial.out.Done? {
      ConservativeAllowed(w, request, initial.out.value);
      RefineSelects(w, initial.trace, Conservative(w, request, initial.out.value));
    }
  }

  lemma SelectLiveSelects(w: World, t: Trace, pieces: int)
    requires Routing(Sum(t), 1, 12) && Sum(t).hooks == 0 && Sum(t).pieces == pieces
    ensures Selects(SelectLive(w, t, pieces), 2, 24)
  {
    hide ParseAgentDecision, Sum, Allowed;
    TellSum(t, 24);
    AskSum(w, Tell(t, 24), Live, DECISION_TOKENS);
    var live := Ask(w, Tell(t, 24), Live, DECISION_TOKENS);
    if live.out.Done? {
      ParsersAllowOnly(w.library, live.out.value.text);
    }
  }

  lemma SelectHierarchicallySelects(w: World)
    ensures Selects(SelectHierarchically(w, []), 2, 24)
  {
    hide ParseAgentDecision, ParseScopeDecision, SelectLive;
    var t: Trace := [];
    TellSum(t, 12);
    AskSum(w, Tell(t, 12), Scope, DECISION_TOKENS);
    var scope := Ask(w, Tell(t, 12), Scope, DECISION_TOKENS);
    if scope.out.Done? {
      SelectLiveSelects(w, scope.trace, scope.out.value.pieces);
    }
  }

  lemma SelectByHeadSelects(w: World)
    ensures Selects(SelectByHead(w, []), 0, 15)
  {
    hide RouteToDecision;
    var t: Trace := [];
    TellSum(t, 15);
    Extend(Tell(t, 15), Chose(w.choose(|Tell(t, 15)|)));
    var choice := w.choose(|Tell(t, 15)|);
    if choice.Some? {
      ParsersAllowOnly(w.library, choice.value);
    }
  }

  lemma HelpIsNotBlank()
    ensures !Blank(Trim(CAPABILITY_HELP))
  {
    assert CAPABILITY_HELP[0] == 'I';
    assert TrimStart(CAPABILITY_HELP) == CAPABILITY_HELP;
    TrimEndKeepsFirst(CAPABILITY_HELP);
  }

  lemma {:induction false} TrimEndKeepsFirst(s: string)
    requires s != "" && !IsSpace(s[0])
    ensures TrimEnd(s) != "" && TrimEnd(s)[0] == s[0]
  {
    if IsSpace(s[|s| - 1]) {
      TrimEndKeepsFirst(s[..|s| - 1]);
    }
  }

  predicate SaysSomething(d: Decision) {
    d.action == "answer" && d.text.Some? && !Blank(Trim(d.text.value))
  }

  /** Where completion starts. */
  ghost predicate Ready(t: Trace, s: Selection) {
    && Routing(Sum(t), 3, 100)
    && s.pieces == Sum(t).pieces
    && Allowed(s.decision)
    && (s.repairAttempted <==> Sum(t).repairs == 1)
    && (Sum(t).fraction <= 28 || SaysSomething(s.decision))
  }

  lemma SelectFacts(w: World, c: Config, request: string)
    ensures var s := Select(w, c, [], request);
            Routing(Sum(s.trace), 3, 100) && (s.out.Done? ==> Ready(s.trace, s.out.value))
  {
    hide SelectByHead, SelectLocally, SelectHierarchically, TrimStart, TrimEnd, IsSpace;
    var t: Trace := [];
    if c.product && w.asksForHelp(request) {
      TellSum(t, 100);
      HelpIsNotBlank();
    } else if c.product && c.allowDeviceActions && w.destination(request).Some? {
      TellSum(t, 20);
    } else if c.selector {
      SelectByHeadSelects(w);
    } else if c.hierarchical {
      SelectHierarchicallySelects(w);
    } else {
      SelectLocallySelects(w, c, request);
    }
  }

  // ---------- Completion ----------

  /** The tools a decision stands for. */
  function Planned(d: Decision): seq<string> {
    if d.action == "answer" || d.action == "propose" then []
    else if d.action == "workflow" then
      if d.workflowName == Some(PHONE_OPTIMIZATION_REPORT) then [MEMORY, STORAGE, BATTERY]
      else [DEVICE, BATTERY, STORAGE]
    else if d.toolName.Some? then [d.toolName.value] else []
  }

  /** The tools a reported route stands for. */
  function RouteTools(p: Path): seq<string> {
    match p
    case ToolPath(tool, _, _, _) => [tool]
    case WorkflowPath(name, _, _) =>
      if name == PHONE_OPTIMIZATION_REPORT then [MEMORY, STORAGE, BATTERY] else [DEVICE, BATTERY, STORAGE]
    case _ => []
  }

  ghost predicate ProposalIsApproved(w: World, request: string, r: RunResult) {
    && (r.proposal.Some? <==> r.route.ProposePath?)
    && (r.proposal.Some? ==>
          r.route.action in APPROVED_DEVICE_ACTIONS && w.resolve(r.route.action, request) == r.proposal)
    && (r.route.ClarifyAction? ==>
          r.route.action in APPROVED_DEVICE_ACTIONS && w.resolve(r.route.action, request) == None)
  }

  /** What completing a selection adds to the trace. */
  ghost predicate Completes(w: World, request: string, t: Trace, s: Selection, r: Step<RunResult>) {
    var before, after := Sum(t), Sum(r.trace);
    && Sound(after)
    && before.calls <= after.calls <= before.calls + 1
    && after.hooks == before.hooks && after.repairs == before.repairs
    && after.tools <= Planned(s.decision)
    && (r.out.Done? ==>
          && after.tools == Planned(s.decision) == RouteTools(r.out.value.route)
          && r.out.value.pieces == after.pieces
          && r.trace != [] && r.trace[|r.trace| - 1] == Progress(100)
          && ProposalIsApproved(w, request, r.out.value))
  }

  lemma AnswerCompletes(w: World, c: Config, t: Trace, request: string, s: Selection)
    requires Ready(t, s) && s.decision.action == "answer"
    ensures Completes(w, request, t, s, CompleteAnswer(w, c, t, request, s))
  {
    hide ParseFinalAnswer, Sum, Allowed, Trim, Blank;
    TellSum(t, 100);
    TellSum(t, 70);
    TellSum(Tell(t, 70), 100);
    AskSum(w, Tell(t, 70), DirectAnswer, ANSWER_TOKENS);
    TellSum(Ask(w, Tell(t, 70), DirectAnswer, ANSWER_TOKENS).trace, 100);
  }

  /** Every approved action has its wording. */
  lemma ApprovedHasWording(action: string)
    ensures HasWording(action) <==> action in APPROVED_DEVICE_ACTIONS
  {
  }

  lemma ProposalCompletes(w: World, t: Trace, request: string, s: Selection)
    requires Ready(t, s) && s.decision.action == "propose" && !SaysSomething(s.decision)
    requires s.decision.proposedAction.Some? && s.decision.proposedAction.value in APPROVED_DEVICE_ACTIONS
    ensures Completes(w, request, t, s, CompleteProposal(w, t, request, s))
  {
    hide Sum, Allowed, HasWording, SaysSomething;
    ApprovedHasWording(s.decision.proposedAction.value);
    TellSum(t, 100);
  }

  lemma ExplainToolCompletes(w: World, request: string, t: Trace, s: Selection, u: Trace, tool: string, result: string)
    requires Ready(t, s) && Planned(s.decision) == [tool]
    requires Sum(u) == Add(Add(Sum(t), Progress(45)), Executed(tool, request, Some(result))) && Sound(Sum(u))
    ensures Completes(w, request, t, s, ExplainTool(w, u, s, tool, result))
  {
    hide ParseFinalAnswer, Sum, Allowed, Planned, SaysSomething;
    TellSum(u, 70);
    AskSum(w, Tell(u, 70), ToolAnswer(tool, result), ANSWER_TOKENS);
    TellSum(Ask(w, Tell(u, 70), ToolAnswer(tool, result), ANSWER_TOKENS).trace, 100);
  }

  lemma ToolCompletes(w: World, c: Config, t: Trace, request: string, s: Selection)
    requires Ready(t, s) && !SaysSomething(s.decision) && s.decision.toolName.Some?
    requires Planned(s.decision) == [s.decision.toolName.value]
    ensures Completes(w, request, t, s, CompleteTool(w, c, t, request, s))
  {
    hide Sum, Allowed, Planned, SaysSomething, ExplainTool;
    var tool := s.decision.toolName.value;
    TellSum(t, 45);
    ExecuteSum(w, Tell(t, 45), tool, request);
    var run := Execute(w, Tell(t, 45), tool, request);
    TellSum(run.trace, 100);
    if run.out.Done? {
      ExplainToolCompletes(w, request, t, s, run.trace, tool, run.out.value);
    }
  }

  lemma ExplainHealthCompletes(w: World, request: string, t: Trace, s: Selection, u: Trace, diagnosis: string)
    requires Planned(s.decision) == [DEVICE, BATTERY, STORAGE] && s.pieces == Sum(t).pieces
    requires var a, b := Sum(t), Sum(u);
             Sound(b) && !b.answering && b.fraction == 60 && b.tools == Planned(s.decision) && b.pieces == a.pieces &&
             b.calls == a.calls && b.hooks == a.hooks && b.repairs == a.repairs
    ensures Completes(w, request, t, s, ExplainHealth(w, u, s, diagnosis))
  {
    hide ParseFinalAnswer, Sum, Planned;
    TellSum(u, 72);
    AskSum(w, Tell(u, 72), HealthAnswer(diagnosis), ANSWER_TOKENS);
    TellSum(Ask(w, Tell(u, 72), HealthAnswer(diagnosis), ANSWER_TOKENS).trace, 100);
  }

  lemma HealthCompletes(w: World, c: Config, t: Trace, request: string, s: Selection)
    requires Ready(t, s) && !SaysSomething(s.decision)
    requires Planned(s.decision) == [DEVICE, BATTERY, STORAGE] && s.decision.workflowName == Some(PHONE_HEALTH_CHECK)
    ensures Completes(w, request, t, s, RunHealthCheck(w, c, t, request, s))
  {
    hide Sum, Allowed, Planned, SaysSomething, ExplainHealth;
    var t0 := Tell(t, 30);
    var device := Execute(w, t0, DEVICE, request);
    var t1 := Tell(device.trace, 40);
    var battery := Execute(w, t1, BATTERY, request);
    var t2 := Tell(battery.trace, 50);
    var storage := Execute(w, t2, STORAGE, request);
    var t3 := Tell(storage.trace, 60);
    TellSum(t, 30);
    ExecuteSum(w, t0, DEVICE, request);
    TellSum(device.trace, 40);
    ExecuteSum(w, t1, BATTERY, request);
    TellSum(battery.trace, 50);
    ExecuteSum(w, t2, STORAGE, request);
    TellSum(storage.trace, 60);
    TellSum(t3, 100);
    assert Sum(t3).tools == [DEVICE, BATTERY, STORAGE];
    if storage.out.Done? && device.out.Done? && battery.out.Done? {
      var diagnosis := w.diagnose(device.out.value, battery.out.value, storage.out.value);
      if diagnosis.Some? {
        ExplainHealthCompletes(w, request, t, s, t3, diagnosis.value);
      }
    }
  }

  lemma MeasureSum(w: World, t: Trace, tool: string)
    ensures Sum(Measure(w, t, tool).trace) == Add(Sum(t), Executed(tool, "", w.execute(|t|)))
  {
    ExecuteSum(w, t, tool, "");
  }

  lemma OptimizationCompletes(w: World, t: Trace, request: string, s: Selection)
    requires Ready(t, s) && !SaysSomething(s.decision) && Planned(s.decision) == [MEMORY, STORAGE, BATTERY]
    ensures Completes(w, request, t, s, RunPhoneOptimization(w, t, s))
  {
    hide Sum, Allowed, Planned, SaysSomething, Measure;
    var t0 := Tell(t, 35);
    var memory := Measure(w, t0, MEMORY);
    var t1 := Tell(memory.trace, 55);
    var storage := Measure(w, t1, STORAGE);
    var battery := Measure(w, storage.trace, BATTERY);
    TellSum(t, 35);
    MeasureSum(w, t0, MEMORY);
    TellSum(memory.trace, 55);
    MeasureSum(w, t1, STORAGE);
    MeasureSum(w, storage.trace, BATTERY);
    TellSum(battery.trace, 100);
    assert Sum(battery.trace).tools == [MEMORY, STORAGE, BATTERY];
  }

  lemma CompleteFacts(w: World, c: Config, t: Trace, request: string, s: Selection)
    requires Ready(t, s)
    ensures Completes(w, request, t, s, Complete(w, c, t, request, s))
  {
    hide Ready, Completes, CompleteAnswer, CompleteProposal, CompleteTool, RunHealthCheck, RunPhoneOptimization;
    assert Allowed(s.decision) by { ReadyFacts(t, s); }
    if s.decision.action == "answer" {
      AnswerCompletes(w, c, t, request, s);
    } else if s.decision.action == "workflow" {
      if s.decision.workflowName == Some(PHONE_OPTIMIZATION_REPORT) {
        OptimizationCompletes(w, t, request, s);
      } else {
        HealthCompletes(w, c, t, request, s);
      }
    } else if s.decision.action == "propose" {
      ProposalCompletes(w, t, request, s);
    } else {
      ToolCompletes(w, c, t, request, s);
    }
  }

  lemma ReadyFacts(t: Trace, s: Selection)
    requires Ready(t, s)
    ensures Allowed(s.decision)
  {
  }

  // ---------- Every run ----------

  lemma RunFacts(w: World, c: Config, request: string)
    ensures var s, r := Select(w, c, [], request), Run(w, c, request);
            if s.out.Thrown? then r.out.Thrown? && r.trace == s.trace && Routing(Sum(r.trace), 3, 100)
            else Ready(s.trace, s.out.value) && Completes(w, request, s.trace, s.out.value, r)
  {
    hide Select, Complete, Ready, Routing, Completes;
    SelectFacts(w, c, request);
    var s := Select(w, c, [], request);
    if s.out.Done? {
      CompleteFacts(w, c, s.trace, request, s.out.value);
    }
  }

  /** A finished run executed exactly the tools its route reports, so answers, clarifications and proposals
      execute none; a run that failed executed the first few of the selected decision's tools, or none before a
      decision; nothing but the read-only tools and the memory report is ever executed. */
  lemma ToolsAreAllowlisted(w: World, c: Config, request: string)
    ensures var s, r := Select(w, c, [], request), Run(w, c, request);
            && (r.out.Done? ==> Sum(r.trace).tools == RouteTools(r.out.value.route))
            && (if s.out.Done? then Sum(r.trace).tools <= Planned(s.out.value.decision) else Sum(r.trace).tools == [])
            && |Sum(r.trace).tools| <= 3
            && forall i :: 0 <= i < |r.trace| && r.trace[i].Executed? ==> r.trace[i].tool in READ_ONLY_TOOLS + {MEMORY}
  {
    hide Select, Run, Sum, Routing, Sound;
    RunFacts(w, c, request);
    var s, r := Select(w, c, [], request), Run(w, c, request);
    ToolsMeans(r.trace);
    if s.out.Done? {
      PlannedAllowed(s.out.value.decision);
      forall i | 0 <= i < |r.trace| && r.trace[i].Executed? ensures r.trace[i].tool in READ_ONLY_TOOLS + {MEMORY} {
        assert r.trace[i].tool in Planned(s.out.value.decision);
      }
    } else {
      RoutingFacts(r.trace);
    }
  }

  lemma PlannedAllowed(d: Decision)
    requires Allowed(d)
    ensures |Planned(d)| <= 3 && forall tool :: tool in Planned(d) ==> tool in READ_ONLY_TOOLS + {MEMORY}
  {
  }

  lemma RoutingFacts(t: Trace)
    requires Routing(Sum(t), 3, 100)
    ensures Sum(t).tools == [] && Sound(Sum(t)) && Sum(t).calls <= 3 && Sum(t).repairs <= Sum(t).hooks <= 1
  {
  }

  /** A proposal names an approved action and is what resolving that action for the request gave. */
  lemma ProposalsAreApproved(w: World, c: Config, request: string)
    ensures Run(w, c, request).out.Done? ==> ProposalIsApproved(w, request, Run(w, c, request).out.value)
  {
    hide Select, Run, Sum, Ready, ProposalIsApproved;
    RunFacts(w, c, request);
  }

  /** Text generated after an answer was asked for never causes an execution, and once a tool has run the model is
      asked for nothing but an answer. */
  lemma ToolsRunBeforeAnswers(w: World, c: Config, request: string)
    ensures ToolsAreBetween(Run(w, c, request).trace)
  {
    hide Select, Run, Sum, ToolsAreBetween;
    RunFacts(w, c, request);
    OrderlyMeans(Run(w, c, request).trace);
  }

  /** At most four generator calls, one repair, and every repair directly after its hook. */
  lemma RunIsBounded(w: World, c: Config, request: string)
    ensures var r := Run(w, c, request);
            Sum(r.trace).calls <= 4 && Sum(r.trace).repairs <= Sum(r.trace).hooks <= 1 && RepairsAreHooked(r.trace)
  {
    hide Select, Run, Sum, RepairsAreHooked;
    RunFacts(w, c, request);
    HookedMeans(Run(w, c, request).trace);
  }

  /** The pieces reported are those of all generator calls of the run. */
  lemma PiecesAreAccounted(w: World, c: Config, request: string)
    ensures Run(w, c, request).out.Done? ==>
              Run(w, c, request).out.value.pieces == Sum(Run(w, c, request).trace).pieces
  {
    hide Select, Run, Sum, Ready, ProposalIsApproved;
    RunFacts(w, c, request);
  }

  /** Progress never falls, and a finished run ends by reporting completion. */
  lemma ProgressEndsComplete(w: World, c: Config, request: string)
    ensures var r := Run(w, c, request);
            ProgressRises(r.trace) && (r.out.Done? ==> r.trace != [] && r.trace[|r.trace| - 1] == Progress(100))
  {
    hide Select, Run, Sum, ProgressRises, ProposalIsApproved;
    RunFacts(w, c, request);
    RisingMeans(Run(w, c, request).trace);
  }

  // ---------- What decides which tools run ----------

  /** The two worlds differ only in what tools return and in what the model writes from the n-th callback on. */
  ghost predicate AgreeBefore(w: World, v: World, n: nat) {
    && v == w.(execute := v.execute, generate := v.generate)
    && forall i :: 0 <= i < n ==> v.generate(i) == w.generate(i)
  }

  lemma InitialAgrees(w: World, v: World, c: Config)
    requires AgreeBefore(w, v, |Initial(w, c, []).trace|)
    ensures Initial(v, c, []) == Initial(w, c, [])
  {
    hide ParseAgentDecision;
    var t: Trace := [];
    var first := Ask(w, Tell(t, 15), Route(c.allowDeviceActions), DECISION_TOKENS);
    assert v.generate(1) == w.generate(1);
    if first.out.Done? && ParseAgentDecision(w.library, first.out.value.text).None? {
      assert |Tell(first.trace, 22)| == 3 && |BeforeRepair(w, Tell(first.trace, 22))| == 4;
      if w.hook(3) {
        assert v.generate(4) == w.generate(4);
      }
    }
  }

  lemma LongerThanInitial(w: World, c: Config, request: string)
    ensures |SelectLocally(w, c, [], request).trace| >= |Initial(w, c, []).trace|
  {
    hide Initial, ParseAgentDecision;
  }

  lemma SelectAgrees(w: World, v: World, c: Config, request: string)
    requires AgreeBefore(w, v, |Select(w, c, [], request).trace|)
    ensures Select(v, c, [], request) == Select(w, c, [], request)
  {
    hide ParseAgentDecision, ParseScopeDecision, RouteToDecision, Initial, Normalized;
    var t: Trace := [];
    if c.product && w.asksForHelp(request) {
    } else if c.product && c.allowDeviceActions && w.destination(request).Some? {
    } else if c.selector {
    } else if c.hierarchical {
      HierarchyAgrees(w, v);
    } else {
      LongerThanInitial(w, c, request);
      InitialAgrees(w, v, c);
      var initial := Initial(w, c, []);
      if initial.out.Done? {
        ConservativeAgrees(w, v, request, initial.out.value);
        RefineAgrees(w, v, initial.trace, Conservative(w, request, initial.out.value));
      }
    }
  }

  lemma ConservativeAgrees(w: World, v: World, request: string, s: Selection)
    requires AgreeBefore(w, v, 0)
    ensures Conservative(v, request, s) == Conservative(w, request, s)
  {
  }

  lemma RefineAgrees(w: World, v: World, t: Trace, s: Selection)
    requires AgreeBefore(w, v, |RefineNoteRoute(w, t, s).trace|)
    ensures RefineNoteRoute(v, t, s) == RefineNoteRoute(w, t, s)
  {
    hide ParseAgentDecision;
    if IsNoteTool(s.decision) {
      assert |Tell(t, 28)| == |t| + 1;
      assert v.generate(|t| + 1) == w.generate(|t| + 1);
    }
  }

  lemma HierarchyAgrees(w: World, v: World)
    requires AgreeBefore(w, v, |SelectHierarchically(w, []).trace|)
    ensures SelectHierarchically(v, []) == SelectHierarchically(w, [])
  {
    hide ParseAgentDecision, ParseScopeDecision;
    var t: Trace := [];
    var scope := Ask(w, Tell(t, 12), Scope, DECISION_TOKENS);
    assert v.generate(1) == w.generate(1);
    if scope.out.Done? && ParseScopeDecision(w.library, scope.out.value.text).Some?
       && ParseScopeDecision(w.library, scope.out.value.text).value != "answer" {
      assert |Tell(scope.trace, 24)| == 3;
      assert v.generate(3) == w.generate(3);
    }
  }

  /** Neither what a tool returns nor anything the model writes after the selection changes which tools run: of
      two such runs one executes the first of the other's tools, and finished ones execute the same. */
  lemma ToolDataDecidesNothing(w: World, v: World, c: Config, request: string)
    requires AgreeBefore(w, v, |Select(w, c, [], request).trace|)
    ensures var a, b := Sum(Run(w, c, request).trace).tools, Sum(Run(v, c, request).trace).tools;
            && (a <= b || b <= a)
            && (Run(w, c, request).out.Done? && Run(v, c, request).out.Done? ==> a == b)
  {
    hide Select, Run, Sum, Routing, Sound, AgreeBefore;
    SelectAgrees(w, v, c, request);
    ToolsAreAllowlisted(w, c, request);
    ToolsAreAllowlisted(v, c, request);
    RunFacts(w, c, request);
    RunFacts(v, c, request);
  }

  // ---------- Proposals with device actions switched off ----------

  /** The text of the reply to the n-th callback, if the generator was asked there and answered. */
  function Reply(w: World, n: nat): Option<Decision> {
    if w.generate(n).Some? then ParseAgentDecision(w.library, w.generate(n).value.text) else None
  }

  predicate NeedsRepair(w: World) {
    w.generate(1).Some? && ParseAgentDecision(w.library, w.generate(1).value.text).None?
  }

  /** The first routing reply that validates: the first one, or the repaired one after a completed hook. */
  function Routed(w: World): Option<Decision> {
    if !NeedsRepair(w) then Reply(w, 1) else if w.hook(3) then Reply(w, 4) else None
  }

  /** The decision after normalisation and the relevance check. */
  function Checked(w: World, request: string): Option<Decision> {
    if Routed(w).None? then None else Some(Conservative(w, request, Selection(Routed(w).value, 0, false)).decision)
  }

  /** The decision that local routing ends with: the checked one, or the reply of the note pass. */
  function Deciding(w: World, request: string): Option<Decision> {
    if Checked(w, request).Some? && IsNoteTool(Checked(w, request).value)
    then Reply(w, if NeedsRepair(w) then 6 else 3)
    else Checked(w, request)
  }

  predicate ScopeIsLive(w: World) {
    w.generate(1).Some? && ParseScopeDecision(w.library, w.generate(1).value.text) == Some("live_device")
  }

  lemma InitialIsRouted(w: World, c: Config)
    ensures var initial := Initial(w, c, []);
            && (Routed(w).None? <==> initial.out.Thrown?)
            && (Routed(w).Some? ==> initial.out.value.decision == Routed(w).value &&
                                    |initial.trace| == if NeedsRepair(w) then 5 else 2)
  {
    hide ParseAgentDecision;
    var t: Trace := [];
    var first := Ask(w, Tell(t, 15), Route(c.allowDeviceActions), DECISION_TOKENS);
    assert |Tell(t, 15)| == 1 && |first.trace| == 2;
    assert |Tell(first.trace, 22)| == 3 && |BeforeRepair(w, Tell(first.trace, 22))| == 4;
  }

  lemma RefineIsReply(w: World, t: Trace, s: Selection)
    ensures var refined := RefineNoteRoute(w, t, s);
            if !IsNoteTool(s.decision) then refined.out == Done(s)
            else && (Reply(w, |t| + 1).None? <==> refined.out.Thrown?)
                 && (Reply(w, |t| + 1).Some? ==> refined.out.value.decision == Reply(w, |t| + 1).value)
  {
    hide ParseAgentDecision;
    assert |Tell(t, 28)| == |t| + 1;
  }

  lemma LocalSelectionDecides(w: World, c: Config, request: string)
    ensures var s := SelectLocally(w, c, [], request);
            && (Deciding(w, request).None? <==> s.out.Thrown?)
            && (s.out.Done? ==> s.out.value.decision == Deciding(w, request).value)
  {
    hide Initial, RefineNoteRoute, Routed, Reply, NeedsRepair, IsNoteTool, Normalized;
    InitialIsRouted(w, c);
    var initial := Initial(w, c, []);
    if initial.out.Done? {
      RefineIsReply(w, initial.trace, Conservative(w, request, initial.out.value));
    }
  }

  /** A decision is a proposal whose action resolves for the request. */
  predicate Proposes(w: World, request: string, d: Decision) {
    d.action == "propose" && d.proposedAction.Some? && w.resolve(d.proposedAction.value, request).Some?
  }

  lemma ProposalFromDecision(w: World, c: Config, t: Trace, request: string, s: Selection)
    requires Allowed(s.decision) && Completes(w, request, t, s, Complete(w, c, t, request, s))
    ensures var r := Complete(w, c, t, request, s);
            r.out.Done? && r.out.value.proposal.Some? <==> Proposes(w, request, s.decision)
  {
    hide CompleteAnswer, CompleteTool, RunHealthCheck, RunPhoneOptimization, Sum, Tell;
    if s.decision.action == "propose" {
      ApprovedHasWording(s.decision.proposedAction.value);
    } else {
      OtherPathsDoNotPropose(w, c, t, request, s);
    }
  }

  lemma OtherPathsDoNotPropose(w: World, c: Config, t: Trace, request: string, s: Selection)
    requires s.decision.action != "propose"
    ensures var r := Complete(w, c, t, request, s); r.out.Done? ==> r.out.value.proposal.None?
  {
    hide ParseFinalAnswer, Tell, Ask, Execute, Measure, Trim, Blank;
  }

  /** Whether local or hierarchical routing ends with a proposal that resolves: the deciding reply of local routing,
      or the live reply after a scope reply that asked for it. */
  predicate ReplyProposes(w: World, c: Config, request: string) {
    if c.hierarchical
    then ScopeIsLive(w) && Reply(w, 3).Some? && Proposes(w, request, Reply(w, 3).value)
    else Deciding(w, request).Some? && Proposes(w, request, Deciding(w, request).value)
  }

  lemma HierarchyDecides(w: World)
    ensures var s := SelectHierarchically(w, []);
            if ScopeIsLive(w)
            then (Reply(w, 3).None? <==> s.out.Thrown?) && (s.out.Done? ==> s.out.value.decision == Reply(w, 3).value)
            else s.out.Done? ==> s.out.value.decision == Answer("", false)
  {
    hide ParseAgentDecision;
    var t: Trace := [];
    var scope := Ask(w, Tell(t, 12), Scope, DECISION_TOKENS);
    assert |Tell(t, 12)| == 1 && |scope.trace| == 2 && |Tell(scope.trace, 24)| == 3;
  }

  lemma HeadNeverProposes(w: World)
    ensures var s := SelectByHead(w, []); s.out.Done? ==> s.out.value.decision.action != "propose"
  {
  }

  /** The selections that end in a resolving proposal, whatever the configuration. */
  lemma SelectionProposesExactly(w: World, c: Config, request: string)
    ensures var s := Select(w, c, [], request);
            s.out.Done? && Proposes(w, request, s.out.value.decision) <==>
              if c.product && w.asksForHelp(request) then false
              else if c.product && c.allowDeviceActions && w.destination(request).Some?
              then w.resolve(SearchAction(w.destination(request).value), request).Some?
              else !c.selector && ReplyProposes(w, c, request)
  {
    hide SelectLocally, SelectHierarchically, SelectByHead, Deciding, Reply, ScopeIsLive, SearchAction;
    HeadNeverProposes(w);
    HierarchyDecides(w);
    LocalSelectionDecides(w, c, request);
  }

  lemma RunProposes(w: World, c: Config, request: string)
    ensures var s, r := Select(w, c, [], request), Run(w, c, request);
            r.out.Done? && r.out.value.proposal.Some? <==>
              s.out.Done? && Proposes(w, request, s.out.value.decision)
  {
    hide Select, Complete, Proposes, Completes, Routing, Sum;
    RunFacts(w, c, request);
    var s := Select(w, c, [], request);
    if s.out.Done? {
      ProposalFromDecision(w, c, s.trace, request, s.out.value);
    }
  }

  /** Device actions switched off do not stop proposals. In every configuration a run returns one if and only if it
      is neither answered with help nor routed by the decision head, and the reply that decides the route is a
      proposal whose action resolves: in hierarchical routing the live reply, in local routing one that
      normalisation and the relevance check leave, or the reply of the note pass after them. */
  lemma ProposesSwitchedOffExactly(w: World, c: Config, request: string)
    requires !c.allowDeviceActions
    ensures var r := Run(w, c, request);
            r.out.Done? && r.out.value.proposal.Some? <==>
              !(c.product && w.asksForHelp(request)) && !c.selector && ReplyProposes(w, c, request)
  {
    hide Select, Run, Proposes, ReplyProposes;
    SelectionProposesExactly(w, c, request);
    RunProposes(w, c, request);
  }

  /** The switch changes nothing but the prompt: for the same replies local routing decides the same. */
  lemma SwitchOnlyChangesThePrompt(w: World, c: Config, on: bool, request: string)
    ensures SelectLocally(w, c, [], request).out == SelectLocally(w, c.(allowDeviceActions := on), [], request).out
  {
    hide ParseAgentDecision, Normalized;
    InitialIgnoresSwitch(w, c, on);
  }

  lemma InitialIgnoresSwitch(w: World, c: Config, on: bool)
    ensures var a, b := Initial(w, c, []), Initial(w, c.(allowDeviceActions := on), []);
            a.out == b.out && |a.trace| == |b.trace|
  {
    hide ParseAgentDecision;
  }

  lemma StartHasMembers(s: string, t: string, i: nat)
    requires i < |t|
    ensures StartsWith(s, t) ==> t[i] in s
  {
    if StartsWith(s, t) {
      assert s[i] == t[i];
    }
  }

  lemma {:induction false} NotContained(s: string, t: string, i: nat)
    requires i < |t| && t[i] !in s
    ensures !Contains(s, t)
  {
    StartHasMembers(s, t, i);
    if s != "" {
      NotContained(s[1..], t, i);
    }
  }

  lemma {:induction false} NoneContained(s: string, words: seq<string>)
    requires forall k :: 0 <= k < |words| ==> !Contains(s, words[k])
    ensures CountWords(s, words) == 0
  {
    if words != [] {
      hide Contains;
      NoneContained(s, words[..|words| - 1]);
    }
  }

  const OPEN_CAMERA_REQUEST := "open camera"

  /** Every media word has a letter that the request has not. */
  lemma NoMediaWords()
    ensures CountWords(OPEN_CAMERA_REQUEST, MEDIA_WORDS) == 0
  {
    hide Contains;
    var s := OPEN_CAMERA_REQUEST;
    assert forall c :: c in s ==> c in {'o', 'p', 'e', 'n', ' ', 'c', 'a', 'm', 'r'};
    NotContained(s, "stop", 0);
    NotContained(s, "pause", 2);
    NotContained(s, "continue", 3);
    NotContained(s, "resume", 2);
    NotContained(s, "next", 2);
    NotContained(s, "forward", 0);
    NotContained(s, "previous", 3);
    NotContained(s, "backward", 0);
    NoneContained(s, MEDIA_WORDS);
  }

  /** What a model writes to propose the camera, and what parsing it gives. */
  const CAMERA_MEMBERS := "\"action\":\"propose\",\"name\":\"open_camera\",\"args\":{}"

  const CAMERA_CALL := map["action" := Text("propose"), "name" := Text(OPEN_CAMERA), "args" := Object(map[], "{}")]

  lemma BracedIsParsed(l: Library, s: string, json: map<string, Json>)
    requires Braced(s) && l.parseObject(s) == Some(json)
    ensures ParseAgentDecision(l, s) == ParseObjectDecision(json, false)
  {
    hide Trim, ParseObjectDecision;
    assert Tight(s);
    TrimmedAlready(s);
    assert s[..1] == "{" && s[|s| - 1..] == "}";
    assert s[|s| - 1] == '}' && (|s| >= 3 ==> s[|s| - 3..][2] == '}');
  }

  lemma CameraCallIsProposal()
    ensures ParseObjectDecision(CAMERA_CALL, false) == Some(Propose(OPEN_CAMERA, false))
  {
    assert |CAMERA_CALL| == 3;
  }

  /** With device actions off and local routing, the request "open camera" and a model that writes the camera
      proposal at once, the run returns the proposal. What the lemma asks of the world are facts of the app: that
      text parses to those members, the request is in lower case, the camera is relevant to it, and the action
      resolves. */
  lemma ProposalWithActionsOff(w: World, c: Config)
    requires !c.allowDeviceActions && !c.selector && !c.hierarchical
    requires !w.asksForHelp(OPEN_CAMERA_REQUEST) && w.lower(OPEN_CAMERA_REQUEST) == OPEN_CAMERA_REQUEST
    requires w.generate(1).Some? && w.generate(1).value.text == "{" + CAMERA_MEMBERS + "}"
    requires w.library.parseObject("{" + CAMERA_MEMBERS + "}") == Some(CAMERA_CALL)
    requires w.relevant(Propose(OPEN_CAMERA, false), OPEN_CAMERA_REQUEST)
    requires w.resolve(OPEN_CAMERA, OPEN_CAMERA_REQUEST).Some?
    ensures var r := Run(w, c, OPEN_CAMERA_REQUEST);
            r.out.Done? && r.out.value.proposal == w.resolve(OPEN_CAMERA, OPEN_CAMERA_REQUEST)
  {
    hide Run, Select, ParseAgentDecision, ParseObjectDecision, CountWords, ProposalIsApproved;
    BracedIsParsed(w.library, "{" + CAMERA_MEMBERS + "}", CAMERA_CALL);
    CameraCallIsProposal();
    NoMediaWords();
    assert Routed(w) == Some(Propose(OPEN_CAMERA, false));
    assert Deciding(w, OPEN_CAMERA_REQUEST) == Some(Propose(OPEN_CAMERA, false));
    ProposesSwitchedOffExactly(w, c, OPEN_CAMERA_REQUEST);
    ProposalOfSelection(w, c, OPEN_CAMERA_REQUEST);
    LocalSelectionDecides(w, c, OPEN_CAMERA_REQUEST);
    LocalIsSelected(w, c, OPEN_CAMERA_REQUEST);
  }

  lemma LocalIsSelected(w: World, c: Config, request: string)
    requires !(c.product && w.asksForHelp(request)) && !c.allowDeviceActions && !c.selector && !c.hierarchical
    ensures Select(w, c, [], request) == SelectLocally(w, c, [], request)
  {
    hide SelectLocally;
  }

  /** A returned proposal is the resolution of the selected decision's action. */
  lemma ProposalOfSelection(w: World, c: Config, request: string)
    ensures var s, r := Select(w, c, [], request), Run(w, c, request);
            r.out.Done? && r.out.value.proposal.Some? ==>
              && s.out.Done? && s.out.value.decision.proposedAction.Some?
              && r.out.value.proposal == w.resolve(s.out.value.decision.proposedAction.value, request)
  {
    hide Select, CompleteAnswer, CompleteTool, RunHealthCheck, RunPhoneOptimization;
    var s := Select(w, c, [], request);
    if s.out.Done? && s.out.value.decision.action != "propose" {
      OtherPathsDoNotPropose(w, c, s.trace, request, s.out.value);
    }
  }

  // ---------- Relevance ----------

  /** A decision that was checked is relevant to the request or an empty answer. */
  lemma ConservativeIsRelevant(w: World, request: string, s: Selection)
    ensures var d := Conservative(w, request, s).decision;
            w.relevant(d, request) || d == Answer("", false)
  {
  }

  /** In a run with local routing an irrelevant decision can only come from the note pass: the checked decision
      was a note tool, and the deciding reply is the one to the note prompt. */
  lemma IrrelevantOnlyByNotePass(w: World, c: Config, request: string)
    requires SelectLocally(w, c, [], request).out.Done?
    ensures var d := SelectLocally(w, c, [], request).out.value.decision;
            !w.relevant(d, request) && d != Answer("", false) ==>
              Checked(w, request).Some? && IsNoteTool(Checked(w, request).value) &&
              Reply(w, if NeedsRepair(w) then 6 else 3) == Some(d)
  {
    hide SelectLocally, Routed, Reply, NeedsRepair, IsNoteTool, Normalized;
    LocalSelectionDecides(w, c, request);
    if Routed(w).Some? {
      ConservativeIsRelevant(w, request, Selection(Routed(w).value, 0, false));
    }
  }

  /** And it does: if some text parses to an irrelevant decision, every possible outcome of the note pass is
      relevant if and only if the checked decision is not a note tool. */
  lemma RelevanceKeptExactly(w: World, t: Trace, request: string, s: Selection, text: string)
    requires w.relevant(s.decision, request)
    requires ParseAgentDecision(w.library, text).Some?
    requires !w.relevant(ParseAgentDecision(w.library, text).value, request)
    ensures (forall g: nat -> Option<Generated> ::
              var r := RefineNoteRoute(w.(generate := g), t, s);
              r.out.Done? ==> w.relevant(r.out.value.decision, request)) <==> !IsNoteTool(s.decision)
  {
    hide ParseAgentDecision;
    if IsNoteTool(s.decision) {
      var g: nat -> Option<Generated> := (n: nat) => Some(Generated(text, 1));
      var r := RefineNoteRoute(w.(generate := g), t, s);
      assert r.out.Done? && r.out.value.decision == ParseAgentDecision(w.library, text).value;
    }
  }
}
