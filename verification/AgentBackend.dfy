/**
 The agent itself: it calls the generator, the tools and the progress listener one after the other, and the
 trace of its callbacks and its outcome are those of the run.
 */
module AgentBackendClass {
  import opened AgentAnswers
  import opened AgentProtocol
  import opened AgentRun
  import opened AgentSafety
  import opened Options

  class AgentBackend {
    const world: World
    const config: Config
    var trace: Trace

    constructor (w: World, c: Config)
      ensures world == w && config == c && trace == []
    {
      world, config, trace := w, c, [];
    }

    // ---------- Callbacks ----------

    method OnProgress(fraction: nat)
      modifies this
      ensures trace == Tell(old(trace), fraction)
    {
      trace := trace + [Progress(fraction)];
    }

    method Generate(p: Prompt, tokens: nat) returns (r: Outcome<Generated>)
      modifies this
      ensures Step(trace, r) == Ask(world, old(trace), p, tokens)
    {
      var reply := world.generate(|trace|);
      trace := trace + [Asked(p, tokens, reply)];
      r := if reply.Some? then Done(reply.value) else Thrown;
    }

    method ExecuteTool(tool: string, request: string) returns (r: Outcome<string>)
      modifies this
      ensures Step(trace, r) == Execute(world, old(trace), tool, request)
    {
      var result := world.execute(|trace|);
      trace := trace + [Executed(tool, request, result)];
      r := if result.Some? then Done(result.value) else Thrown;
    }

    method RunHook() returns (ok: bool)
      modifies this
      ensures trace == BeforeRepair(world, old(trace)) && ok == world.hook(|old(trace)|)
    {
      ok := world.hook(|trace|);
      trace := trace + [Hook(ok)];
    }

    // ---------- Selection ----------

    /** The first routing answer, or the one repaired answer if it does not validate. */
    method SelectInitial() returns (r: Outcome<Selection>)
      modifies this
      ensures Step(trace, r) == Initial(world, config, old(trace))
    {
      hide ParseAgentDecision;
      OnProgress(15);
      var generated := Generate(Route(config.allowDeviceActions), DECISION_TOKENS);
      if generated.Thrown? {
        return Thrown;
      }
      var initial := ParseAgentDecision(world.library, generated.value.text);
      if initial.Some? {
        return Done(Selection(initial.value, generated.value.pieces, false));
      }
      OnProgress(22);
      var ok := RunHook();
      if !ok {
        return Thrown;
      }
      var repaired := Generate(Repair(generated.value.text), DECISION_TOKENS);
      if repaired.Thrown? {
        return Thrown;
      }
      var d := ParseAgentDecision(world.library, repaired.value.text);
      if d.None? {
        return Thrown;
      }
      return Done(Selection(d.value, generated.value.pieces + repaired.value.pieces, true));
    }

    method RefineNote(initial: Selection) returns (r: Outcome<Selection>)
      modifies this
      ensures Step(trace, r) == RefineNoteRoute(world, old(trace), initial)
    {
      hide ParseAgentDecision;
      if !IsNoteTool(initial.decision) {
        return Done(initial);
      }
      OnProgress(28);
      var refined := Generate(NoteRoute, DECISION_TOKENS);
      if refined.Thrown? {
        return Thrown;
      }
      var d := ParseAgentDecision(world.library, refined.value.text);
      if d.None? {
        return Thrown;
      }
      return Done(Selection(d.value, initial.pieces + refined.value.pieces, initial.repairAttempted));
    }

    method SelectInTwoSteps() returns (r: Outcome<Selection>)
      modifies this
      ensures Step(trace, r) == SelectHierarchically(world, old(trace))
    {
      hide ParseAgentDecision, ParseScopeDecision;
      OnProgress(12);
      var scope := Generate(Scope, DECISION_TOKENS);
      if scope.Thrown? {
        return Thrown;
      }
      var needed := ParseScopeDecision(world.library, scope.value.text);
      if needed.None? {
        return Thrown;
      }
      if needed.value == "answer" {
        return Done(Selection(Answer("", false), scope.value.pieces, false));
      }
      OnProgress(24);
      var route := Generate(Live, DECISION_TOKENS);
      if route.Thrown? {
        return Thrown;
      }
      var d := ParseAgentDecision(world.library, route.value.text);
      if d.None? {
        return Thrown;
      }
      return Done(Selection(d.value, scope.value.pieces + route.value.pieces, false));
    }

    method ChooseByHead() returns (r: Outcome<Selection>)
      modifies this
      ensures Step(trace, r) == SelectByHead(world, old(trace))
    {
      hide RouteToDecision;
      OnProgress(15);
      var choice := world.choose(|trace|);
      trace := trace + [Chose(choice)];
      if choice.None? {
        return Thrown;
      }
      var d := RouteToDecision(choice.value);
      if d.None? {
        return Thrown;
      }
      return Done(Selection(d.value, 0, false));
    }

    method SelectRoute(request: string) returns (r: Outcome<Selection>)
      modifies this
      ensures Step(trace, r) == Select(world, config, old(trace), request)
    {
      hide Initial, RefineNoteRoute, SelectHierarchically, SelectByHead, Normalized;
      if config.product {
        if world.asksForHelp(request) {
          OnProgress(100);
          return Done(Selection(Answer(CAPABILITY_HELP, false), 0, false));
        }
        if config.allowDeviceActions {
          var destination := world.destination(request);
          if destination.Some? {
            OnProgress(20);
            return Done(Selection(Propose(SearchAction(destination.value), false), 0, false));
          }
        }
      }
      if config.selector {
        r := ChooseByHead();
        return;
      }
      if config.hierarchical {
        r := SelectInTwoSteps();
        return;
      }
      var initial := SelectInitial();
      if initial.Thrown? {
        return Thrown;
      }
      r := RefineNote(Conservative(world, request, initial.value));
    }

    // ---------- Completion ----------

    method FinishAnswer(request: string, s: Selection) returns (r: Outcome<RunResult>)
      modifies this
      ensures Step(trace, r) == CompleteAnswer(world, config, old(trace), request, s)
    {
      hide ParseFinalAnswer, Trim, Blank;
      var direct := Trim(if s.decision.text.Some? then s.decision.text.value else "");
      if Blank(direct) {
        var trusted := world.trusted(request);
        if trusted.Some? {
          OnProgress(100);
          return Done(RunResult(trusted.value, GuardrailPath, s.pieces, None, None));
        }
        OnProgress(70);
        if !config.finalAnswers {
          OnProgress(100);
          return Done(RunResult(TEXT_MODEL_NEEDED, TextModelRequired, s.pieces, None, None));
        }
        var generated := Generate(DirectAnswer, ANSWER_TOKENS);
        if generated.Thrown? {
          return Thrown;
        }
        var answer := ParseFinalAnswer(world.library, world.partialText, generated.value.text);
        if answer.None? {
          return Thrown;
        }
        OnProgress(100);
        return Done(RunResult(answer.value, AnswerPath, s.pieces + generated.value.pieces, None, None));
      }
      var copied := world.copiedExample(direct, request);
      OnProgress(100);
      return Done(RunResult(if copied then CLARIFICATION_MESSAGE else direct,
                            if copied then ClarifyCopied else AnswerPath, s.pieces, None, None));
    }

    method FinishProposal(request: string, s: Selection) returns (r: Outcome<RunResult>)
      modifies this
      ensures Step(trace, r) == CompleteProposal(world, old(trace), request, s)
    {
      hide HasWording;
      if s.decision.proposedAction.None? {
        return Thrown;
      }
      var action := s.decision.proposedAction.value;
      var proposal := world.resolve(action, request);
      if proposal.None? {
        OnProgress(100);
        return Done(RunResult(world.wording(action, None), ClarifyAction(action), s.pieces, None, None));
      }
      if !HasWording(action) {
        return Thrown;
      }
      OnProgress(100);
      return Done(RunResult(world.wording(action, proposal), ProposePath(action), s.pieces, None, proposal));
    }

    method FinishTool(request: string, s: Selection) returns (r: Outcome<RunResult>)
      modifies this
      ensures Step(trace, r) == CompleteTool(world, config, old(trace), request, s)
    {
      hide ParseFinalAnswer;
      if s.decision.toolName.None? {
        return Thrown;
      }
      var tool := s.decision.toolName.value;
      OnProgress(45);
      var result := ExecuteTool(tool, request);
      if result.Thrown? {
        return Thrown;
      }
      if !config.finalAnswers || tool == SEARCH_NOTES || tool == BATTERY || tool == MEDIA {
        var text := world.toolAnswer(tool, result.value);
        if text.None? {
          return Thrown;
        }
        OnProgress(100);
        return Done(RunResult(text.value, ToolPath(tool, true, s.decision.schemaRepaired, false), s.pieces,
                              None, None));
      }
      OnProgress(70);
      var generated := Generate(ToolAnswer(tool, result.value), ANSWER_TOKENS);
      if generated.Thrown? {
        return Thrown;
      }
      var answer := ParseFinalAnswer(world.library, world.partialText, generated.value.text);
      if answer.None? {
        return Thrown;
      }
      var fallback := world.placeholder(answer.value);
      var text := if fallback then world.toolAnswer(tool, result.value) else answer;
      if text.None? {
        return Thrown;
      }
      OnProgress(100);
      return Done(RunResult(text.value, ToolPath(tool, false, s.decision.schemaRepaired, fallback),
                            s.pieces + generated.value.pieces, None, None));
    }

    method ExplainDiagnosis(s: Selection, diagnosis: string) returns (r: Outcome<RunResult>)
      modifies this
      ensures Step(trace, r) == ExplainHealth(world, old(trace), s, diagnosis)
    {
      hide ParseFinalAnswer;
      OnProgress(72);
      var generated := Generate(HealthAnswer(diagnosis), ANSWER_TOKENS);
      if generated.Thrown? {
        return Thrown;
      }
      var answer := ParseFinalAnswer(world.library, world.partialText, generated.value.text);
      if answer.None? {
        return Thrown;
      }
      var fallback := world.placeholder(answer.value);
      var summary := world.healthSummary(diagnosis);
      OnProgress(100);
      return Done(RunResult(if fallback then summary else summary + "\n\nLocal SLM suggestions: " + answer.value,
                            WorkflowPath(PHONE_HEALTH_CHECK, false, fallback), s.pieces + generated.value.pieces,
                            Some(diagnosis), None));
    }

    method CheckHealth(request: string, s: Selection) returns (r: Outcome<RunResult>)
      modifies this
      ensures Step(trace, r) == RunHealthCheck(world, config, old(trace), request, s)
    {
      hide ExplainHealth;
      if s.decision.workflowName != Some(PHONE_HEALTH_CHECK) {
        return Thrown;
      }
      OnProgress(30);
      var device := ExecuteTool(DEVICE, request);
      if device.Thrown? {
        return Thrown;
      }
      OnProgress(40);
      var battery := ExecuteTool(BATTERY, request);
      if battery.Thrown? {
        return Thrown;
      }
      OnProgress(50);
      var storage := ExecuteTool(STORAGE, request);
      if storage.Thrown? {
        return Thrown;
      }
      OnProgress(60);
      var diagnosis := world.diagnose(device.value, battery.value, storage.value);
      if diagnosis.None? {
        return Thrown;
      }
      if !config.finalAnswers {
        OnProgress(100);
        return Done(RunResult(world.healthSummary(diagnosis.value), WorkflowPath(PHONE_HEALTH_CHECK, true, false),
                              s.pieces, diagnosis, None));
      }
      r := ExplainDiagnosis(s, diagnosis.value);
    }

    method MeasureTool(tool: string) returns (r: Outcome<string>)
      modifies this
      ensures Step(trace, r) == Measure(world, old(trace), tool)
    {
      r := ExecuteTool(tool, "");
      if r.Done? && world.library.parseObject(r.value).None? {
        return Thrown;
      }
    }

    method OptimizePhone(s: Selection) returns (r: Outcome<RunResult>)
      modifies this
      ensures Step(trace, r) == RunPhoneOptimization(world, old(trace), s)
    {
      hide Measure;
      OnProgress(35);
      var memory := MeasureTool(MEMORY);
      if memory.Thrown? {
        return Thrown;
      }
      OnProgress(55);
      var storage := MeasureTool(STORAGE);
      if storage.Thrown? {
        return Thrown;
      }
      var battery := MeasureTool(BATTERY);
      if battery.Thrown? {
        return Thrown;
      }
      var report := world.report(memory.value, storage.value, battery.value);
      if report.None? {
        return Thrown;
      }
      OnProgress(100);
      return Done(RunResult(report.value, WorkflowPath(PHONE_OPTIMIZATION_REPORT, true, false), s.pieces, None, None));
    }

    method CompleteSelection(request: string, s: Selection) returns (r: Outcome<RunResult>)
      modifies this
      ensures Step(trace, r) == Complete(world, config, old(trace), request, s)
    {
      hide CompleteAnswer, CompleteProposal, CompleteTool, RunHealthCheck, RunPhoneOptimization;
      if s.decision.action == "answer" {
        r := FinishAnswer(request, s);
      } else if s.decision.action == "workflow" {
        if s.decision.workflowName == Some(PHONE_OPTIMIZATION_REPORT) {
          r := OptimizePhone(s);
        } else {
          r := CheckHealth(request, s);
        }
      } else if s.decision.action == "propose" {
        r := FinishProposal(request, s);
      } else {
        r := FinishTool(request, s);
      }
    }

    /** A run of a fresh agent. Whatever its callbacks reply, it executes only read-only tools and the memory report,
        at most three and none after an answer was asked for; it asks the model at most four times and repairs at
        most once, each time after the hook; its progress never falls; and if it finishes, it executed exactly
        the tools its route stands for, reports the pieces of all its calls, has reported completion, and answers
        what the determined decision, the tool results and the last reply make right. */
    method RunRequest(request: string) returns (r: Outcome<RunResult>)
      requires trace == []
      modifies this
      ensures Step(trace, r) == Run(world, config, request)
      ensures forall e :: e in trace && e.Executed? ==> e.tool in READ_ONLY_TOOLS + {MEMORY}
      ensures |Sum(trace).tools| <= 3 && Sum(trace).calls <= 4 && Sum(trace).repairs <= 1
      ensures ToolsAreBetween(trace) && RepairsAreHooked(trace) && ProgressRises(trace)
      ensures r.Done? ==>
                && Sum(trace).tools == RouteTools(r.value.route) && r.value.pieces == Sum(trace).pieces
                && ProposalIsApproved(world, request, r.value) && trace != [] && trace[|trace| - 1] == Progress(100)
                && Determined(world, config, request).Some?
                && Right(world, config, request, Determined(world, config, request).value,
                         Hear(Select(world, config, [], request).trace), Hear(trace), r.value)
    {
      hide Select, Complete, Run, Sum, ToolsAreBetween, RepairsAreHooked, ProgressRises, ProposalIsApproved;
      hide Right, Hear, Determined;
      r := RunSteps(request);
      ToolsAreAllowlisted(world, config, request);
      RunIsBounded(world, config, request);
      ToolsRunBeforeAnswers(world, config, request);
      ProgressEndsComplete(world, config, request);
      ProposalsAreApproved(world, config, request);
      PiecesAreAccounted(world, config, request);
      AnswersAreRight(world, config, request);
      SelectsDetermined(world, config, request);
    }

    method RunSteps(request: string) returns (r: Outcome<RunResult>)
      requires trace == []
      modifies this
      ensures Step(trace, r) == Run(world, config, request)
    {
      hide Select, Complete;
      var selected := SelectRoute(request);
      if selected.Thrown? {
        return Thrown;
      }
      r := CompleteSelection(request, selected.value);
    }
  }
}
