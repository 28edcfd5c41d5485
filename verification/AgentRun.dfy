/**
 One run of the agent, as a function of the request and of everything it is told: the n-th callback of a run
 gets the n-th reply, and replies are arbitrary.
 */
module AgentRun {
  import opened AgentProtocol
  import opened Options

  datatype Prompt =
    | Route(withActions: bool)
    | Repair(invalid: string)
    | NoteRoute
    | Scope
    | Live
    | DirectAnswer
    | ToolAnswer(tool: string, result: string)
    | HealthAnswer(diagnosis: string)

  datatype Generated = Generated(text: string, pieces: int)

  datatype Destination = YouTube | Spotify

  datatype Proposal = Proposal(name: string, details: string)

  /** Replies of the outside, None being an exception, and the app's own string functions. */
  datatype World = World(
    generate: nat -> Option<Generated>,
    execute: nat -> Option<string>,
    hook: nat -> bool,
    choose: nat -> Option<string>,
    library: Library,
    lower: string -> string,
    partialText: string -> Option<string>,
    asksForHelp: string -> bool,
    destination: string -> Option<Destination>,
    relevant: (Decision, string) -> bool,
    trusted: string -> Option<string>,
    copiedExample: (string, string) -> bool,
    placeholder: string -> bool,
    resolve: (string, string) -> Option<Proposal>,
    wording: (string, Option<Proposal>) -> string,
    toolAnswer: (string, string) -> Option<string>,
    diagnose: (string, string, string) -> Option<string>,
    healthSummary: string -> string,
    report: (string, string, string) -> Option<string>)

  datatype Config = Config(product: bool, allowDeviceActions: bool, selector: bool, hierarchical: bool,
                           finalAnswers: bool)

  /** Fractions are in hundredths. */
  datatype Event =
    | Progress(fraction: nat)
    | Asked(prompt: Prompt, tokens: nat, reply: Option<Generated>)
    | Executed(tool: string, request: string, result: Option<string>)
    | Hook(ok: bool)
    | Chose(choice: Option<string>)

  type Trace = seq<Event>

  datatype Outcome<+T> = Done(value: T) | Thrown

  datatype Step<+T> = Step(trace: Trace, out: Outcome<T>)

  datatype Selection = Selection(decision: Decision, pieces: int, repairAttempted: bool)

  datatype Path =
    | AnswerPath
    | GuardrailPath
    | TextModelRequired
    | ClarifyCopied
    | ClarifyAction(action: string)
    | ProposePath(action: string)
    | ToolPath(tool: string, deterministic: bool, normalized: bool, fallback: bool)
    | WorkflowPath(name: string, deterministic: bool, fallback: bool)

  datatype RunResult = RunResult(answer: string, route: Path, pieces: int, diagnosis: Option<string>,
                                 proposal: Option<Proposal>)

  const DECISION_TOKENS: nat := 64
  const ANSWER_TOKENS: nat := 256

  const CAPABILITY_HELP :=
    "I can work locally with:\n" +
    "\U{2022} device, battery, storage, and phone-health information\n" +
    "\U{2022} private notes that survive app restarts\n" +
    "\U{2022} keyword search in an authorized local folder\n" +
    "\U{2022} alarms, timers, and calendar-event drafts\n" +
    "\U{2022} opening Camera, Wallpaper Settings, Storage Settings, Battery Settings, and app-management screens\n" +
    "\U{2022} Spotify/YouTube searches, Telegram drafts, and media information/control after you grant access\n" +
    "\n" +
    "Actions require confirmation. I cannot silently send messages, close arbitrary apps, or modify system settings."

  const ONE_MEDIA_ACTION := "Tell me one media action at a time: play/pause, next, or previous."

  const TEXT_MODEL_NEEDED := "Reflex-1 selected a direct answer. Choose a text model to generate a response."

  const MEDIA_WORDS := ["stop", "pause", "continue", "resume", "next", "forward", "previous", "backward"]

  const CLEANUP_WORDS := ["remove", "clean", "optimize", "lag", "slow"]

  // ---------- Callbacks ----------

  function Tell(t: Trace, fraction: nat): Trace {
    t + [Progress(fraction)]
  }

  function Ask(w: World, t: Trace, p: Prompt, tokens: nat): Step<Generated> {
    var reply := w.generate(|t|);
    Step(t + [Asked(p, tokens, reply)], if reply.Some? then Done(reply.value) else Thrown)
  }

  function Execute(w: World, t: Trace, tool: string, request: string): Step<string> {
    var result := w.execute(|t|);
    Step(t + [Executed(tool, request, result)], if result.Some? then Done(result.value) else Thrown)
  }

  function BeforeRepair(w: World, t: Trace): Trace {
    t + [Hook(w.hook(|t|))]
  }

  function Decide(s: Step<Generated>, d: Option<Decision>, pieces: int, repaired: bool): Step<Selection> {
    Step(s.trace, if d.None? then Thrown else Done(Selection(d.value, pieces, repaired)))
  }

  // ---------- Selection ----------

  function CountWords(text: string, words: seq<string>): nat {
    if words == [] then 0
    else CountWords(text, words[..|words| - 1]) + if Contains(text, words[|words| - 1]) then 1 else 0
  }

  function Normalized(w: World, request: string, d: Decision): Decision {
    if CountWords(w.lower(request), MEDIA_WORDS) >= 2 then Answer(ONE_MEDIA_ACTION, false)
    else if d.proposedAction == Some(REVIEW_BACKGROUND_APPS) && CountWords(w.lower(request), CLEANUP_WORDS) > 0
    then Workflow(PHONE_OPTIMIZATION_REPORT, false)
    else d
  }

  function Conservative(w: World, request: string, s: Selection): Selection {
    var d := Normalized(w, request, s.decision);
    s.(decision := if w.relevant(d, request) then d else Answer("", false))
  }

  function Repaired(w: World, t: Trace, invalid: Generated): Step<Selection> {
    var hooked := BeforeRepair(w, Tell(t, 22));
    if !w.hook(|t| + 1) then Step(hooked, Thrown)
    else
      var again := Ask(w, hooked, Repair(invalid.text), DECISION_TOKENS);
      if again.out.Thrown? then Step(again.trace, Thrown)
      else Decide(again, ParseAgentDecision(w.library, again.out.value.text), invalid.pieces + again.out.value.pieces,
                  true)
  }

  function Initial(w: World, c: Config, t: Trace): Step<Selection> {
    var first := Ask(w, Tell(t, 15), Route(c.allowDeviceActions), DECISION_TOKENS);
    if first.out.Thrown? then Step(first.trace, Thrown)
    else
      var d := ParseAgentDecision(w.library, first.out.value.text);
      if d.Some? then Decide(first, d, first.out.value.pieces, false) else Repaired(w, first.trace, first.out.value)
  }

  predicate IsNoteTool(d: Decision) {
    d.toolName == Some(SEARCH_NOTES) || d.toolName == Some(SAVE_NOTE)
  }

  function RefineNoteRoute(w: World, t: Trace, s: Selection): Step<Selection> {
    if !IsNoteTool(s.decision) then Step(t, Done(s))
    else
      var refined := Ask(w, Tell(t, 28), NoteRoute, DECISION_TOKENS);
      if refined.out.Thrown? then Step(refined.trace, Thrown)
      else Decide(refined, ParseAgentDecision(w.library, refined.out.value.text), s.pieces + refined.out.value.pieces,
                  s.repairAttempted)
  }

  function SelectLocally(w: World, c: Config, t: Trace, request: string): Step<Selection> {
    var initial := Initial(w, c, t);
    if initial.out.Thrown? then initial
    else RefineNoteRoute(w, initial.trace, Conservative(w, request, initial.out.value))
  }

  function SelectLive(w: World, t: Trace, pieces: int): Step<Selection> {
    var live := Ask(w, Tell(t, 24), Live, DECISION_TOKENS);
    if live.out.Thrown? then Step(live.trace, Thrown)
    else Decide(live, ParseAgentDecision(w.library, live.out.value.text), pieces + live.out.value.pieces, false)
  }

  function SelectHierarchically(w: World, t: Trace): Step<Selection> {
    var scope := Ask(w, Tell(t, 12), Scope, DECISION_TOKENS);
    if scope.out.Thrown? || ParseScopeDecision(w.library, scope.out.value.text).None? then Step(scope.trace, Thrown)
    else if ParseScopeDecision(w.library, scope.out.value.text).value == "answer"
    then Step(scope.trace, Done(Selection(Answer("", false), scope.out.value.pieces, false)))
    else SelectLive(w, scope.trace, scope.out.value.pieces)
  }

  function SelectByHead(w: World, t: Trace): Step<Selection> {
    var told := Tell(t, 15);
    var choice := w.choose(|told|);
    var d := if choice.Some? then RouteToDecision(choice.value) else None;
    Step(told + [Chose(choice)], if d.Some? then Done(Selection(d.value, 0, false)) else Thrown)
  }

  function SearchAction(d: Destination): string {
    if d.YouTube? then SEARCH_YOUTUBE else SEARCH_SPOTIFY
  }

  function Select(w: World, c: Config, t: Trace, request: string): Step<Selection> {
    if c.product && w.asksForHelp(request)
    then Step(Tell(t, 100), Done(Selection(Answer(CAPABILITY_HELP, false), 0, false)))
    else if c.product && c.allowDeviceActions && w.destination(request).Some?
    then Step(Tell(t, 20), Done(Selection(Propose(SearchAction(w.destination(request).value), false), 0, false)))
    else if c.selector then SelectByHead(w, t)
    else if c.hierarchical then SelectHierarchically(w, t)
    else SelectLocally(w, c, t, request)
  }

  // ---------- Completion ----------

  function Finish(t: Trace, r: RunResult): Step<RunResult> {
    Step(Tell(t, 100), Done(r))
  }

  function CompleteAnswer(w: World, c: Config, t: Trace, request: string, s: Selection): Step<RunResult> {
    var direct := Trim(if s.decision.text.Some? then s.decision.text.value else "");
    if Blank(direct) then
      if w.trusted(request).Some?
      then Finish(t, RunResult(w.trusted(request).value, GuardrailPath, s.pieces, None, None))
      else if !c.finalAnswers
      then Finish(Tell(t, 70), RunResult(TEXT_MODEL_NEEDED, TextModelRequired, s.pieces, None, None))
      else
        var generated := Ask(w, Tell(t, 70), DirectAnswer, ANSWER_TOKENS);
        if generated.out.Thrown? then Step(generated.trace, Thrown)
        else
          var answer := ParseFinalAnswer(w.library, w.partialText, generated.out.value.text);
          if answer.None? then Step(generated.trace, Thrown)
          else Finish(generated.trace,
                      RunResult(answer.value, AnswerPath, s.pieces + generated.out.value.pieces, None, None))
    else if w.copiedExample(direct, request)
    then Finish(t, RunResult(CLARIFICATION_MESSAGE, ClarifyCopied, s.pieces, None, None))
    else Finish(t, RunResult(direct, AnswerPath, s.pieces, None, None))
  }

  /** The actions a proposal has words for; any other is an error. */
  predicate HasWording(action: string) {
    || action == OPEN_STORAGE_SETTINGS || action == OPEN_BATTERY_SETTINGS || action == OPEN_CAMERA
    || action == OPEN_WALLPAPER_SETTINGS || action == REVIEW_BACKGROUND_APPS
    || action in {SEARCH_SPOTIFY, SEARCH_YOUTUBE} || action == DRAFT_TELEGRAM_MESSAGE
    || action in {MEDIA_PLAY_PAUSE, MEDIA_NEXT, MEDIA_PREVIOUS, OPEN_MEDIA_ACCESS}
    || action in {SET_TIMER, SET_ALARM, CREATE_CALENDAR_EVENT, LAUNCH_APP}
  }

  function CompleteProposal(w: World, t: Trace, request: string, s: Selection): Step<RunResult> {
    if s.decision.proposedAction.None? then Step(t, Thrown)
    else
      var action := s.decision.proposedAction.value;
      var proposal := w.resolve(action, request);
      if proposal.None? then Finish(t, RunResult(w.wording(action, None), ClarifyAction(action), s.pieces, None, None))
      else if !HasWording(action) then Step(t, Thrown)
      else Finish(t, RunResult(w.wording(action, proposal), ProposePath(action), s.pieces, None, proposal))
  }

  function ExplainTool(w: World, t: Trace, s: Selection, tool: string, result: string): Step<RunResult> {
    var generated := Ask(w, Tell(t, 70), ToolAnswer(tool, result), ANSWER_TOKENS);
    if generated.out.Thrown? then Step(generated.trace, Thrown)
    else
      var answer := ParseFinalAnswer(w.library, w.partialText, generated.out.value.text);
      if answer.None? then Step(generated.trace, Thrown)
      else
        var fallback := w.placeholder(answer.value);
        var text := if fallback then w.toolAnswer(tool, result) else answer;
        if text.None? then Step(generated.trace, Thrown)
        else Finish(generated.trace, RunResult(text.value, ToolPath(tool, false, s.decision.schemaRepaired, fallback),
                                               s.pieces + generated.out.value.pieces, None, None))
  }

  function CompleteTool(w: World, c: Config, t: Trace, request: string, s: Selection): Step<RunResult> {
    if s.decision.toolName.None? then Step(t, Thrown)
    else
      var tool := s.decision.toolName.value;
      var run := Execute(w, Tell(t, 45), tool, request);
      if run.out.Thrown? then Step(run.trace, Thrown)
      else if !c.finalAnswers || tool == SEARCH_NOTES || tool == BATTERY || tool == MEDIA then
        var text := w.toolAnswer(tool, run.out.value);
        if text.None? then Step(run.trace, Thrown)
        else Finish(run.trace, RunResult(text.value, ToolPath(tool, true, s.decision.schemaRepaired, false), s.pieces,
                                         None, None))
      else ExplainTool(w, run.trace, s, tool, run.out.value)
  }

  function ExplainHealth(w: World, t: Trace, s: Selection, diagnosis: string): Step<RunResult> {
    var generated := Ask(w, Tell(t, 72), HealthAnswer(diagnosis), ANSWER_TOKENS);
    if generated.out.Thrown? then Step(generated.trace, Thrown)
    else
      var answer := ParseFinalAnswer(w.library, w.partialText, generated.out.value.text);
      if answer.None? then Step(generated.trace, Thrown)
      else
        var fallback := w.placeholder(answer.value);
        var summary := w.healthSummary(diagnosis);
        Finish(generated.trace,
               RunResult(if fallback then summary else summary + "\n\nLocal SLM suggestions: " + answer.value,
                         WorkflowPath(PHONE_HEALTH_CHECK, false, fallback), s.pieces + generated.out.value.pieces,
                         Some(diagnosis), None))
  }

  function RunHealthCheck(w: World, c: Config, t: Trace, request: string, s: Selection): Step<RunResult> {
    if s.decision.workflowName != Some(PHONE_HEALTH_CHECK) then Step(t, Thrown)
    else
      var device := Execute(w, Tell(t, 30), DEVICE, request);
      if device.out.Thrown? then Step(device.trace, Thrown)
      else
        var battery := Execute(w, Tell(device.trace, 40), BATTERY, request);
        if battery.out.Thrown? then Step(battery.trace, Thrown)
        else
          var storage := Execute(w, Tell(battery.trace, 50), STORAGE, request);
          if storage.out.Thrown? then Step(storage.trace, Thrown)
          else
            var t := Tell(storage.trace, 60);
            var diagnosis := w.diagnose(device.out.value, battery.out.value, storage.out.value);
            if diagnosis.None? then Step(t, Thrown)
            else if !c.finalAnswers
            then Finish(t, RunResult(w.healthSummary(diagnosis.value), WorkflowPath(PHONE_HEALTH_CHECK, true, false),
                                     s.pieces, diagnosis, None))
            else ExplainHealth(w, t, s, diagnosis.value)
  }

  /** Each result must be a JSON object before the next tool runs. */
  function Measure(w: World, t: Trace, tool: string): Step<string> {
    var run := Execute(w, t, tool, "");
    if run.out.Done? && w.library.parseObject(run.out.value).None? then Step(run.trace, Thrown) else run
  }

  function RunPhoneOptimization(w: World, t: Trace, s: Selection): Step<RunResult> {
    var memory := Measure(w, Tell(t, 35), MEMORY);
    if memory.out.Thrown? then Step(memory.trace, Thrown)
    else
      var storage := Measure(w, Tell(memory.trace, 55), STORAGE);
      if storage.out.Thrown? then Step(storage.trace, Thrown)
      else
        var battery := Measure(w, storage.trace, BATTERY);
        if battery.out.Thrown? then Step(battery.trace, Thrown)
        else
          var report := w.report(memory.out.value, storage.out.value, battery.out.value);
          if report.None? then Step(battery.trace, Thrown)
          else Finish(battery.trace, RunResult(report.value, WorkflowPath(PHONE_OPTIMIZATION_REPORT, true, false),
                                               s.pieces, None, None))
  }

  function Complete(w: World, c: Config, t: Trace, request: string, s: Selection): Step<RunResult> {
    if s.decision.action == "answer" then CompleteAnswer(w, c, t, request, s)
    else if s.decision.action == "workflow" then
      if s.decision.workflowName == Some(PHONE_OPTIMIZATION_REPORT) then RunPhoneOptimization(w, t, s)
      else RunHealthCheck(w, c, t, request, s)
    else if s.decision.action == "propose" then CompleteProposal(w, t, request, s)
    else CompleteTool(w, c, t, request, s)
  }

  function Run(w: World, c: Config, request: string): Step<RunResult> {
    var selected := Select(w, c, [], request);
    if selected.out.Thrown? then Step(selected.trace, Thrown)
    else Complete(w, c, selected.trace, request, selected.out.value)
  }
}
