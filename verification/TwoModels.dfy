/**
 The protocol that keeps the decision server and the text model apart, step by step.
 One operation holds the mutex; between any two of its awaits the unguarded `cleanUp` and `close`, the text
 engine's own background work, and failures or cancellations may intervene.
 */
module TwoModels {
  import opened Options

  /** The text engine's published state. */
  datatype Text =
    | Uninitialized | Initialized | LoadingModel | ModelReady
    | ProcessingSystemPrompt | Benchmarking | Generating | Error

  /** The text engine is loading or holding a model. */
  predicate Holds(t: Text) {
    t.LoadingModel? || t.ModelReady? || t.ProcessingSystemPrompt? || t.Benchmarking? || t.Generating?
  }

  /** What the mutex holder is doing it for. */
  datatype Goal = LoadGoal(path: string) | RouteGoal(path: string) | PromptGoal

  /** The holder's next action; Free when nobody holds the mutex. */
  datatype Pc =
    | Free
    | Stop(goal: Goal)                    // runtime.stop() drops the handle ...
    | StopWait(goal: Goal)                // ... and waits for the process to die
    | AwaitText(goal: Goal)               // unloadText() waits for a settled text state ...
    | CleanText(goal: Goal, seen: Text)   // ... and unloads according to what it saw
    | Unloaded(goal: Goal)
    | ReadArchitecture(path: string)
    | StartCheck(goal: Goal)              // runtime.start(): already running?
    | StartStop(goal: Goal)
    | StartStopWait(goal: Goal)
    | Spawn(goal: Goal)
    | Poll(goal: Goal)
    | StartFail(goal: Goal)               // the catch block of start()
    | Started(goal: Goal)
    | Select
    | LoadText(goal: Goal)
    | AwaitLoad(goal: Goal)
    | SystemPrompt
    | AwaitSystemPrompt
    | Generate
    | AwaitGeneration

  datatype State = State(
    handle: bool,                   // ReflexRuntime.process is not null
    modelPath: Option<string>,      // ReflexRuntime.modelPath
    decision: Option<string>,       // decisionPath
    text: Text,
    pc: Pc)

  /** A new engine; the text engine is shared and outlives its callers, so it may be in any state. */
  ghost predicate Init(s: State) {
    !s.handle && s.modelPath.None? && s.decision.None? && s.pc.Free?
  }

  predicate Settled(t: Text) {
    t.Initialized? || t.ModelReady? || t.Error?
  }

  /** Leaving the critical section by an exception; `loadModel` forgets the decision path only when the
      decision server was being started. */
  ghost predicate Thrown(s: State, t: State) {
    t == s.(pc := Free) || (StartingForLoad(s.pc) && t == s.(decision := None, pc := Free))
  }

  predicate StartingForLoad(pc: Pc) {
    match pc
    case StartCheck(g) => g.LoadGoal?
    case StartStop(g) => g.LoadGoal?
    case StartStopWait(g) => g.LoadGoal?
    case Spawn(g) => g.LoadGoal?
    case StartFail(g) => g.LoadGoal?
    case Started(g) => g.LoadGoal?
    case _ => false
  }

  /** An operation takes the free mutex. */
  ghost predicate Acquire(s: State, t: State) {
    || (exists path :: t == s.(pc := Stop(LoadGoal(path))))
    || (s.decision.Some? && t == s.(pc := AwaitText(RouteGoal(s.decision.value))))
    || (s.decision.Some? && t == s.(pc := Stop(PromptGoal)))
    || (s.decision.None? && t == s.(pc := Generate))
  }

  /** One step of the mutex holder that succeeds. */
  ghost predicate Advance(s: State, t: State) {
    match s.pc
    case Free => Acquire(s, t)
    case Stop(g) => t == s.(handle := false, modelPath := None, pc := StopWait(g))
    case StopWait(g) =>
      if g.PromptGoal? && s.text.ModelReady? then t == s.(pc := Generate) else t == s.(pc := AwaitText(g))
    case AwaitText(g) => Settled(s.text) && t == s.(pc := CleanText(g, s.text))
    case CleanText(g, seen) =>
      if seen.Initialized? then t == s.(pc := Unloaded(g))
      else (s.text.ModelReady? || s.text.Error?) && t == s.(text := Initialized, pc := Unloaded(g))
    case Unloaded(g) =>
      (match g
       case LoadGoal(path) => t == s.(decision := None, pc := ReadArchitecture(path))
       case RouteGoal(_) => t == s.(pc := StartCheck(g))
       case PromptGoal => t == s.(pc := LoadText(g)))
    case ReadArchitecture(path) =>
      || t == s.(decision := Some(path), pc := StartCheck(LoadGoal(path)))
      || t == s.(decision := None, pc := LoadText(LoadGoal(path)))
    case StartCheck(g) =>
      || (!g.PromptGoal? && s.handle && s.modelPath == Some(g.path) && t == s.(pc := Started(g)))
      || t == s.(pc := StartStop(g))
    case StartStop(g) => t == s.(handle := false, modelPath := None, pc := StartStopWait(g))
    case StartStopWait(g) => t == s.(pc := Spawn(g))
    case Spawn(g) => t == s.(handle := true, pc := Poll(g))
    case Poll(g) =>
      || (s.handle && t == s)
      || (!g.PromptGoal? && t == s.(modelPath := Some(g.path), pc := Started(g)))
      || t == s.(pc := StartFail(g))
    case StartFail(g) => Thrown(s.(handle := false, modelPath := None), t)
    case Started(g) => t == s.(pc := Free) || (g.RouteGoal? && t == s.(pc := Select))
    case Select => t == s.(pc := Free)
    case LoadText(g) => s.text.Initialized? && t == s.(text := LoadingModel, pc := AwaitLoad(g))
    case AwaitLoad(g) =>
      !s.text.LoadingModel? && t == s.(pc := if g.PromptGoal? then SystemPrompt else Free)
    case SystemPrompt => s.text.ModelReady? && t == s.(text := ProcessingSystemPrompt, pc := AwaitSystemPrompt)
    case AwaitSystemPrompt => !s.text.ProcessingSystemPrompt? && t == s.(pc := Generate)
    case Generate => s.text.ModelReady? && t == s.(text := Generating, pc := AwaitGeneration)
    case AwaitGeneration => !s.text.Generating? && t == s.(pc := Free)
  }

  /** The holder fails or is cancelled where it stands. Whatever the text engine was doing for it goes on; a
      failure while polling runs the catch block of `start`, whose first effect is to drop the process; the others
      just unwind. */
  ghost predicate Fail(s: State, t: State) {
    && !s.pc.Free?
    && if s.pc.Poll? then t == s.(pc := StartFail(s.pc.goal))
       else if s.pc.StartFail? then Thrown(s.(handle := false, modelPath := None), t)
       else Thrown(s, t)
  }

  /** `cleanUp` and `close`, statement by statement, by any number of callers that hold no mutex. */
  ghost predicate Unguarded(s: State, t: State) {
    || t == s.(handle := false)
    || t == s.(modelPath := None)
    || t == s.(decision := None)
    || ((s.text.ModelReady? || s.text.Error?) && t == s.(text := Initialized))
  }

  /** The text engine moves on by itself or for an unguarded caller of `setSystemPrompt` or `bench`. */
  ghost predicate TextMoves(s: State, t: State) {
    || (s.text.Uninitialized? && (t == s.(text := Initialized) || t == s.(text := Error)))
    || ((s.text.LoadingModel? || s.text.ProcessingSystemPrompt? || s.text.Benchmarking? || s.text.Generating?)
        && (t == s.(text := ModelReady) || t == s.(text := Error)))
    || (s.text.ModelReady? && (t == s.(text := ProcessingSystemPrompt) || t == s.(text := Benchmarking)))
  }

  ghost predicate Next(s: State, t: State) {
    Advance(s, t) || Fail(s, t) || Unguarded(s, t) || TextMoves(s, t)
  }

  ghost predicate IsRun(run: seq<State>) {
    && run != [] && Init(run[0])
    && (forall i :: 0 <= i < |run| - 1 ==> Next(run[i], run[i + 1]))
  }

  // ---------- The invariant ----------

  /** From here on the holder relies on the text engine holding nothing. */
  predicate NeedsNoText(pc: Pc) {
    match pc
    case CleanText(_, seen) => seen.Initialized?
    case Unloaded(_) => true
    case ReadArchitecture(_) => true
    case StartCheck(_) => true
    case StartStop(_) => true
    case StartStopWait(_) => true
    case Spawn(_) => true
    case Poll(_) => true
    case StartFail(_) => true
    case Started(_) => true
    case Select => true
    case _ => false
  }

  /** From here on the holder relies on there being no decision process. */
  predicate NeedsNoProcess(pc: Pc) {
    match pc
    case StopWait(g) => true
    case AwaitText(g) => !g.RouteGoal?
    case CleanText(g, _) => !g.RouteGoal?
    case Unloaded(g) => !g.RouteGoal?
    case ReadArchitecture(_) => true
    case LoadText(_) => true
    case AwaitLoad(_) => true
    case _ => false
  }

  predicate StartsServer(pc: Pc) {
    pc.StartCheck? || pc.StartStop? || pc.StartStopWait? || pc.Spawn? || pc.Poll? || pc.StartFail? || pc.Started?
  }

  ghost predicate Inv(s: State) {
    && (s.handle ==> !Holds(s.text))
    && (NeedsNoText(s.pc) ==> !Holds(s.text))
    && (NeedsNoProcess(s.pc) ==> !s.handle)
    && (StartsServer(s.pc) ==> !s.pc.goal.PromptGoal?)
  }

  lemma NextKeepsInv(s: State, t: State)
    requires Inv(s) && Next(s, t)
    ensures Inv(t)
  {
  }

  lemma {:induction false} RunKeepsInv(run: seq<State>)
    requires IsRun(run)
    ensures forall i :: 0 <= i < |run| ==> Inv(run[i])
  {
    var u := run[..|run| - 1];
    if u != [] {
      assert forall i :: 0 <= i < |u| ==> u[i] == run[i];
      RunKeepsInv(u);
      NextKeepsInv(run[|run| - 2], run[|run| - 1]);
    }
  }

  // ---------- Theorems ----------

  /** Never two loaded models: in every state of every interleaving, a tracked decision process excludes a
      text model that is loading, ready, working or generating. */
  lemma NeverTwoModels(run: seq<State>, i: nat)
    requires IsRun(run) && i < |run|
    ensures !(run[i].handle && Holds(run[i].text))
  {
    RunKeepsInv(run);
  }

  /** The same at the moments of loading: a text load begins, and a server is spawned, only when the other
      model is already gone. */
  lemma LoadsHappenAlone(run: seq<State>, i: nat)
    requires IsRun(run) && i + 1 < |run|
    ensures run[i + 1].handle && !run[i].handle ==> !Holds(run[i].text) && !Holds(run[i + 1].text)
    ensures Holds(run[i + 1].text) && !Holds(run[i].text) ==> !run[i].handle && !run[i + 1].handle
  {
    RunKeepsInv(run);
    var s, t := run[i], run[i + 1];
    assert Inv(s) && Inv(t) && Next(s, t);
  }

  /** The router is only ever asked while no text model is loaded, and a text answer is only ever generated
      while no decision process is tracked. */
  lemma EachModelWorksAlone(run: seq<State>, i: nat)
    requires IsRun(run) && i < |run|
    ensures run[i].pc.Select? ==> !Holds(run[i].text)
    ensures run[i].text.Generating? ==> !run[i].handle
  {
    RunKeepsInv(run);
  }

  // ---------- The system prompt ----------

  /** The text model is being loaded, or was, for a prompt, and has not been given the system prompt since. */
  predicate Unprompted(run: seq<State>, i: nat)
    requires i < |run|
  {
    i > 0 && !run[i].pc.Free? &&
    (|| (run[i - 1].pc == LoadText(PromptGoal) && run[i].pc == AwaitLoad(PromptGoal))
     || (Unprompted(run, i - 1) && !(run[i - 1].pc.SystemPrompt? && run[i].pc.AwaitSystemPrompt?)))
  }

  /** A text model that was loaded to answer a prompt generates nothing before it has been given the system prompt:
      until then its holder waits for the load or is about to give it. */
  lemma {:induction false} SystemPromptComesFirst(run: seq<State>, i: nat)
    requires IsRun(run) && i < |run| && Unprompted(run, i)
    ensures run[i].pc == AwaitLoad(PromptGoal) || run[i].pc == SystemPrompt
  {
    hide Holds;
    assert Next(run[i - 1], run[i]);
    if Unprompted(run, i - 1) {
      SystemPromptComesFirst(run, i - 1);
    }
  }

  // ---------- The public flag ----------

  /** A decision process is tracked while `isDecisionModel` says there is none. */
  predicate Missed(s: State) {
    s.handle && s.decision.None?
  }

  /** Between dropping the old process and spawning the next one the holder has none. */
  predicate BetweenProcesses(pc: Pc) {
    match pc
    case ReadArchitecture(_) => true
    case StartCheck(g) => g.LoadGoal?
    case StartStop(g) => g.LoadGoal?
    case StartStopWait(_) => true
    case Spawn(_) => true
    case _ => false
  }

  ghost predicate FlagInv(s: State) {
    Inv(s) && (BetweenProcesses(s.pc) ==> !s.handle)
  }

  /** The server is spawned although the decision path has been forgotten meanwhile. */
  predicate SpawnsUnflagged(s: State, t: State) {
    s.pc.Spawn? && s.decision.None? && t == s.(handle := true, pc := Poll(s.pc.goal))
  }

  /** A `loadModel` ends by an exception after its server came up. */
  predicate LoadThrows(s: State, t: State) {
    && s.handle && s.pc.Started? && s.pc.goal.LoadGoal?
    && t == s.(decision := None, pc := Free)
  }

  /** An unguarded `cleanUp` forgets the decision path while a process is tracked. */
  predicate ForgetsPath(s: State, t: State) {
    s.handle && t == s.(decision := None)
  }

  predicate LosesTrack(s: State, t: State) {
    SpawnsUnflagged(s, t) || LoadThrows(s, t) || ForgetsPath(s, t)
  }

  lemma NextKeepsFlagInv(s: State, t: State)
    requires FlagInv(s) && Next(s, t)
    ensures FlagInv(t)
  {
    hide Inv, Holds;
    NextKeepsInv(s, t);
    if NeedsNoProcess(s.pc) {
      NoProcessYet(s);
    }
  }

  lemma NoProcessYet(s: State)
    requires Inv(s) && NeedsNoProcess(s.pc)
    ensures !s.handle
  {
  }

  /** The flag starts to miss the process at exactly three kinds of steps. */
  lemma MissingStartsExactly(s: State, t: State)
    requires FlagInv(s) && Next(s, t) && !Missed(s)
    ensures Missed(t) <==> LosesTrack(s, t)
  {
    hide Holds;
  }

  /** A run in which the flag misses the process somewhere is a run with such a step, and conversely. */
  lemma FlagMissesExactly(run: seq<State>)
    requires IsRun(run)
    ensures (exists i :: 0 <= i < |run| && Missed(run[i])) <==>
            exists j :: 0 <= j < |run| - 1 && LosesTrack(run[j], run[j + 1])
  {
    hide Next, FlagInv;
    if j :| 0 <= j < |run| - 1 && LosesTrack(run[j], run[j + 1]) {
      assert Missed(run[j + 1]);
    } else {
      NeverMissed(run);
    }
  }

  lemma {:induction false} NeverMissed(run: seq<State>)
    requires IsRun(run)
    requires forall j :: 0 <= j < |run| - 1 ==> !LosesTrack(run[j], run[j + 1])
    ensures FlagInv(run[|run| - 1])
    ensures forall i :: 0 <= i < |run| ==> !Missed(run[i])
  {
    hide Next, LosesTrack, Inv;
    var u := run[..|run| - 1];
    if u == [] {
      StartsClean(run[0]);
    } else {
      assert forall i :: 0 <= i < |u| ==> u[i] == run[i];
      NeverMissed(u);
      NextKeepsFlagInv(run[|run| - 2], run[|run| - 1]);
      MissingStartsExactly(run[|run| - 2], run[|run| - 1]);
    }
  }

  lemma StartsClean(s: State)
    requires Init(s)
    ensures FlagInv(s) && !Missed(s)
  {
  }

  lemma Follow(run: seq<State>, t: State) returns (longer: seq<State>)
    requires IsRun(run) && Next(run[|run| - 1], t)
    ensures IsRun(longer) && longer != [] && longer[|longer| - 1] == t
  {
    longer := run + [t];
    forall i | 0 <= i < |longer| - 1 ensures Next(longer[i], longer[i + 1]) {
      assert longer[i] == run[i];
    }
  }

  lemma StartsRun(s: State) returns (run: seq<State>)
    requires Init(s)
    ensures IsRun(run) && run != [] && run[|run| - 1] == s
  {
    run := [s];
  }

  /** A `loadModel` has unloaded whatever there was. */
  lemma LoadUnloads(p: string) returns (run: seq<State>)
    ensures IsRun(run) && run != [] && run[|run| - 1] == State(false, None, None, Initialized, Unloaded(LoadGoal(p)))
  {
    hide IsRun;
    var g := LoadGoal(p);
    var s := State(false, None, None, Initialized, Free);
    run := StartsRun(s);
    assert Acquire(s, s.(pc := Stop(g)));
    run := Follow(run, s.(pc := Stop(g)));
    run := Follow(run, s.(pc := StopWait(g)));
    run := Follow(run, s.(pc := AwaitText(g)));
    run := Follow(run, s.(pc := CleanText(g, Initialized)));
    run := Follow(run, s.(pc := Unloaded(g)));
  }

  /** A `loadModel` reaches the spawn of its server. */
  lemma LoadReachesSpawn(p: string) returns (run: seq<State>)
    ensures IsRun(run) && run != [] && run[|run| - 1] == State(false, None, Some(p), Initialized, Spawn(LoadGoal(p)))
  {
    hide IsRun, Fail, Unguarded, TextMoves;
    var g := LoadGoal(p);
    run := LoadUnloads(p);
    var s := run[|run| - 1];
    run := Follow(run, s.(pc := ReadArchitecture(p)));
    var d := s.(decision := Some(p));
    run := Follow(run, d.(pc := StartCheck(g)));
    run := Follow(run, d.(pc := StartStop(g)));
    run := Follow(run, d.(pc := StartStopWait(g)));
    run := Follow(run, d.(pc := Spawn(g)));
  }

  lemma ServerComesUp(run: seq<State>, g: Goal) returns (longer: seq<State>)
    requires IsRun(run) && run[|run| - 1].pc == Spawn(g) && !g.PromptGoal?
    ensures IsRun(longer) && longer != []
    ensures longer[|longer| - 1] == run[|run| - 1].(handle := true, modelPath := Some(g.path), pc := Started(g))
  {
    hide IsRun, Fail, Unguarded, TextMoves;
    assert run != [] by { RunNotEmpty(run); }
    var s := run[|run| - 1];
    longer := Follow(run, s.(handle := true, pc := Poll(g)));
    longer := Follow(longer, s.(handle := true, modelPath := Some(g.path), pc := Started(g)));
  }

  lemma RunNotEmpty(run: seq<State>)
    requires IsRun(run)
    ensures run != []
  {
  }

  /** The protocol works: a loaded decision model can be asked to route... */
  lemma RoutingIsReachable() returns (run: seq<State>)
    ensures IsRun(run) && run != [] && run[|run| - 1].pc == Select && run[|run| - 1].handle
    ensures run[|run| - 1].modelPath == run[|run| - 1].decision == Some("m")
  {
    hide IsRun, Fail, Unguarded, TextMoves;
    run := LoadReachesSpawn("m");
    run := ServerComesUp(run, LoadGoal("m"));
    var s, g := run[|run| - 1].(pc := Free), RouteGoal("m");
    run := Follow(run, s);
    assert Acquire(s, s.(pc := AwaitText(g)));
    run := Follow(run, s.(pc := AwaitText(g)));
    run := Follow(run, s.(pc := CleanText(g, Initialized)));
    run := Follow(run, s.(pc := Unloaded(g)));
    run := Follow(run, s.(pc := StartCheck(g)));
    run := Follow(run, s.(pc := Started(g)));
    run := Follow(run, s.(pc := Select));
  }

  lemma DecisionModelLoads() returns (run: seq<State>)
    ensures IsRun(run) && run != []
    ensures run[|run| - 1] == State(true, Some("m"), Some("m"), Initialized, Free)
  {
    hide IsRun, Fail, Unguarded, TextMoves;
    run := LoadReachesSpawn("m");
    run := ServerComesUp(run, LoadGoal("m"));
    run := Follow(run, run[|run| - 1].(pc := Free));
  }

  /** ...and a prompt can then be answered by the text model, with the decision process stopped. */
  lemma AnsweringIsReachable() returns (run: seq<State>)
    ensures IsRun(run) && run != []
    ensures run[|run| - 1] == State(false, None, Some("m"), Generating, AwaitGeneration)
  {
    hide IsRun, Fail, Unguarded;
    run := DecisionModelLoads();
    var s, g := run[|run| - 1], PromptGoal;
    assert Acquire(s, s.(pc := Stop(g)));
    run := Follow(run, s.(pc := Stop(g)));
    var d := s.(handle := false, modelPath := None);
    run := Follow(run, d.(pc := StopWait(g)));
    run := Follow(run, d.(pc := AwaitText(g)));
    run := Follow(run, d.(pc := CleanText(g, Initialized)));
    run := Follow(run, d.(pc := Unloaded(g)));
    run := Follow(run, d.(pc := LoadText(g)));
    run := PromptIsAnswered(run);
  }

  lemma PromptIsAnswered(run: seq<State>) returns (longer: seq<State>)
    requires IsRun(run) && run[|run| - 1] == State(false, None, Some("m"), Initialized, LoadText(PromptGoal))
    ensures IsRun(longer) && longer != []
    ensures longer[|longer| - 1] == State(false, None, Some("m"), Generating, AwaitGeneration)
  {
    hide IsRun, Next;
    longer := TextLoads(run);
    longer := PromptIsGiven(longer);
  }

  lemma TextLoads(run: seq<State>) returns (longer: seq<State>)
    requires IsRun(run) && run[|run| - 1] == State(false, None, Some("m"), Initialized, LoadText(PromptGoal))
    ensures IsRun(longer) && longer != []
    ensures longer[|longer| - 1] == State(false, None, Some("m"), ModelReady, SystemPrompt)
  {
    hide IsRun, Fail, Unguarded;
    assert run != [] by { RunNotEmpty(run); }
    var d, g := run[|run| - 1], PromptGoal;
    longer := Follow(run, d.(text := LoadingModel, pc := AwaitLoad(g)));
    longer := Follow(longer, d.(text := ModelReady, pc := AwaitLoad(g)));
    longer := Follow(longer, d.(text := ModelReady, pc := SystemPrompt));
  }

  lemma PromptIsGiven(run: seq<State>) returns (longer: seq<State>)
    requires IsRun(run) && run != []
    requires run[|run| - 1] == State(false, None, Some("m"), ModelReady, SystemPrompt)
    ensures IsRun(longer) && longer != []
    ensures longer[|longer| - 1] == State(false, None, Some("m"), Generating, AwaitGeneration)
  {
    hide IsRun, Fail, Unguarded;
    var d := run[|run| - 1];
    longer := Follow(run, d.(text := ProcessingSystemPrompt, pc := AwaitSystemPrompt));
    longer := Follow(longer, d.(pc := AwaitSystemPrompt));
    longer := Follow(longer, d.(pc := Generate));
    longer := Follow(longer, d.(text := Generating, pc := AwaitGeneration));
  }

  /** Such steps happen. A `loadModel` cancelled after its server came up leaves the flag wrong for good, the
      process tracked and the mutex free. */
  lemma FlagMayMissTheProcess() returns (run: seq<State>)
    ensures IsRun(run) && run != [] && Missed(run[|run| - 1]) && run[|run| - 1].pc.Free?
  {
    hide IsRun, Advance, Unguarded, TextMoves;
    run := LoadReachesSpawn("m");
    run := ServerComesUp(run, LoadGoal("m"));
    var s := run[|run| - 1];
    assert Fail(s, s.(decision := None, pc := Free));
    run := Follow(run, s.(decision := None, pc := Free));
  }

  /** So does a `cleanUp` that overlaps a load, without any failure. */
  lemma CleanUpMayMissTheProcess() returns (run: seq<State>)
    ensures IsRun(run) && run != [] && Missed(run[|run| - 1]) && run[|run| - 1].pc.Free?
  {
    hide IsRun, Fail, TextMoves;
    run := LoadReachesSpawn("m");
    run := ServerComesUp(run, LoadGoal("m"));
    var s := run[|run| - 1];
    assert Unguarded(s, s.(decision := None));
    run := Follow(run, s.(decision := None));
    assert Advance(s.(decision := None), s.(decision := None, pc := Free));
    run := Follow(run, s.(decision := None, pc := Free));
  }
}

/**
 The runtime that owns the decision process, as its two methods assign their fields.
 */
module ReflexRuntimeClass {
  import opened TwoModels
  import opened Options

  /** A poll every 200 ms within a limit of 90 s. */
  const MAX_POLLS := 450

  /** One poll; `timedOut` says that the limit has passed when it is over, which voids a healthy answer too. */
  datatype Poll = Poll(alive: bool, healthy: bool, timedOut: bool)

  /** How the outside answers one call of `start` or `stop`. */
  datatype Outside = Outside(alreadyAlive: bool, dies: bool, diesForcibly: bool, installed: bool, portFree: bool,
                             spawns: bool, polls: nat -> Poll)

  predicate Dies(o: Outside) {
    o.dies || o.diesForcibly
  }

  /** Some poll from the k-th on finds the server healthy, before one finds it dead and before time runs out. */
  predicate ComesUp(o: Outside, k: nat)
    decreases MAX_POLLS - k
  {
    k < MAX_POLLS && o.polls(k).alive && !o.polls(k).timedOut && (o.polls(k).healthy || ComesUp(o, k + 1))
  }

  /** Coming up means exactly that: a healthy poll in time, with the process alive all along. */
  lemma {:induction false} ComesUpExactly(o: Outside, k: nat)
    ensures ComesUp(o, k) <==>
              exists n :: k <= n < MAX_POLLS && o.polls(n).healthy &&
                          forall j :: k <= j <= n ==> o.polls(j).alive && !o.polls(j).timedOut
    decreases MAX_POLLS - k
  {
    if k < MAX_POLLS {
      ComesUpExactly(o, k + 1);
    }
  }

  class ReflexRuntime {
    var process: Option<nat>
    var modelPath: Option<string>

    constructor ()
      ensures process.None? && modelPath.None?
    {
      process, modelPath := None, None;
    }

    /** The handle is dropped first, so it is gone even when the process outlives both waits and this throws. */
    method Stop(o: Outside) returns (ok: bool)
      modifies this
      ensures process.None? && modelPath.None?
      ensures ok <==> old(process).None? || Dies(o)
    {
      var owned := process;
      process, modelPath := None, None;
      ok := true;
      if owned.Some? {
        if !o.dies {
          ok := o.diesForcibly;
        }
      }
    }

    /** Either the server for `path` is up, or there is no process and no remembered path; and it comes up exactly
        when it already was, or the old process dies and the new one is spawned and becomes healthy in time. */
    method Start(path: string, o: Outside, pid: nat) returns (ok: bool)
      modifies this
      ensures ok <==> (old(modelPath) == Some(path) && old(process).Some? && o.alreadyAlive) ||
                      ((old(process).None? || Dies(o)) && o.installed && o.portFree && o.spawns && ComesUp(o, 0))
      ensures ok ==> process.Some? && modelPath == Some(path)
      ensures !ok ==> process.None? && modelPath.None?
    {
      if modelPath == Some(path) && process.Some? && o.alreadyAlive {
        return true;
      }
      var stopped := Stop(o);
      if !stopped || !o.installed || !o.portFree || !o.spawns {
        return false;
      }
      process := Some(pid);
      var k := 0;
      while k < MAX_POLLS
        invariant process.Some? && modelPath.None?
        invariant ComesUp(o, 0) == ComesUp(o, k)
        decreases MAX_POLLS - k
      {
        var poll := o.polls(k);
        if !poll.alive {
          break;
        }
        if poll.timedOut {
          break;
        }
        if poll.healthy {
          modelPath := Some(path);
          return true;
        }
        k := k + 1;
      }
      var _ := Stop(o);
      return false;
    }
  }
}
