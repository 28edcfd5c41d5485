/**
 What a language model may ask of the agent: the vocabulary of tools and actions, and the parsers that turn
 the model's text into a decision or reject it.
 */
module AgentProtocol {
  import opened Options

  // ---------- Vocabulary ----------

  const DEVICE := "get_device_info"
  const BATTERY := "get_battery_info"
  const STORAGE := "get_storage_info"
  const MEDIA := "get_media_info"
  const MEMORY := "get_memory_info"
  const LOCAL_FILES := "search_local_files"
  const SEARCH_NOTES := "search_notes"
  const SAVE_NOTE := "save_note"

  const READ_ONLY_TOOLS: set<string> := {DEVICE, BATTERY, STORAGE, LOCAL_FILES, SEARCH_NOTES, SAVE_NOTE, MEDIA}

  const PHONE_HEALTH_CHECK := "phone_health_check"
  const PHONE_OPTIMIZATION_REPORT := "phone_optimization_report"

  const OPEN_STORAGE_SETTINGS := "open_storage_settings"
  const OPEN_BATTERY_SETTINGS := "open_battery_settings"
  const OPEN_CAMERA := "open_camera"
  const OPEN_WALLPAPER_SETTINGS := "open_wallpaper_settings"
  const REVIEW_BACKGROUND_APPS := "review_background_apps"
  const LAUNCH_APP := "launch_app"
  const SET_TIMER := "set_timer"
  const SET_ALARM := "set_alarm"
  const CREATE_CALENDAR_EVENT := "create_calendar_event"
  const SEARCH_SPOTIFY := "search_spotify"
  const SEARCH_YOUTUBE := "search_youtube"
  const DRAFT_TELEGRAM_MESSAGE := "draft_telegram_message"
  const MEDIA_PLAY_PAUSE := "media_play_pause"
  const MEDIA_NEXT := "media_next"
  const MEDIA_PREVIOUS := "media_previous"
  const OPEN_MEDIA_ACCESS := "open_media_access"

  const APPROVED_DEVICE_ACTIONS: set<string> := {
    OPEN_STORAGE_SETTINGS, OPEN_BATTERY_SETTINGS, SET_TIMER, SET_ALARM, CREATE_CALENDAR_EVENT, OPEN_CAMERA,
    OPEN_WALLPAPER_SETTINGS, REVIEW_BACKGROUND_APPS, LAUNCH_APP, SEARCH_SPOTIFY, SEARCH_YOUTUBE,
    DRAFT_TELEGRAM_MESSAGE, MEDIA_PLAY_PAUSE, MEDIA_NEXT, MEDIA_PREVIOUS, OPEN_MEDIA_ACCESS
  }

  const CLARIFICATION_MESSAGE := "I could not understand what you meant. Please rephrase your request."

  datatype Decision = Decision(action: string, text: Option<string>, toolName: Option<string>,
                               workflowName: Option<string>, proposedAction: Option<string>, schemaRepaired: bool)

  function Answer(text: string, repaired: bool): Decision {
    Decision("answer", Some(text), None, None, None, repaired)
  }

  function UseTool(name: string, repaired: bool): Decision {
    Decision("tool", None, Some(name), None, None, repaired)
  }

  function Workflow(name: string, repaired: bool): Decision {
    Decision("workflow", None, None, Some(name), None, repaired)
  }

  function Propose(action: string, repaired: bool): Decision {
    Decision("propose", None, None, None, Some(action), repaired)
  }

  // ---------- Text ----------

  /** White space as Kotlin's strings see it. */
  predicate IsSpace(c: char) {
    || c == ' ' || '\t' <= c <= '\r' || '\U{001C}' <= c <= '\U{001F}' || c == '\U{00A0}' || c == '\U{1680}'
    || '\U{2000}' <= c <= '\U{200A}' || c == '\U{2028}' || c == '\U{2029}' || c == '\U{202F}' || c == '\U{205F}'
    || c == '\U{3000}'
  }

  function TrimStart(s: string): string {
    if s != "" && IsSpace(s[0]) then TrimStart(s[1..]) else s
  }

  function TrimEnd(s: string): string {
    if s != "" && IsSpace(s[|s| - 1]) then TrimEnd(s[..|s| - 1]) else s
  }

  function Trim(s: string): string {
    TrimEnd(TrimStart(s))
  }

  /** Blank text is text that trims to nothing. */
  predicate Blank(s: string) {
    TrimStart(s) == ""
  }

  predicate StartsWith(s: string, t: string) {
    |t| <= |s| && s[..|t|] == t
  }

  predicate EndsWith(s: string, t: string) {
    |t| <= |s| && s[|s| - |t|..] == t
  }

  predicate Contains(s: string, t: string) {
    StartsWith(s, t) || (s != "" && Contains(s[1..], t))
  }

  // ---------- JSON ----------

  /** A value and, unless it is a string, how it is shown when read as one. */
  datatype Json =
    | Text(s: string)
    | Object(members: map<string, Json>, shown: string)
    | Array(shown: string)
    | Other(shown: string)

  function AsText(v: Json): string {
    if v.Text? then v.s else v.shown
  }

  /** The library's parsers and its letter case: arbitrary functions of the text. */
  datatype Library = Library(
    parseObject: string -> Option<map<string, Json>>,
    parseArray: string -> Option<seq<Json>>,
    sameLetter: (char, char) -> bool)

  // ---------- Decisions ----------

  predicate StartsWithJsonFence(l: Library, s: string) {
    |s| >= 7 && forall i :: 0 <= i < 7 ==> s[i] == "```json"[i] || l.sameLetter(s[i], "```json"[i])
  }

  function UnwrapJsonFence(l: Library, raw: string): (string, bool) {
    var trimmed := Trim(raw);
    if !StartsWithJsonFence(l, trimmed) && !StartsWith(trimmed, "```") then (trimmed, false)
    else
      var opening := if StartsWithJsonFence(l, trimmed) then 7 else 3;
      if !EndsWith(trimmed, "```") || |trimmed| < opening + 3 then (trimmed, false)
      else
        var inner := Trim(trimmed[opening..|trimmed| - 3]);
        if !StartsWith(inner, "{") || !EndsWith(inner, "}") then (trimmed, false) else (inner, true)
  }

  /** The member is an object without members. */
  predicate NoArguments(json: map<string, Json>, key: string) {
    key in json && json[key].Object? && |json[key].members| == 0
  }

  function ParseNamed(json: map<string, Json>, allowed: set<string>): Option<string> {
    if |json| == 3 && "name" in json && AsText(json["name"]) in allowed && NoArguments(json, "args")
    then Some(AsText(json["name"])) else None
  }

  function ParseObjectDecision(json: map<string, Json>, fenced: bool): Option<Decision> {
    var action := if "action" in json then AsText(json["action"]) else "";
    if action == "answer" then
      if |json| == 2 && "text" in json then Some(Answer(AsText(json["text"]), fenced)) else None
    else if action == "tool" then
      var name := ParseNamed(json, READ_ONLY_TOOLS);
      if name.Some? then Some(UseTool(name.value, fenced)) else None
    else if action == "workflow" then
      var name := ParseNamed(json, {PHONE_HEALTH_CHECK, PHONE_OPTIMIZATION_REPORT});
      if name.Some? then Some(Workflow(name.value, fenced)) else None
    else if action == "propose" then
      var name := ParseNamed(json, APPROVED_DEVICE_ACTIONS);
      if name.Some? then Some(Propose(name.value, fenced)) else None
    else if action in READ_ONLY_TOOLS then
      if |json| == 2 && NoArguments(json, "args") then Some(UseTool(action, true)) else None
    else if action == PHONE_HEALTH_CHECK then
      if |json| == 2 && NoArguments(json, "args") then Some(Workflow(PHONE_HEALTH_CHECK, true)) else None
    else None
  }

  predicate ValidCall(call: Json) {
    call.Object? && |call.members| == 2 && "name" in call.members && NoArguments(call.members, "arguments")
  }

  function CallNames(calls: seq<Json>): (names: seq<string>)
    requires forall k :: 0 <= k < |calls| ==> ValidCall(calls[k])
    ensures |names| == |calls|
  {
    seq(|calls|, k requires 0 <= k < |calls| && ValidCall(calls[k]) => AsText(calls[k].members["name"]))
  }

  predicate DistinctNames(names: seq<string>) {
    forall i, j :: 0 <= i < j < |names| ==> names[i] != names[j]
  }

  function DecideNames(names: seq<string>): Option<Decision>
    requires names != []
  {
    if |names| == 1 && names[0] in READ_ONLY_TOOLS then Some(UseTool(names[0], true))
    else if |names| == 1 && names[0] == PHONE_HEALTH_CHECK then Some(Workflow(PHONE_HEALTH_CHECK, true))
    else if |names| == 1 && names[0] == PHONE_OPTIMIZATION_REPORT then Some(Workflow(PHONE_OPTIMIZATION_REPORT, true))
    else if |names| == 1 && names[0] in APPROVED_DEVICE_ACTIONS then Some(Propose(names[0], true))
    else if |names| >= 2 && forall k :: 0 <= k < |names| ==> names[k] in READ_ONLY_TOOLS
    then Some(Workflow(PHONE_HEALTH_CHECK, true))
    else None
  }

  function ParseNativeToolCalls(l: Library, raw: string): Option<Decision> {
    var calls := l.parseArray(raw);
    if calls.None? || calls.value == [] then None
    else if exists k :: 0 <= k < |calls.value| && !ValidCall(calls.value[k]) then None
    else
      var names := CallNames(calls.value);
      if DistinctNames(names) then DecideNames(names) else None
  }

  /** None is a thrown validation error. */
  function ParseAgentDecision(l: Library, raw: string): Option<Decision> {
    var (trimmed, fenced) := UnwrapJsonFence(l, raw);
    if StartsWith(trimmed, "[") then ParseNativeToolCalls(l, trimmed)
    else if !StartsWith(trimmed, "{") || !EndsWith(trimmed, "}") then None
    else
      var json := l.parseObject(trimmed);
      if json.None? then None else ParseObjectDecision(json.value, fenced)
  }

  function ParseScopeDecision(l: Library, raw: string): Option<string> {
    var json := l.parseObject(Trim(raw));
    if json.None? || |json.value| != 1 || "scope" !in json.value then None
    else
      var scope := AsText(json.value["scope"]);
      if scope == "answer" || scope == "live_device" then Some(scope) else None
  }

  function IfBlank(s: string, other: string): string {
    if Blank(s) then other else s
  }

  /** None is a thrown validation error; partialText is the pattern search in truncated JSON. */
  function ParseFinalAnswer(l: Library, partialText: string -> Option<string>, raw: string): Option<string> {
    var trimmed := Trim(raw);
    if Blank(trimmed) then Some(CLARIFICATION_MESSAGE)
    else if StartsWith(trimmed, "{") || StartsWith(trimmed, "```") || StartsWith(trimmed, "[") then
      var decision := ParseAgentDecision(l, trimmed);
      if decision.Some? then
        if decision.value.action != "answer" then None
        else
          var text := if decision.value.text.Some? then decision.value.text.value else "";
          Some(IfBlank(Trim(text), CLARIFICATION_MESSAGE))
      else if l.parseObject(UnwrapJsonFence(l, trimmed).0).Some? then None
      else
        var partial := partialText(trimmed);
        Some(if partial.Some? then IfBlank(partial.value, CLARIFICATION_MESSAGE) else CLARIFICATION_MESSAGE)
    else Some(trimmed)
  }

  function RouteToDecision(choice: string): Option<Decision> {
    if choice == "answer" then Some(Answer("", false))
    else if choice == PHONE_HEALTH_CHECK then Some(Workflow(PHONE_HEALTH_CHECK, false))
    else if choice in {BATTERY, DEVICE, STORAGE, MEDIA, LOCAL_FILES, SEARCH_NOTES, SAVE_NOTE}
    then Some(UseTool(choice, false))
    else None
  }

  // ---------- What parsers let through ----------

  /** The decision names something the agent is allowed to do, and has the field its action needs. */
  predicate Allowed(d: Decision) {
    if d.action == "answer" then d.text.Some?
    else if d.action == "workflow" then d.workflowName in {Some(PHONE_HEALTH_CHECK), Some(PHONE_OPTIMIZATION_REPORT)}
    else if d.action == "propose" then d.proposedAction.Some? && d.proposedAction.value in APPROVED_DEVICE_ACTIONS
    else d.action == "tool" && d.toolName.Some? && d.toolName.value in READ_ONLY_TOOLS
  }

  /** Whatever a model writes, the parsers reject it or return an allowed decision. */
  lemma ParsersAllowOnly(l: Library, raw: string)
    ensures ParseAgentDecision(l, raw).Some? ==> Allowed(ParseAgentDecision(l, raw).value)
    ensures RouteToDecision(raw).Some? ==> Allowed(RouteToDecision(raw).value)
  {
    hide UnwrapJsonFence;
    var (trimmed, fenced) := UnwrapJsonFence(l, raw);
    if l.parseObject(trimmed).Some? {
      ObjectsAllowOnly(l.parseObject(trimmed).value, fenced);
    }
    NativeCallsAllowOnly(l, trimmed);
  }

  lemma ObjectsAllowOnly(json: map<string, Json>, fenced: bool)
    ensures ParseObjectDecision(json, fenced).Some? ==> Allowed(ParseObjectDecision(json, fenced).value)
  {
  }

  lemma NativeCallsAllowOnly(l: Library, raw: string)
    ensures ParseNativeToolCalls(l, raw).Some? ==> Allowed(ParseNativeToolCalls(l, raw).value)
  {
  }

  // ---------- What parsers read ----------

  ghost predicate EmptyArguments(json: map<string, Json>, key: string) {
    key in json && exists shown :: json[key] == Object(map[], shown)
  }

  /** An object with an action, a name and empty arguments, and nothing else. */
  ghost predicate NamedCall(json: map<string, Json>, action: string, name: string) {
    && |json| == 3 && "action" in json && json["action"] == Text(action)
    && "name" in json && json["name"] == Text(name) && EmptyArguments(json, "args")
  }

  /** Every tool, workflow and action of the schema is read as itself. */
  lemma NamedCallsAreRead(json: map<string, Json>, name: string, fenced: bool)
    ensures NamedCall(json, "tool", name) ==>
              ParseObjectDecision(json, fenced) ==
                if name in {"get_device_info", "get_battery_info", "get_storage_info", "search_local_files",
                            "search_notes", "save_note", "get_media_info"}
                then Some(Decision("tool", None, Some(name), None, None, fenced)) else None
    ensures NamedCall(json, "workflow", name) ==>
              ParseObjectDecision(json, fenced) ==
                if name in {"phone_health_check", "phone_optimization_report"}
                then Some(Decision("workflow", None, None, Some(name), None, fenced)) else None
    ensures NamedCall(json, "propose", name) ==>
              ParseObjectDecision(json, fenced) ==
                if name in APPROVED_DEVICE_ACTIONS
                then Some(Decision("propose", None, None, None, Some(name), fenced)) else None
  {
    hide Allowed;
    if EmptyArguments(json, "args") {
      assert NoArguments(json, "args");
    }
  }

  /** An answer is read with its text, whatever that is. */
  lemma AnswersAreRead(json: map<string, Json>, text: string, fenced: bool)
    requires |json| == 2 && "action" in json && json["action"] == Text("answer")
    requires "text" in json && json["text"] == Text(text)
    ensures ParseObjectDecision(json, fenced) == Some(Decision("answer", Some(text), None, None, None, fenced))
  {
  }

  /** A tool's or the health check's own name may stand for the action; it is noted as a repair. */
  lemma ShorthandIsRead(json: map<string, Json>, name: string, fenced: bool)
    requires |json| == 2 && "action" in json && json["action"] == Text(name) && EmptyArguments(json, "args")
    ensures name in READ_ONLY_TOOLS ==>
              ParseObjectDecision(json, fenced) == Some(Decision("tool", None, Some(name), None, None, true))
    ensures name == "phone_health_check" ==>
              ParseObjectDecision(json, fenced) == Some(Decision("workflow", None, None, Some(name), None, true))
    ensures name != "phone_health_check" && name !in READ_ONLY_TOOLS && name != "answer" ==>
              ParseObjectDecision(json, fenced) == None
  {
    assert NoArguments(json, "args");
  }

  /** Nothing but an answer is accepted with arguments that are missing, not an object, or not empty. */
  lemma ArgumentsAreRefused(json: map<string, Json>, fenced: bool)
    requires "args" !in json || !json["args"].Object? || json["args"].members != map[]
    ensures ParseObjectDecision(json, fenced).Some? ==> ParseObjectDecision(json, fenced).value.action == "answer"
  {
    if "args" in json && json["args"].Object? {
      NotEmpty(json["args"].members);
    }
    assert !NoArguments(json, "args");
  }

  lemma NotEmpty(members: map<string, Json>)
    ensures |members| == 0 <==> members == map[]
  {
    if members != map[] {
      assert exists k :: k in members;
    }
  }

  /** One native call of the given name and without arguments. */
  ghost predicate CallsOf(call: Json, name: string) {
    && call.Object? && |call.members| == 2
    && "name" in call.members && call.members["name"] == Text(name) && EmptyArguments(call.members, "arguments")
  }

  lemma CallsAreValid(call: Json, name: string)
    requires CallsOf(call, name)
    ensures ValidCall(call) && AsText(call.members["name"]) == name
  {
  }

  /** A single native call is read as the tool, workflow or action it names. */
  lemma NativeCallIsRead(l: Library, raw: string, call: Json, name: string)
    requires l.parseArray(raw) == Some([call]) && CallsOf(call, name)
    ensures ParseNativeToolCalls(l, raw) ==
              if name in READ_ONLY_TOOLS then Some(Decision("tool", None, Some(name), None, None, true))
              else if name in {"phone_health_check", "phone_optimization_report"}
              then Some(Decision("workflow", None, None, Some(name), None, true))
              else if name in APPROVED_DEVICE_ACTIONS then Some(Decision("propose", None, None, None, Some(name), true))
              else None
  {
    hide READ_ONLY_TOOLS, APPROVED_DEVICE_ACTIONS;
    CallsAreValid(call, name);
    assert CallNames([call]) == [name];
  }

  /** Several native calls are read as the health check if and only if they name different read-only tools, and
      are refused otherwise. */
  lemma NativeCallsAreRead(l: Library, raw: string, calls: seq<Json>, names: seq<string>)
    requires l.parseArray(raw) == Some(calls) && |calls| == |names| >= 2
    requires forall k :: 0 <= k < |calls| ==> CallsOf(calls[k], names[k])
    ensures ParseNativeToolCalls(l, raw) ==
              if DistinctNames(names) && forall k :: 0 <= k < |names| ==> names[k] in READ_ONLY_TOOLS
              then Some(Decision("workflow", None, None, Some("phone_health_check"), None, true)) else None
  {
    hide READ_ONLY_TOOLS, APPROVED_DEVICE_ACTIONS, CallsOf;
    forall k | 0 <= k < |calls| ensures ValidCall(calls[k]) && AsText(calls[k].members["name"]) == names[k] {
      CallsAreValid(calls[k], names[k]);
    }
    assert CallNames(calls) == names;
  }

  /** The decision server's nine routes. */
  lemma RoutesAreRead(choice: string)
    ensures RouteToDecision(choice) ==
              if choice == "answer" then Some(Decision("answer", Some(""), None, None, None, false))
              else if choice == "phone_health_check"
              then Some(Decision("workflow", None, None, Some(choice), None, false))
              else if choice in READ_ONLY_TOOLS then Some(Decision("tool", None, Some(choice), None, None, false))
              else None
  {
  }

  /** A scope reply is an object with one of two scopes and nothing else. */
  lemma ScopesAreRead(l: Library, raw: string, json: map<string, Json>, scope: string)
    requires l.parseObject(Trim(raw)) == Some(json) && |json| == 1 && "scope" in json && json["scope"] == Text(scope)
    ensures ParseScopeDecision(l, raw) == if scope in {"answer", "live_device"} then Some(scope) else None
  {
    hide Trim;
  }

  /** How a final answer is read: prose as it is, trimmed; nothing as a request to rephrase; JSON by the text of its
      answer, with any other action an error; JSON cut short by the text it got to. */
  lemma FinalAnswersAreRead(l: Library, partialText: string -> Option<string>, raw: string)
    ensures var text := Trim(raw);
            var json := StartsWith(text, "{") || StartsWith(text, "```") || StartsWith(text, "[");
            var answer, d := ParseFinalAnswer(l, partialText, raw), ParseAgentDecision(l, text);
            if Blank(text) then answer == Some("I could not understand what you meant. Please rephrase your request.")
            else if !json then answer == Some(text)
            else if d.Some? then
              && (d.value.action != "answer" ==> answer == None)
              && (d.value.action == "answer" && d.value.text.Some? ==>
                    Blank(Trim(d.value.text.value)) || answer == Some(Trim(d.value.text.value)))
            else
              && (l.parseObject(UnwrapJsonFence(l, text).0).Some? <==> answer == None)
              && (answer.Some? && partialText(text).Some? ==>
                    Blank(partialText(text).value) || answer == partialText(text))
  {
    hide Trim, Blank, ParseAgentDecision, UnwrapJsonFence;
  }

  // ---------- White space and fences ----------

  predicate AllSpaces(s: string) {
    forall i :: 0 <= i < |s| ==> IsSpace(s[i])
  }

  /** Text that neither starts nor ends with white space. */
  predicate Tight(s: string) {
    s != "" && !IsSpace(s[0]) && !IsSpace(s[|s| - 1])
  }

  lemma {:induction false} TrimStartSpaces(a: string, s: string)
    requires AllSpaces(a) && s != "" && !IsSpace(s[0])
    ensures TrimStart(a + s) == s
  {
    hide IsSpace;
    if a == "" {
      assert a + s == s;
    } else {
      assert (a + s)[1..] == a[1..] + s;
      TrimStartSpaces(a[1..], s);
    }
  }

  lemma {:induction false} TrimEndSpaces(s: string, b: string)
    requires AllSpaces(b) && s != "" && !IsSpace(s[|s| - 1])
    ensures TrimEnd(s + b) == s
  {
    hide IsSpace;
    if b == "" {
      assert s + b == s;
    } else {
      assert (s + b)[..|s + b| - 1] == s + b[..|b| - 1];
      TrimEndSpaces(s, b[..|b| - 1]);
    }
  }

  lemma TrimSpaces(a: string, s: string, b: string)
    requires AllSpaces(a) && AllSpaces(b) && Tight(s)
    ensures Trim(a + s + b) == s
  {
    assert a + s + b == a + (s + b);
    TrimStartSpaces(a, s + b);
    TrimEndSpaces(s, b);
  }

  lemma TrimmedAlready(s: string)
    requires Tight(s)
    ensures Trim(s) == s && !Blank(s)
  {
    TrimSpaces("", s, "");
    assert "" + s + "" == s;
  }

  /** An object in the sense of the parsers' first look: braces at both ends. */
  predicate Braced(s: string) {
    |s| >= 2 && s[0] == '{' && s[|s| - 1] == '}'
  }

  function Fence(a: string, s: string, b: string): string {
    "```json" + (a + s + b) + "```"
  }

  /** A fence around a bare object, with white space and line breaks anywhere outside the object, changes nothing
      but the note that it was removed. */
  lemma FenceIsTransparent(l: Library, s: string, a: string, b: string, before: string, after: string)
    requires Braced(s) && AllSpaces(a) && AllSpaces(b) && AllSpaces(before) && AllSpaces(after)
    ensures var bare, fenced := ParseAgentDecision(l, s), ParseAgentDecision(l, before + Fence(a, s, b) + after);
            && (bare.Some? <==> fenced.Some?)
            && (bare.Some? ==> bare.value.(schemaRepaired := true) == fenced.value.(schemaRepaired := true))
  {
    hide UnwrapJsonFence, IsSpace, AllSpaces;
    Unfenced(l, s, a, b, before, after);
    BareIsBare(l, s);
    assert s[..1] == "{" && s[|s| - 1..] == "}";
  }

  lemma Unfenced(l: Library, s: string, a: string, b: string, before: string, after: string)
    requires Braced(s) && AllSpaces(a) && AllSpaces(b) && AllSpaces(before) && AllSpaces(after)
    ensures UnwrapJsonFence(l, before + Fence(a, s, b) + after) == (s, true)
  {
    hide Trim, AllSpaces, Blank;
    var fenced, inner := Fence(a, s, b), a + s + b;
    assert Tight(fenced) && Tight(s);
    TrimSpaces(before, fenced, after);
    TrimSpaces(a, s, b);
    assert |fenced| == |inner| + 10;
    assert fenced[..7] == "```json" && fenced[7..|fenced| - 3] == inner && fenced[|fenced| - 3..] == "```";
    assert s[..1] == "{" && s[|s| - 1..] == "}";
  }

  /** A fence without a language is taken off as well. */
  lemma PlainFenceIsTakenOff(l: Library, s: string, a: string, b: string)
    requires Braced(s) && AllSpaces(a) && AllSpaces(b)
    requires !StartsWithJsonFence(l, "```" + (a + s + b) + "```")
    ensures UnwrapJsonFence(l, "```" + (a + s + b) + "```") == (s, true)
  {
    hide Trim, AllSpaces, Blank, StartsWithJsonFence;
    var inner := a + s + b;
    var fenced := "```" + inner + "```";
    assert Tight(fenced) && Tight(s);
    TrimmedAlready(fenced);
    TrimSpaces(a, s, b);
    assert |fenced| == |inner| + 6;
    assert fenced[..3] == "```" && fenced[3..|fenced| - 3] == inner && fenced[|fenced| - 3..] == "```";
    assert s[..1] == "{" && s[|s| - 1..] == "}";
  }

  /** A fence that is not closed is left as it is. */
  lemma OpenFenceIsKept(l: Library, raw: string)
    requires !EndsWith(Trim(raw), "```")
    ensures UnwrapJsonFence(l, raw) == (Trim(raw), false)
  {
    hide Trim;
  }

  lemma BareIsBare(l: Library, s: string)
    requires Braced(s)
    ensures UnwrapJsonFence(l, s).0 == s
  {
    hide Trim;
    assert Tight(s);
    TrimmedAlready(s);
  }
}
