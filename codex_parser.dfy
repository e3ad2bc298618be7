/**
 * The Codex stream parser (`CodexAdapter::parse_semantic_events` in adapters/codex.rs): each
 * JSON line of `codex exec --json` output updates the run's parser state (session id, model,
 * the types of the items seen) and yields semantic events. The JSON parser is a parameter, and
 * so is the id that stands for the `uuid` an MCP tool call without an id is given.
 */
module CodexParser {
  import opened Wrappers
  import opened Text
  import Json
  import opened Adapters

  /** `CodexParserState`: what the parser remembers about one run. */
  datatype ParserState = ParserState(sessionId: Option<string>, model: Option<string>, items: map<string, string>)

  const InitialState: ParserState := ParserState(None, None, map[])

  /** The model a line names, under "model", "model_id" or "model_name", in that order. */
  function NamedModel(parsed: Json.Value): Option<string>
  {
    Json.GetStr(parsed, "model").Or(Json.GetStr(parsed, "model_id")).Or(Json.GetStr(parsed, "model_name"))
  }

  /** `capture_codex_model`: a line naming a model replaces the remembered one. */
  function CaptureModel(state: ParserState, parsed: Json.Value): (r: ParserState)
    ensures r.sessionId == state.sessionId && r.items == state.items
    ensures r.model == NamedModel(parsed).Or(state.model)
  {
    match NamedModel(parsed)
    case Some(m) => state.(model := Some(m))
    case None => state
  }

  /** `normalize_type`: the string, lower-cased; anything else is "". */
  function NormalizeType(v: Option<Json.Value>): (r: string)
    ensures v.Some? && v.value.Str? ==> r == Lower(v.value.s)
    ensures !(v.Some? && v.value.Str?) ==> r == []
  {
    match v
    case Some(Str(s)) => Lower(s)
    case _ => []
  }

  /** `item_id`: "item_id", "itemId", the item's "id", then the line's "id". */
  function ItemId(parsed: Json.Value, item: Option<Json.Value>): Option<string>
  {
    Json.GetStr(parsed, "item_id").Or(Json.GetStr(parsed, "itemId")).Or(OptStr(item, "id")).Or(Json.GetStr(parsed, "id"))
  }

  /** The type remembered for an item id. */
  function RecordedType(state: ParserState, id: Option<string>): Option<string>
  {
    if id.Some? && id.value in state.items then Some(state.items[id.value]) else None
  }

  /**
   * `item_type`: the item's own "type", the line's "item_type" or "itemType", else the type
   * recorded when the item started; lower-cased, "" when none is known.
   */
  function ItemType(parsed: Json.Value, item: Option<Json.Value>, id: Option<string>, state: ParserState): string
  {
    Lower(OptStr(item, "type").Or(Json.GetStr(parsed, "item_type")).Or(Json.GetStr(parsed, "itemType"))
            .Or(RecordedType(state, id)).UnwrapOr([]))
  }

  /** The tool id of an item: its "id", or "tool". */
  function ToolId(item: Json.Value): Json.Value
  {
    Json.Get(item, "id").UnwrapOr(Json.Str("tool"))
  }

  function CommandTool(item: Json.Value): Tool
  {
    Tool(ToolId(item), "Bash", Json.Obj(map["command" := FieldOrNull(item, "command")]))
  }

  function FirstField(item: Json.Value, keys: seq<string>): (r: Option<Json.Value>)
    ensures r.Some? ==> exists i :: 0 <= i < |keys| && Json.Get(item, keys[i]) == r
    ensures r.None? <==> forall i :: 0 <= i < |keys| ==> Json.Get(item, keys[i]).None?
  {
    if keys == [] then None
    else
      var rest := FirstField(item, keys[1..]);
      assert forall i :: 1 <= i < |keys| ==> keys[i] == keys[1..][i - 1];
      Json.Get(item, keys[0]).Or(rest)
  }

  /** The name of an MCP tool: names starting with "mcp" are kept, others get the "MCP:" prefix. */
  function McpToolName(rawName: string): (r: string)
    ensures StartsWith(r, "mcp") || StartsWith(r, "MCP:")
  {
    if StartsWith(rawName, "mcp") then rawName
    else
      assert ("MCP:" + rawName)[..4] == "MCP:";
      "MCP:" + rawName
  }

  /** The input of an MCP tool: an object as is, a string parsed (or kept as "raw"), else {}. */
  function McpToolInput(source: Json.Value, codec: JsonCodec): (r: Json.Value)
    ensures source.Obj? ==> r == source
    ensures source.Str? && codec.parse(source.s).Some? ==> r == codec.parse(source.s).value
    ensures !source.Str? ==> r.Obj?
  {
    match source
    case Obj(_) => source
    case Str(raw) =>
      (match codec.parse(raw)
       case Some(v) => v
       case None => Json.Obj(map["raw" := Json.Str(raw)]))
    case _ => Json.EmptyObject
  }

  /** `build_mcp_tool`. */
  function McpTool(item: Json.Value, codec: JsonCodec, fallbackId: string): Tool
  {
    var id := Json.GetStr(item, "id").Or(Json.GetStr(item, "tool_call_id")).Or(Json.GetStr(item, "request_id"))
                .UnwrapOr("mcp_" + fallbackId);
    var rawName := Json.GetStr(item, "tool_name").Or(Json.GetStr(item, "name")).Or(Json.GetStr(item, "tool"))
                     .Or(Json.GetStr(item, "server")).UnwrapOr("MCP");
    var source := FirstField(item, ["input", "arguments", "args", "params", "payload", "request"])
                    .UnwrapOr(Json.EmptyObject);
    Tool(Json.Str(id), McpToolName(rawName), McpToolInput(source, codec))
  }

  /** `item.started`: remember the item's type, and announce the tools that start. */
  function ItemStarted(state: ParserState, item: Option<Json.Value>, codec: JsonCodec, fallbackId: string)
    : (r: (ParserState, seq<SemanticEvent>))
    ensures r.0.sessionId == state.sessionId && r.0.model == state.model
    ensures item.Some? && Json.GetStr(item.value, "id").Some? && Json.GetStr(item.value, "type").Some?
            ==> r.0.items == state.items[Json.GetStr(item.value, "id").value := Json.GetStr(item.value, "type").value]
    ensures state.items.Keys <= r.0.items.Keys
    ensures |r.1| <= 1 && forall e :: e in r.1 ==> e.ToolStart?
  {
    match item
    case None => (state, [])
    case Some(it) =>
      var s := match (Json.GetStr(it, "id"), Json.GetStr(it, "type"))
               case (Some(id), Some(t)) => state.(items := state.items[id := t])
               case _ => state;
      var kind := Json.GetStr(it, "type").UnwrapOr([]);
      if kind == "command_execution" then (s, [ToolStart(CommandTool(it))])
      else if kind == "file_change" then
        (s, [ToolStart(Tool(ToolId(it), "FileChange",
                            Json.Obj(map["path" := FieldOrNull(it, "path"), "operation" := FieldOrNull(it, "operation")])))])
      else if kind == "mcp_tool_call" then (s, [ToolStart(McpTool(it, codec, fallbackId))])
      else (s, [])
  }

  /** Whether a delta is reasoning: the event, item or delta type mentions reasoning, thinking or a summary. */
  predicate IsReasoning(eventType: string, itemType: string, deltaType: string)
  {
    var kinds := Lower(eventType + " " + itemType + " " + deltaType);
    Contains(kinds, "reason") || Contains(kinds, "thinking") || Contains(kinds, "summary")
  }

  /** The delta object of a line: its own "delta", else its item's. */
  function DeltaObject(parsed: Json.Value, item: Option<Json.Value>): Option<Json.Value>
  {
    match GetObj(parsed, "delta")
    case Some(d) => Some(d)
    case None => if item.Some? then GetObj(item.value, "delta") else None
  }

  /** The reasoning text of a delta: the first non-empty of its summary or thinking fields. */
  function ReasoningText(delta: Option<Json.Value>): (r: Option<string>)
    ensures r.Some? ==> r.value != []
  {
    PickString([OptStr(delta, "summary_text"), OptStr(delta, "summaryText"), OptStr(delta, "summary"),
                OptStr(delta, "thinking"), OptStr(delta, "reasoning")])
  }

  /** The text of a delta: the first non-empty of its text fields, the line's "text" or the item's. */
  function DeltaText(parsed: Json.Value, item: Option<Json.Value>, delta: Option<Json.Value>): (r: Option<string>)
    ensures r.Some? ==> r.value != []
  {
    PickString([OptStr(delta, "text"), OptStr(delta, "content"), OptStr(delta, "value"),
                OptStr(delta, "partial"), Json.GetStr(parsed, "text"), OptStr(item, "text")])
  }

  /**
   * The events of a delta line: its reasoning text as thinking, then its text, as thinking when
   * the delta is reasoning and as text otherwise; each only when present and not empty.
   */
  function DeltaEvents(parsed: Json.Value, item: Option<Json.Value>, eventType: string, itemType: string)
    : (r: seq<SemanticEvent>)
    ensures |r| <= 2
    ensures forall e :: e in r ==> (e.TextDelta? && e.text != []) || (e.ThinkingDelta? && e.thinking != [])
    ensures r == [] <==> ReasoningText(DeltaObject(parsed, item)).None? && DeltaText(parsed, item, DeltaObject(parsed, item)).None?
  {
    var delta := DeltaObject(parsed, item);
    var deltaType := NormalizeType(if delta.Some? then Json.Get(delta.value, "type") else None);
    var reasoningText := ReasoningText(delta);
    var deltaText := DeltaText(parsed, item, delta);
    (if reasoningText.Some? then [ThinkingDelta(reasoningText.value)] else [])
    + (if deltaText.Some? then
         [if IsReasoning(eventType, itemType, deltaType) then ThinkingDelta(deltaText.value) else TextDelta(deltaText.value)]
       else [])
  }

  /** The string members of an array. */
  function Strings(values: seq<Json.Value>): (r: seq<string>)
    ensures |r| <= |values|
  {
    if values == [] then []
    else (if values[0].Str? then [values[0].s] else []) + Strings(values[1..])
  }

  /** The output of a finished command: "output", "aggregated_output", the "output_lines" joined, or "". */
  function CommandOutput(item: Json.Value): string
  {
    match Json.GetStr(item, "output").Or(Json.GetStr(item, "aggregated_output"))
    case Some(out) => out
    case None =>
      match Json.Get(item, "output_lines")
      case Some(Arr(lines)) => Join(Strings(lines), "\n")
      case _ => []
  }

  /** `stringify_json_value`: a string as is, null as "", anything else pretty-printed. */
  function Stringify(v: Json.Value, codec: JsonCodec): (r: string)
    ensures v.Str? ==> r == v.s
    ensures v.Null? ==> r == []
  {
    match v
    case Str(text) => text
    case Null => []
    case _ => codec.renderPretty(v)
  }

  /** `item.completed`: the final message, the final reasoning, or a tool's result. */
  function ItemCompleted(item: Json.Value, codec: JsonCodec, fallbackId: string): (r: seq<SemanticEvent>)
    ensures |r| <= 1
    ensures Json.GetStr(item, "type") == Some("agent_message") ==>
              r == (if Json.GetStr(item, "text").Some? && Json.GetStr(item, "text").value != []
                    then [TextComplete(Json.GetStr(item, "text").value)] else [])
  {
    var kind := Json.GetStr(item, "type").UnwrapOr([]);
    if kind == "agent_message" then
      match Json.GetStr(item, "text")
      case Some(text) => if text != [] then [TextComplete(text)] else []
      case None => []
    else if kind == "reasoning" then
      var text := Json.GetStr(item, "text").Or(Json.GetStr(item, "summary")).UnwrapOr([]);
      if text != [] then [ThinkingComplete(text)] else []
    else if kind == "command_execution" then
      [ToolResult(CommandTool(item), CommandOutput(item))]
    else if kind == "file_change" then
      var result := Json.GetStr(item, "summary").Or(Json.GetStr(item, "diff")).UnwrapOr([]);
      [ToolResult(Tool(ToolId(item), "FileChange",
                       Json.Obj(map["path" := FieldOrNull(item, "path"), "operation" := FieldOrNull(item, "operation"),
                                    "diff" := FieldOrNull(item, "diff")])), result)]
    else if kind == "web_search" then
      [ToolResult(Tool(ToolId(item), "WebSearch", Json.Obj(map["query" := FieldOrNull(item, "query")])),
                  codec.render(Json.Get(item, "results").UnwrapOr(Json.Arr([]))))]
    else if kind == "mcp_tool_call" then
      var source := FirstField(item, ["result", "output", "response", "content", "error", "summary"]).UnwrapOr(Json.Null);
      [ToolResult(McpTool(item, codec, fallbackId), Stringify(source, codec))]
    else []
  }

  /** `codex_usage`: the three token counts of the "usage" object, 0 when missing. */
  function CodexUsage(usage: Option<Json.Value>): Usage
  {
    var u := if usage.Some? && usage.value.Obj? then usage.value else Json.EmptyObject;
    Usage(Json.GetInt(u, "input_tokens").UnwrapOr(0), Json.GetInt(u, "output_tokens").UnwrapOr(0),
          Json.GetInt(u, "cached_input_tokens").UnwrapOr(0))
  }

  /** `turn.completed`: the turn's usage, then the session when one is known. */
  function TurnCompleted(state: ParserState, parsed: Json.Value): (r: seq<SemanticEvent>)
  {
    var usage := CodexUsage(Json.Get(parsed, "usage"));
    [TurnComplete(usage, state.model)]
    + (if state.sessionId.Some? then [SessionComplete(state.sessionId.value, Some(usage), state.model)] else [])
  }

  /** The message of a failure: "message", else the "error" object's "message", else "Codex error". */
  function FailureMessage(parsed: Json.Value): string
  {
    Json.GetStr(parsed, "message")
      .Or(match GetObj(parsed, "error") case Some(e) => Json.GetStr(e, "message") case None => None)
      .UnwrapOr("Codex error")
  }

  /** A failure is a rate limit when its lower-cased message says so. */
  predicate IsRateLimitMessage(message: string)
  {
    var lower := Lower(message);
    Contains(lower, "rate limit") || Contains(lower, "too many requests") || Contains(lower, "429")
  }

  /** `turn.failed` and `error`: a rate-limit notice or an error carrying the whole line. */
  function FailureEvent(parsed: Json.Value): (r: SemanticEvent)
    ensures r.RateLimited? <==> IsRateLimitMessage(FailureMessage(parsed))
    ensures r.Error? ==> r.message == FailureMessage(parsed) && r.detail == parsed
  {
    var message := FailureMessage(parsed);
    if IsRateLimitMessage(message) then
      RateLimited(Json.Get(parsed, "retry_after_ms").Or(Json.Get(parsed, "retry_after")))
    else Error(message, parsed)
  }

  /** The events of the line types that come after the delta check. */
  function Completion(s: ParserState, parsed: Json.Value, eventType: string, item: Option<Json.Value>,
                      codec: JsonCodec, fallbackId: string): seq<SemanticEvent>
  {
    if eventType == "item.completed" then (if item.Some? then ItemCompleted(item.value, codec, fallbackId) else [])
    else if eventType == "turn.completed" then TurnCompleted(s, parsed)
    else if eventType == "turn.failed" || eventType == "error" then [FailureEvent(parsed)]
    else []
  }

  /** A line that is an object, after the model was captured. */
  function ObjectStep(s: ParserState, parsed: Json.Value, codec: JsonCodec, fallbackId: string)
    : (r: (ParserState, seq<SemanticEvent>))
    requires parsed.Obj?
    ensures s.sessionId.Some? ==> r.0.sessionId.Some?
    ensures s.items.Keys <= r.0.items.Keys
  {
    var eventType := NormalizeType(Json.Get(parsed, "type"));
    var item := GetObj(parsed, "item");
    if eventType == "thread.started" then
      match Json.GetStr(parsed, "thread_id")
      case Some(t) => (s.(sessionId := Some(t)), [SessionComplete(t, None, s.model)])
      case None => (s, [])
    else if eventType == "item.started" then ItemStarted(s, item, codec, fallbackId)
    else
      var itemType := ItemType(parsed, item, ItemId(parsed, item), s);
      var deltas := if Contains(eventType, "delta") then DeltaEvents(parsed, item, eventType, itemType) else [];
      if deltas != [] then (s, deltas)
      else (s, Completion(s, parsed, eventType, item, codec, fallbackId))
  }

  /**
   * The body of the per-line loop of `parse_semantic_events`: unwrap a stream event, capture
   * the model, and handle an object line by its type. A known session id is never forgotten,
   * and neither is a recorded item.
   */
  function Step(state: ParserState, raw: Json.Value, codec: JsonCodec, fallbackId: string)
    : (r: (ParserState, seq<SemanticEvent>))
    ensures state.sessionId.Some? ==> r.0.sessionId.Some?
    ensures state.items.Keys <= r.0.items.Keys
  {
    var parsed := UnwrapStreamEvent(raw);
    var s := CaptureModel(state, parsed);
    if !parsed.Obj? then (s, []) else ObjectStep(s, parsed, codec, fallbackId)
  }

  /** `Step` with the codec and the fallback id fixed, as the line driver takes it. */
  function StepWith(codec: JsonCodec, fallbackId: string): (ParserState, Json.Value) -> (ParserState, seq<SemanticEvent>)
  {
    (s: ParserState, v: Json.Value) => Step(s, v, codec, fallbackId)
  }

  /** Parsing a run's lines from a state. */
  function ParseRun(state: ParserState, lines: seq<string>, codec: JsonCodec, fallbackId: string)
    : (ParserState, seq<SemanticEvent>)
  {
    ParseLines(StepWith(codec, fallbackId), state, lines, codec.parse)
  }

  /** Over any sequence of lines, a known session id stays known and recorded items stay recorded. */
  lemma {:induction false} ParseRunKeepsSession(state: ParserState, lines: seq<string>, codec: JsonCodec,
                                               fallbackId: string)
    ensures state.sessionId.Some? ==> ParseRun(state, lines, codec, fallbackId).0.sessionId.Some?
    ensures state.items.Keys <= ParseRun(state, lines, codec, fallbackId).0.items.Keys
    decreases |lines|
  {
    if lines != [] {
      ParseRunKeepsSession(state, lines[..|lines| - 1], codec, fallbackId);
      var before := ParseRun(state, lines[..|lines| - 1], codec, fallbackId);
      match AcceptedLine(lines[|lines| - 1], codec.parse)
      case Some(v) =>
      case None =>
    }
  }

  /** `p` cannot occur in `s` when no place early enough in `s` holds the first letter of `p`. */
  lemma AbsentWithoutFirstLetter(s: string, p: string)
    requires p != [] && forall i :: 0 <= i <= |s| - |p| ==> s[i] != p[0]
    ensures !Contains(s, p)
  {
    forall i | 0 <= i <= |s|
      ensures !MatchesAt(s, p, i)
    {
      if i + |p| <= |s| {
        assert s[i] != p[0];
      }
    }
  }

  /** A line of one of the given non-delta event types, as Codex writes it. */
  predicate IsLineOfType(v: Json.Value, eventType: string)
  {
    v.Obj? && Json.GetStr(v, "type") == Some(eventType)
  }

  /** `thread.started` records the thread as the session and announces it at once. */
  lemma ThreadStartedRecordsSession(state: ParserState, v: Json.Value, t: string, codec: JsonCodec, fallbackId: string)
    requires IsLineOfType(v, "thread.started") && Json.GetStr(v, "thread_id") == Some(t)
    ensures var r := Step(state, v, codec, fallbackId);
            && r.0.sessionId == Some(t)
            && r.0.items == state.items
            && r.1 == [SessionComplete(t, None, r.0.model)]
  {
    var ty := "thread.started";
    assert Lower(ty) == ty by { LowerThreadStarted(); }
    StepOfTyped(state, v, ty, codec, fallbackId);
    var s := CaptureModel(state, v);
    assert ObjectStep(s, v, codec, fallbackId) == (s.(sessionId := Some(t)), [SessionComplete(t, None, s.model)]);
  }

  lemma LowerThreadStarted()
    ensures Lower("thread.started") == "thread.started"
  {
  }

  /** A line of a lower-case type other than a stream event is handled as the object it is. */
  lemma StepOfTyped(state: ParserState, v: Json.Value, ty: string, codec: JsonCodec, fallbackId: string)
    requires IsLineOfType(v, ty) && ty != "stream_event" && Lower(ty) == ty
    ensures Step(state, v, codec, fallbackId) == ObjectStep(CaptureModel(state, v), v, codec, fallbackId)
    ensures NormalizeType(Json.Get(v, "type")) == ty
  {
  }

  /** `turn.completed` reports the turn, then the session only when one is known. */
  lemma TurnCompletedReportsSession(state: ParserState, v: Json.Value, codec: JsonCodec, fallbackId: string)
    requires IsLineOfType(v, "turn.completed")
    ensures var r := Step(state, v, codec, fallbackId);
            var usage := CodexUsage(Json.Get(v, "usage"));
            && r.0.sessionId == state.sessionId
            && r.1 == [TurnComplete(usage, r.0.model)]
                      + (if state.sessionId.Some? then [SessionComplete(state.sessionId.value, Some(usage), r.0.model)] else [])
  {
    var t := "turn.completed";
    assert Lower(t) == t;
    AbsentWithoutFirstLetter(t, "delta");
  }

  /** `turn.failed` and `error` lines yield one event: a rate-limit notice exactly when the message says so. */
  lemma FailureIsClassified(state: ParserState, v: Json.Value, codec: JsonCodec, fallbackId: string)
    requires IsLineOfType(v, "turn.failed") || IsLineOfType(v, "error")
    ensures var r := Step(state, v, codec, fallbackId);
            && r.0.sessionId == state.sessionId && r.0.items == state.items
            && |r.1| == 1
            && (r.1[0].RateLimited? <==> IsRateLimitMessage(FailureMessage(v)))
            && (r.1[0].Error? ==> r.1[0] == Error(FailureMessage(v), v))
  {
    if IsLineOfType(v, "turn.failed") {
      var t := "turn.failed";
      assert Lower(t) == t;
      AbsentWithoutFirstLetter(t, "delta");
    } else {
      var t := "error";
      assert Lower(t) == t;
      AbsentWithoutFirstLetter(t, "delta");
    }
  }

  /** A failure without any message is reported as a plain "Codex error". */
  lemma MessagelessFailureIsCodexError(v: Json.Value)
    requires v.Obj? && "message" !in v.fields && "error" !in v.fields
    ensures FailureEvent(v) == Error("Codex error", v)
  {
    var lower := Lower("Codex error");
    assert lower == "codex error";
    AbsentWithoutFirstLetter(lower, "rate limit");
    AbsentWithoutFirstLetter(lower, "too many requests");
    AbsentWithoutFirstLetter(lower, "429");
  }

  /** The line `{"type": "item.delta", "item_id": id, "delta": {"text": t}}`. */
  function ItemDeltaLine(id: string, t: string): Json.Value
  {
    Json.Obj(map["type" := Json.Str("item.delta"), "item_id" := Json.Str(id),
                 "delta" := Json.Obj(map["text" := Json.Str(t)])])
  }

  lemma ItemDeltaLineText(id: string, t: string)
    requires t != []
    ensures var delta := DeltaObject(ItemDeltaLine(id, t), None);
            && delta == Some(Json.Obj(map["text" := Json.Str(t)]))
            && ReasoningText(delta).None?
            && DeltaText(ItemDeltaLine(id, t), None, delta) == Some(t)
  {
    var delta := DeltaObject(ItemDeltaLine(id, t), None);
    assert delta == Some(Json.Obj(map["text" := Json.Str(t)]));
  }

  lemma ReasoningItemDeltaKinds()
    ensures IsReasoning("item.delta", "reasoning", "")
  {
    var kinds := "item.delta" + " " + "reasoning" + " " + [];
    assert Lower(kinds) == kinds;
    assert MatchesAt(kinds, "reason", 11);
  }

  /** On such a line, a text delta of an item of type "reasoning" is thinking. */
  lemma ReasoningDeltaIsThinking(id: string, t: string)
    requires t != []
    ensures DeltaEvents(ItemDeltaLine(id, t), None, "item.delta", "reasoning") == [ThinkingDelta(t)]
  {
    ItemDeltaLineText(id, t);
    ReasoningItemDeltaKinds();
    var delta := DeltaObject(ItemDeltaLine(id, t), None);
    assert NormalizeType(Json.Get(delta.value, "type")) == [];
  }

  /**
   * An item remembered as reasoning when it started turns a later delta that names only its id
   * into thinking, and the line changes no state.
   */
  lemma RecordedReasoningItemStreamsThinking(state: ParserState, id: string, t: string, codec: JsonCodec,
                                             fallbackId: string)
    requires id in state.items && state.items[id] == "reasoning" && t != []
    ensures Step(state, ItemDeltaLine(id, t), codec, fallbackId) == (state, [ThinkingDelta(t)])
  {
    var v := ItemDeltaLine(id, t);
    assert UnwrapStreamEvent(v) == v;
    assert CaptureModel(state, v) == state;
    ItemDeltaLineKinds(state, id, t);
    ReasoningDeltaIsThinking(id, t);
  }

  lemma ItemDeltaLineKinds(state: ParserState, id: string, t: string)
    requires id in state.items && state.items[id] == "reasoning"
    ensures var v := ItemDeltaLine(id, t);
            && NormalizeType(Json.Get(v, "type")) == "item.delta"
            && Contains("item.delta", "delta")
            && GetObj(v, "item").None?
            && ItemType(v, None, ItemId(v, None), state) == "reasoning"
  {
    var v := ItemDeltaLine(id, t);
    assert Lower("item.delta") == "item.delta";
    assert MatchesAt("item.delta", "delta", 5);
    assert ItemId(v, None) == Some(id);
    assert Lower("reasoning") == "reasoning";
  }

  // ---- `extract_last_agent_message`, used for the run summary ----

  /** A line `extract_last_agent_message` reads: non-blank, opening an object or array, and parsing. */
  function JsonLine(line: string, parse: string -> Option<Json.Value>): Option<Json.Value>
  {
    var trimmed := Trim(line);
    if trimmed != [] && (trimmed[0] == '{' || trimmed[0] == '[') then parse(trimmed) else None
  }

  /**
   * What one line says about the final message: nothing, a (trimmed) agent message, or, as the
   * code is written, stop: an `item.completed` line without an "item", or an agent message
   * whose "text" is not a string, returns from the whole function through the `?` operator.
   */
  datatype Verdict = Skip | Stop | Message(text: string)

  function LineVerdict(line: string, parse: string -> Option<Json.Value>): Verdict
  {
    match JsonLine(line, parse)
    case None => Skip
    case Some(v) =>
      if Json.GetStr(v, "type") != Some("item.completed") then Skip
      else
        match Json.Get(v, "item")
        case None => Stop
        case Some(item) =>
          if Json.GetStr(item, "type") != Some("agent_message") then Skip
          else
            match Json.GetStr(item, "text")
            case None => Stop
            case Some(text) => Message(Trim(text))
  }

  /** The state of the scan as written: still going with the last message so far, or returned. */
  datatype Scan = Scanning(last: Option<string>) | Returned

  /** The scan of the code as written, over a prefix of the lines. */
  function ScanAsWritten(lines: seq<string>, parse: string -> Option<Json.Value>): Scan
    decreases |lines|
  {
    if lines == [] then Scanning(None)
    else ScanStep(ScanAsWritten(lines[..|lines| - 1], parse), LineVerdict(lines[|lines| - 1], parse))
  }

  /** One line of the scan as written: a returned scan stays returned. */
  function ScanStep(scan: Scan, verdict: Verdict): Scan
  {
    match scan
    case Returned => Returned
    case Scanning(last) =>
      match verdict
      case Skip => Scanning(last)
      case Stop => Returned
      case Message(text) => Scanning(if text != [] then Some(text) else last)
  }

  /** The scan over one more line. */
  lemma ScanAsWrittenSnoc(lines: seq<string>, i: nat, parse: string -> Option<Json.Value>)
    requires i < |lines|
    ensures ScanAsWritten(lines[..i + 1], parse) == ScanStep(ScanAsWritten(lines[..i], parse), LineVerdict(lines[i], parse))
  {
    assert lines[..i + 1][..i] == lines[..i];
  }

  /** `extract_last_agent_message` as written. */
  function LastAgentMessageAsWritten(lines: seq<string>, parse: string -> Option<Json.Value>): Option<string>
  {
    match ScanAsWritten(lines, parse)
    case Scanning(last) => last
    case Returned => None
  }

  /** The line is an agent message with non-blank text. */
  predicate IsMessageLine(line: string, parse: string -> Option<Json.Value>)
  {
    LineVerdict(line, parse).Message? && LineVerdict(line, parse).text != []
  }

  /** The index of the last agent message with non-blank text, if any. */
  function LastMessageIndex(lines: seq<string>, parse: string -> Option<Json.Value>): (r: Option<nat>)
    ensures r.Some? ==> r.value < |lines| && IsMessageLine(lines[r.value], parse)
                        && forall j :: r.value < j < |lines| ==> !IsMessageLine(lines[j], parse)
    ensures r.None? ==> forall i :: 0 <= i < |lines| ==> !IsMessageLine(lines[i], parse)
    decreases |lines|
  {
    if lines == [] then None
    else if IsMessageLine(lines[|lines| - 1], parse) then Some(|lines| - 1)
    else
      var r := LastMessageIndex(lines[..|lines| - 1], parse);
      assert forall i :: 0 <= i < |lines| - 1 ==> lines[..|lines| - 1][i] == lines[i];
      r
  }

  /**
   * The final agent message, as intended: the trimmed text of the last line that is an agent
   * message with non-blank text; lines of any other kind are passed over.
   */
  function LastAgentMessage(lines: seq<string>, parse: string -> Option<Json.Value>): (r: Option<string>)
    ensures r.Some? ==> r.value != []
  {
    match LastMessageIndex(lines, parse)
    case Some(i) => Some(LineVerdict(lines[i], parse).text)
    case None => None
  }

  /** `extract_last_agent_message`, with a malformed line passed over instead of ending the scan. */
  method ExtractLastAgentMessage(raw: string, parse: string -> Option<Json.Value>) returns (r: Option<string>)
    ensures r == LastAgentMessage(Lines(raw), parse)
  {
    var lines := Lines(raw);
    r := None;
    var i := 0;
    while i < |lines|
      invariant 0 <= i <= |lines|
      invariant r == LastAgentMessage(lines[..i], parse)
    {
      assert lines[..i + 1][..i] == lines[..i];
      LastAgentMessageSnoc(lines[..i + 1], parse);
      var verdict := LineVerdict(lines[i], parse);
      if verdict.Message? && verdict.text != [] {
        r := Some(verdict.text);
      }
      i := i + 1;
    }
    assert lines[..i] == lines;
  }

  /** `extract_last_agent_message` as written: a `?` on a missing field returns `None` at once. */
  method ExtractLastAgentMessageAsWritten(raw: string, parse: string -> Option<Json.Value>) returns (r: Option<string>)
    ensures r == LastAgentMessageAsWritten(Lines(raw), parse)
  {
    var lines := Lines(raw);
    var last: Option<string> := None;
    var i := 0;
    while i < |lines|
      invariant 0 <= i <= |lines|
      invariant ScanAsWritten(lines[..i], parse) == Scanning(last)
    {
      ScanAsWrittenSnoc(lines, i, parse);
      match LineVerdict(lines[i], parse) {
        case Skip =>
        case Stop =>
          ReturnedStays(lines, i + 1, parse);
          assert lines == lines[..|lines|];
          return None;
        case Message(text) =>
          if text != [] {
            last := Some(text);
          }
      }
      i := i + 1;
    }
    assert lines[..i] == lines;
    r := last;
  }

  /** Once the scan has returned, later lines change nothing. */
  lemma {:induction false} ReturnedStays(lines: seq<string>, k: nat, parse: string -> Option<Json.Value>)
    requires k <= |lines| && ScanAsWritten(lines[..k], parse) == Returned
    ensures ScanAsWritten(lines, parse) == Returned
    decreases |lines| - k
  {
    if k < |lines| {
      assert lines[..k + 1][..k] == lines[..k];
      ReturnedStays(lines, k + 1, parse);
    } else {
      assert lines[..k] == lines;
    }
  }

  /** Without a malformed `item.completed` line, the code as written finds the intended message. */
  lemma {:induction false} AsWrittenAgreesWithoutStops(lines: seq<string>, parse: string -> Option<Json.Value>)
    requires forall i :: 0 <= i < |lines| ==> !LineVerdict(lines[i], parse).Stop?
    ensures LastAgentMessageAsWritten(lines, parse) == LastAgentMessage(lines, parse)
    ensures ScanAsWritten(lines, parse) == Scanning(LastAgentMessage(lines, parse))
    decreases |lines|
  {
    if lines != [] {
      var n := |lines| - 1;
      var before := lines[..n];
      assert forall i :: 0 <= i < n ==> before[i] == lines[i];
      AsWrittenAgreesWithoutStops(before, parse);
      LastAgentMessageSnoc(lines, parse);
    }
  }

  /** The final message of one more line: that line's text when it is a message, else as before. */
  lemma LastAgentMessageSnoc(lines: seq<string>, parse: string -> Option<Json.Value>)
    requires lines != []
    ensures var last := lines[|lines| - 1];
            LastAgentMessage(lines, parse)
            == if IsMessageLine(last, parse) then Some(LineVerdict(last, parse).text)
               else LastAgentMessage(lines[..|lines| - 1], parse)
  {
  }

  /**
   * The discrepancy: after a final message "done", an `item.completed` line without an "item"
   * makes the code as written lose the message, where the intended reading keeps it.
   */
  lemma MalformedLineLosesMessage()
    ensures var done := Json.Obj(map["type" := Json.Str("item.completed"),
                                     "item" := Json.Obj(map["type" := Json.Str("agent_message"), "text" := Json.Str("done")])]);
            var bare := Json.Obj(map["type" := Json.Str("item.completed")]);
            var parse := (s: string) => if s == "{1}" then Some(done) else if s == "{2}" then Some(bare) else None;
            && LastAgentMessageAsWritten(["{1}", "{2}"], parse) == None
            && LastAgentMessage(["{1}", "{2}"], parse) == Some("done")
  {
    var done := Json.Obj(map["type" := Json.Str("item.completed"),
                             "item" := Json.Obj(map["type" := Json.Str("agent_message"), "text" := Json.Str("done")])]);
    var bare := Json.Obj(map["type" := Json.Str("item.completed")]);
    var parse := (s: string) => if s == "{1}" then Some(done) else if s == "{2}" then Some(bare) else None;
    var lines := ["{1}", "{2}"];
    assert Trim("{1}") == "{1}" && Trim("{2}") == "{2}";
    assert Trim("done") == "done";
    assert LineVerdict("{1}", parse) == Message("done");
    assert LineVerdict("{2}", parse) == Stop;
    assert lines[..1] == ["{1}"] && [lines[0]][..0] == [];
    assert ScanAsWritten(["{1}"], parse) == Scanning(Some("done"));
    assert ScanAsWritten(lines, parse) == Returned;
  }

  /** The per-run parser states of the adapter. */
  class CodexAdapter {
    var parserStates: map<string, ParserState>

    /** `CodexAdapter::default`. */
    constructor ()
      ensures parserStates == map[]
    {
      parserStates := map[];
    }

    /**
     * `parse_semantic_events`: the run's lines are parsed from its state (fresh for a new run),
     * the new state is kept for the run, and no other run's state changes.
     */
    method ParseSemanticEvents(runId: string, chunk: string, codec: JsonCodec, fallbackId: string)
      returns (events: seq<SemanticEvent>)
      modifies this
      ensures var r := ParseRun(StateFor(old(parserStates), runId, InitialState), Lines(chunk), codec, fallbackId);
              parserStates == old(parserStates)[runId := r.0] && events == r.1
    {
      var start := StateFor(parserStates, runId, InitialState);
      var state := start;
      var lines := Lines(chunk);
      events := [];
      var i := 0;
      while i < |lines|
        invariant 0 <= i <= |lines|
        invariant (state, events) == ParseRun(start, lines[..i], codec, fallbackId)
      {
        assert lines[..i + 1][..i] == lines[..i];
        var trimmed := Trim(lines[i]);
        if trimmed != [] && trimmed[0] == '{' {
          var parsed := codec.parse(trimmed);
          if parsed.Some? {
            var next := Step(state, parsed.value, codec, fallbackId);
            state := next.0;
            events := events + next.1;
          }
        }
        i := i + 1;
      }
      assert lines[..i] == lines;
      parserStates := parserStates[runId := state];
    }

    /** `clear_semantic_state`: the run's state is dropped; the next chunk starts afresh. */
    method ClearSemanticState(runId: string)
      modifies this
      ensures parserStates == old(parserStates) - {runId}
    {
      parserStates := parserStates - {runId};
    }
  }
}
