/**
 * The Claude stream parser (`ClaudeAdapter::parse_semantic_events` in adapters/claude.rs):
 * each JSON line of `claude -p --output-format stream-json` output updates the run's parser
 * state (tool calls still streaming by content-block index, started tools by id, token counts,
 * session id, model, whether any text was seen) and yields semantic events. The JSON parser is
 * a parameter. Also here: `extract_message_text`, `extract_tool_result_text` and
 * `extract_claude_result_text`.
 */
module ClaudeParser {
  import opened Wrappers
  import opened Text
  import Json
  import opened Adapters

  /** `ClaudeToolState`: a tool call whose input JSON is still arriving in pieces. */
  datatype StreamingTool = StreamingTool(tool: Tool, inputBuffer: string)

  /** A started tool's name and input, kept by its id until its result comes back. */
  datatype StartedTool = StartedTool(name: string, input: Json.Value)

  /** `ClaudeParserState` without the floating-point cost and duration. */
  datatype ParserState = ParserState(
    toolsByIndex: map<nat, StreamingTool>,
    toolNamesById: map<string, StartedTool>,
    inputTokens: int,
    outputTokens: int,
    cachedTokens: int,
    sessionId: Option<string>,
    model: Option<string>,
    hasText: bool)

  const InitialState: ParserState := ParserState(map[], map[], 0, 0, 0, None, None, false)

  /** `v.get(key).and_then(Value::as_array)`, empty when absent or not an array. */
  function Items(v: Json.Value, key: string): seq<Json.Value>
  {
    match Json.Get(v, key)
    case Some(Arr(items)) => items
    case _ => []
  }

  /** `index.as_u64().unwrap_or(0)`: the content block a line is about. */
  function BlockIndex(parsed: Json.Value): (r: nat)
    ensures Json.GetInt(parsed, "index").Some? && Json.GetInt(parsed, "index").value >= 0 ==>
              r == Json.GetInt(parsed, "index").value
    ensures !(Json.GetInt(parsed, "index").Some? && Json.GetInt(parsed, "index").value >= 0) ==> r == 0
  {
    match Json.GetInt(parsed, "index")
    case Some(n) => if n >= 0 then n else 0
    case None => 0
  }

  // ---- message text ----

  /** The text a content part contributes to the parts of `kind` ("text" or "thinking"). */
  function PartText(part: Json.Value, kind: string): string
  {
    if Json.GetStr(part, "type") == Some(kind) then Json.GetStr(part, "text").UnwrapOr([]) else []
  }

  /** The texts of the parts of one kind, concatenated in order. */
  function KindText(parts: seq<Json.Value>, kind: string): (r: string)
    decreases |parts|
  {
    if parts == [] then [] else KindText(parts[..|parts| - 1], kind) + PartText(parts[|parts| - 1], kind)
  }

  /** The text of a kind is empty exactly when no part of that kind carries any text. */
  lemma {:induction false} KindTextEmptyIff(parts: seq<Json.Value>, kind: string)
    ensures KindText(parts, kind) == [] <==> forall i :: 0 <= i < |parts| ==> PartText(parts[i], kind) == []
    decreases |parts|
  {
    if parts != [] {
      var n := |parts| - 1;
      var prefix, last := parts[..n], PartText(parts[n], kind);
      KindTextEmptyIff(prefix, kind);
      assert KindText(parts, kind) == KindText(prefix, kind) + last;
      assert |KindText(parts, kind)| == |KindText(prefix, kind)| + |last|;
      assert forall i :: 0 <= i < n ==> prefix[i] == parts[i];
    }
  }

  /** The text and thinking parts of a message are kept apart: a part of one kind adds nothing to the other. */
  lemma PartIsOneKind(part: Json.Value)
    ensures PartText(part, "text") == [] || PartText(part, "thinking") == []
  {
  }

  /**
   * `extract_message_text`: the message's "text" parts and "thinking" parts, each concatenated
   * in order; parts of other types, and content that is not an array, add nothing.
   */
  method ExtractMessageText(message: Json.Value) returns (text: string, thinking: string)
    ensures text == KindText(Items(message, "content"), "text")
    ensures thinking == KindText(Items(message, "content"), "thinking")
  {
    var content := Items(message, "content");
    text, thinking := [], [];
    var i := 0;
    while i < |content|
      invariant 0 <= i <= |content|
      invariant text == KindText(content[..i], "text") && thinking == KindText(content[..i], "thinking")
    {
      assert content[..i + 1][..i] == content[..i];
      var part := content[i];
      if part.Obj? {
        var partType := Json.GetStr(part, "type").UnwrapOr([]);
        var partText := Json.GetStr(part, "text").UnwrapOr([]);
        if partType == "text" {
          text := text + partText;
        } else if partType == "thinking" {
          thinking := thinking + partText;
        }
      }
      i := i + 1;
    }
    assert content[..i] == content;
  }

  // ---- tool results ----

  /** The "text" strings of the object items, in order. */
  function ItemTexts(items: seq<Json.Value>): (r: seq<string>)
    ensures |r| <= |items|
    decreases |items|
  {
    if items == [] then []
    else
      var n := |items| - 1;
      ItemTexts(items[..n]) + (match Json.GetStr(items[n], "text") case Some(t) => [t] case None => [])
  }

  /**
   * `extract_tool_result_text`: string content as it is; array content as the texts of its
   * items joined by newlines; anything else is empty.
   */
  function ToolResultText(part: Json.Value): (r: string)
    ensures Json.GetStr(part, "content").Some? ==> r == Json.GetStr(part, "content").value
    ensures (match Json.Get(part, "content") case Some(Arr(_)) => false case Some(Str(_)) => false case _ => true)
              ==> r == []
  {
    match Json.Get(part, "content")
    case Some(Str(s)) => s
    case Some(Arr(items)) => Join(ItemTexts(items), "\n")
    case _ => []
  }

  /** The id a tool result refers to: "tool_use_id", else "id". */
  function ResultToolId(part: Json.Value): Option<string>
  {
    Json.GetStr(part, "tool_use_id").Or(Json.GetStr(part, "id"))
  }

  /** A "tool_result" part with an id. */
  predicate IsToolResultPart(part: Json.Value)
  {
    Json.GetStr(part, "type") == Some("tool_result") && ResultToolId(part).Some?
  }

  /**
   * One part of a user message: a tool result consumes the record of its tool and reports it
   * with the recorded name and input (else the part's "name", or "ToolResult", and `{}`).
   */
  function ToolResultPart(started: map<string, StartedTool>, part: Json.Value)
    : (r: (map<string, StartedTool>, seq<SemanticEvent>))
    ensures !IsToolResultPart(part) ==> r == (started, [])
    ensures IsToolResultPart(part) ==>
              var id := ResultToolId(part).value;
              && r.0 == started - {id}
              && |r.1| == 1 && r.1[0].ToolResult?
              && r.1[0].resultTool.id == Json.Str(id)
              && r.1[0].result == ToolResultText(part)
              && (id in started ==> r.1[0].resultTool.name == started[id].name
                                    && r.1[0].resultTool.input == started[id].input)
  {
    if !IsToolResultPart(part) then (started, [])
    else
      var id := ResultToolId(part).value;
      var name := if id in started then started[id].name else Json.GetStr(part, "name").UnwrapOr("ToolResult");
      var input := if id in started then started[id].input else Json.EmptyObject;
      (started - {id}, [ToolResult(Tool(Json.Str(id), name, input), ToolResultText(part))])
  }

  /** The parts of a user message, in order. */
  function UserParts(started: map<string, StartedTool>, parts: seq<Json.Value>)
    : (r: (map<string, StartedTool>, seq<SemanticEvent>))
    ensures r.0.Keys <= started.Keys
    ensures forall k :: k in r.0 ==> r.0[k] == started[k]
    ensures |r.1| <= |parts|
    decreases |parts|
  {
    if parts == [] then (started, [])
    else
      var before := UserParts(started, parts[..|parts| - 1]);
      var after := ToolResultPart(before.0, parts[|parts| - 1]);
      (after.0, before.1 + after.1)
  }

  // ---- the line types ----

  /** `assistant`: the message's model is remembered; its text and thinking are reported complete. */
  function AssistantStep(s: ParserState, parsed: Json.Value): (r: (ParserState, seq<SemanticEvent>))
    ensures s.hasText ==> r.0.hasText
    ensures r.0.sessionId == s.sessionId
  {
    match GetObj(parsed, "message")
    case None => (s, [])
    case Some(message) =>
      var text := KindText(Items(message, "content"), "text");
      var thinking := KindText(Items(message, "content"), "thinking");
      (s.(model := Json.GetStr(message, "model").Or(s.model), hasText := s.hasText || text != []),
       (if text != [] then [TextComplete(text)] else []) + (if thinking != [] then [ThinkingComplete(thinking)] else []))
  }

  /** `user`: each tool result in the message. */
  function UserStep(s: ParserState, parsed: Json.Value): (r: (ParserState, seq<SemanticEvent>))
    ensures r.0 == s.(toolNamesById := r.0.toolNamesById)
  {
    match GetObj(parsed, "message")
    case None => (s, [])
    case Some(message) =>
      var results := UserParts(s.toolNamesById, Items(message, "content"));
      (s.(toolNamesById := results.0), results.1)
  }

  /** `message_start`: the input tokens and the model. */
  function MessageStartStep(s: ParserState, parsed: Json.Value): (r: ParserState)
    ensures r == s.(inputTokens := r.inputTokens, model := r.model)
  {
    match GetObj(parsed, "message")
    case None => s
    case Some(message) =>
      var counted := match GetObj(message, "usage")
                     case Some(usage) => s.(inputTokens := Json.GetInt(usage, "input_tokens").UnwrapOr(s.inputTokens))
                     case None => s;
      counted.(model := Json.GetStr(message, "model").Or(s.model))
  }

  /** The output and cache-read token counts a usage object carries. */
  function OutputCounts(s: ParserState, usage: Json.Value): ParserState
  {
    s.(outputTokens := Json.GetInt(usage, "output_tokens").UnwrapOr(s.outputTokens),
       cachedTokens := Json.GetInt(usage, "cache_read_input_tokens").UnwrapOr(s.cachedTokens))
  }

  /** `message_delta`: the output and cache-read tokens. */
  function MessageDeltaStep(s: ParserState, parsed: Json.Value): (r: ParserState)
    ensures r == s.(outputTokens := r.outputTokens, cachedTokens := r.cachedTokens)
  {
    match GetObj(parsed, "usage")
    case Some(usage) => OutputCounts(s, usage)
    case None => s
  }

  /** `tool_<index>`: the id of a block that has none of its own. */
  function IndexId(index: nat): string
  {
    "tool_" + NatToString(index)
  }

  /**
   * `content_block_start`: a `tool_use` block registers a tool at the block's index (its id,
   * else `tool_<index>`; its name, else "Tool"; input `{}` and an empty buffer); a
   * `tool_result` block is reported at once.
   */
  function BlockStartStep(s: ParserState, parsed: Json.Value): (r: (ParserState, seq<SemanticEvent>))
    ensures r.0 == s.(toolsByIndex := r.0.toolsByIndex)
  {
    var index := BlockIndex(parsed);
    match GetObj(parsed, "content_block")
    case None => (s, [])
    case Some(block) =>
      var blockType := Json.GetStr(block, "type").UnwrapOr([]);
      if blockType == "tool_use" then
        var tool := Tool(Json.Get(block, "id").UnwrapOr(Json.Str(IndexId(index))),
                         Json.GetStr(block, "name").UnwrapOr("Tool"), Json.EmptyObject);
        (s.(toolsByIndex := s.toolsByIndex[index := StreamingTool(tool, [])]), [])
      else if blockType == "tool_result" then
        var tool := Tool(Json.Str(ResultToolId(block).UnwrapOr(IndexId(index))),
                         Json.GetStr(block, "name").UnwrapOr("ToolResult"),
                         Json.Get(block, "input").UnwrapOr(Json.EmptyObject));
        (s, [ToolResult(tool, Json.GetStr(block, "content").UnwrapOr([]))])
      else (s, [])
  }

  /**
   * `content_block_delta`: a text delta is reported (and non-empty text counts as text seen), a
   * thinking delta is reported, and a piece of tool input is appended to the buffer of the tool
   * streaming at that index, if any.
   */
  function BlockDeltaStep(s: ParserState, parsed: Json.Value): (r: (ParserState, seq<SemanticEvent>))
    ensures s.hasText ==> r.0.hasText
    ensures r.0.sessionId == s.sessionId
  {
    var index := BlockIndex(parsed);
    match GetObj(parsed, "delta")
    case None => (s, [])
    case Some(delta) =>
      var deltaType := Json.GetStr(delta, "type").UnwrapOr([]);
      if deltaType == "text_delta" then
        var text := Json.GetStr(delta, "text").UnwrapOr([]);
        (s.(hasText := s.hasText || text != []), [TextDelta(text)])
      else if deltaType == "thinking_delta" then
        (s, [ThinkingDelta(Json.GetStr(delta, "text").UnwrapOr([]))])
      else if deltaType == "input_json_delta" && index in s.toolsByIndex then
        var streaming := s.toolsByIndex[index];
        var piece := Json.GetStr(delta, "partial_json").UnwrapOr([]);
        (s.(toolsByIndex := s.toolsByIndex[index := streaming.(inputBuffer := streaming.inputBuffer + piece)]), [])
      else (s, [])
  }

  /** A finished tool's input: `{}` for a blank buffer, the parsed buffer, or `{"raw": buffer}`. */
  function ToolInput(buffer: string, parse: string -> Option<Json.Value>): (r: Json.Value)
    ensures IsBlank(buffer) ==> r == Json.EmptyObject
    ensures !IsBlank(buffer) && parse(buffer).Some? ==> r == parse(buffer).value
    ensures !IsBlank(buffer) && parse(buffer).None? ==> r == Json.Obj(map["raw" := Json.Str(buffer)])
  {
    if IsBlank(buffer) then Json.EmptyObject
    else
      match parse(buffer)
      case Some(v) => v
      case None => Json.Obj(map["raw" := Json.Str(buffer)])
  }

  /** The key a started tool is recorded under: its id when that is a string, else "". */
  function RecordKey(tool: Tool): string
  {
    match tool.id
    case Str(id) => id
    case _ => []
  }

  /**
   * `content_block_stop`: the tool streaming at that index, if any, is taken out, given its
   * input, recorded by id and reported started.
   */
  function BlockStopStep(s: ParserState, parsed: Json.Value, parse: string -> Option<Json.Value>)
    : (r: (ParserState, seq<SemanticEvent>))
    ensures r.0.hasText == s.hasText && r.0.sessionId == s.sessionId
  {
    var index := BlockIndex(parsed);
    if index !in s.toolsByIndex then (s, [])
    else
      var streaming := s.toolsByIndex[index];
      var input := ToolInput(streaming.inputBuffer, parse);
      var tool := streaming.tool.(input := input);
      (s.(toolsByIndex := s.toolsByIndex - {index},
          toolNamesById := s.toolNamesById[RecordKey(tool) := StartedTool(tool.name, input)]),
       [ToolStart(tool)])
  }

  /** The final answer a `result` line reports, when no text was seen yet and it is not blank. */
  function ResultText(s: ParserState, parsed: Json.Value): (r: seq<SemanticEvent>)
    ensures r != [] <==> !s.hasText && Json.GetStr(parsed, "result").Some? && !IsBlank(Json.GetStr(parsed, "result").value)
    ensures r != [] ==> r == [TextComplete(Json.GetStr(parsed, "result").value)]
  {
    if s.hasText then []
    else
      match Json.GetStr(parsed, "result")
      case Some(result) => if !IsBlank(result) then [TextComplete(result)] else []
      case None => []
  }

  /** The token counts a `result` line's usage carries. */
  function ResultCounts(s: ParserState, parsed: Json.Value): ParserState
  {
    match GetObj(parsed, "usage")
    case Some(usage) => OutputCounts(s.(inputTokens := Json.GetInt(usage, "input_tokens").UnwrapOr(s.inputTokens)), usage)
    case None => s
  }

  /** The counted tokens. */
  function StateUsage(s: ParserState): Usage
  {
    Usage(s.inputTokens, s.outputTokens, s.cachedTokens)
  }

  /**
   * `result`: the final answer unless text was seen, then the session id, model and token counts
   * the line carries; the turn is reported complete, and the session too when its id is known.
   */
  function ResultStep(s: ParserState, parsed: Json.Value): (r: (ParserState, seq<SemanticEvent>))
    ensures s.hasText ==> r.0.hasText
    ensures s.sessionId.Some? ==> r.0.sessionId.Some?
  {
    var text := ResultText(s, parsed);
    var named := s.(hasText := s.hasText || text != [],
                    sessionId := Json.GetStr(parsed, "session_id").Or(s.sessionId),
                    model := Json.GetStr(parsed, "model").Or(s.model));
    var after := ResultCounts(named, parsed);
    var usage := StateUsage(after);
    (after, text + [TurnComplete(usage, after.model)]
              + (if after.sessionId.Some? then [SessionComplete(after.sessionId.value, Some(usage), after.model)] else []))
  }

  /** An error line is a rate limit when its lower-cased message says so. */
  predicate IsRateLimitMessage(message: string)
  {
    var lower := Lower(message);
    Contains(lower, "rate limit") || Contains(lower, "too many requests") || Contains(lower, "overloaded")
  }

  /** `error`: a rate-limit notice, or an error carrying the message (else "Unknown error") and the line. */
  function ErrorEvent(parsed: Json.Value): (r: SemanticEvent)
    ensures var message := Json.GetStr(parsed, "message").UnwrapOr("Unknown error");
            && (r.RateLimited? <==> IsRateLimitMessage(message))
            && (r.Error? ==> r == Error(message, parsed))
            && (r.RateLimited? ==> r.retryAfterMs == Json.Get(parsed, "retry_after_ms").Or(Json.Get(parsed, "retry_after")))
  {
    var message := Json.GetStr(parsed, "message").UnwrapOr("Unknown error");
    if IsRateLimitMessage(message) then RateLimited(Json.Get(parsed, "retry_after_ms").Or(Json.Get(parsed, "retry_after")))
    else Error(message, parsed)
  }

  /** The event type of a line: its "type" when that is a string, else "". */
  function EventType(parsed: Json.Value): string
  {
    Json.GetStr(parsed, "type").UnwrapOr([])
  }

  /** An object line, dispatched on its type; lines of other types change nothing. */
  function ObjectStep(s: ParserState, parsed: Json.Value, parse: string -> Option<Json.Value>)
    : (r: (ParserState, seq<SemanticEvent>))
    ensures s.hasText ==> r.0.hasText
    ensures s.sessionId.Some? ==> r.0.sessionId.Some?
  {
    var t := EventType(parsed);
    if t == "assistant" then AssistantStep(s, parsed)
    else if t == "user" then UserStep(s, parsed)
    else if t == "message_start" then (MessageStartStep(s, parsed), [])
    else if t == "message_delta" then (MessageDeltaStep(s, parsed), [])
    else if t == "content_block_start" then BlockStartStep(s, parsed)
    else if t == "content_block_delta" then BlockDeltaStep(s, parsed)
    else if t == "content_block_stop" then BlockStopStep(s, parsed, parse)
    else if t == "result" then ResultStep(s, parsed)
    else if t == "error" then (s, [ErrorEvent(parsed)])
    else (s, [])
  }

  /** The body of the per-line loop: unwrap a stream event, then handle an object line. */
  function Step(state: ParserState, raw: Json.Value, parse: string -> Option<Json.Value>)
    : (r: (ParserState, seq<SemanticEvent>))
    ensures state.hasText ==> r.0.hasText
    ensures state.sessionId.Some? ==> r.0.sessionId.Some?
  {
    var parsed := UnwrapStreamEvent(raw);
    if parsed.Obj? then ObjectStep(state, parsed, parse) else (state, [])
  }

  /** `Step` with the JSON parser fixed, as the line driver takes it. */
  function StepWith(parse: string -> Option<Json.Value>): (ParserState, Json.Value) -> (ParserState, seq<SemanticEvent>)
  {
    (s: ParserState, v: Json.Value) => Step(s, v, parse)
  }

  /** Parsing a run's lines from a state. */
  function ParseRun(state: ParserState, lines: seq<string>, parse: string -> Option<Json.Value>)
    : (ParserState, seq<SemanticEvent>)
  {
    ParseLines(StepWith(parse), state, lines, parse)
  }

  // ---- what the steps keep ----

  /** Once text was seen for a run it stays seen, and a known session id stays known. */
  lemma {:induction false} ParseRunKeepsTextSeen(s: ParserState, lines: seq<string>, parse: string -> Option<Json.Value>)
    ensures s.hasText ==> ParseRun(s, lines, parse).0.hasText
    ensures s.sessionId.Some? ==> ParseRun(s, lines, parse).0.sessionId.Some?
    decreases |lines|
  {
    if lines != [] {
      ParseRunKeepsTextSeen(s, lines[..|lines| - 1], parse);
      var before := ParseRun(s, lines[..|lines| - 1], parse);
      match AcceptedLine(lines[|lines| - 1], parse)
      case Some(v) =>
      case None =>
    }
  }

  /** A line of the given type. */
  predicate IsLineOfType(v: Json.Value, eventType: string)
  {
    v.Obj? && Json.GetStr(v, "type") == Some(eventType)
  }

  /** A line that is not a stream-event wrapper is handled as it is. */
  lemma PlainLine(s: ParserState, v: Json.Value, t: string, parse: string -> Option<Json.Value>)
    requires IsLineOfType(v, t) && t != "stream_event"
    ensures EventType(v) == t && Step(s, v, parse) == ObjectStep(s, v, parse)
  {
  }

  lemma UserLine(s: ParserState, v: Json.Value, parse: string -> Option<Json.Value>)
    requires IsLineOfType(v, "user")
    ensures Step(s, v, parse) == UserStep(s, v)
  {
    PlainLine(s, v, "user", parse);
  }

  lemma ResultLine(s: ParserState, v: Json.Value, parse: string -> Option<Json.Value>)
    requires IsLineOfType(v, "result")
    ensures Step(s, v, parse) == ResultStep(s, v)
  {
    PlainLine(s, v, "result", parse);
  }

  lemma AssistantLine(s: ParserState, v: Json.Value, parse: string -> Option<Json.Value>)
    requires IsLineOfType(v, "assistant")
    ensures Step(s, v, parse) == AssistantStep(s, v)
  {
    PlainLine(s, v, "assistant", parse);
  }

  lemma BlockStartLine(s: ParserState, v: Json.Value, parse: string -> Option<Json.Value>)
    requires IsLineOfType(v, "content_block_start")
    ensures Step(s, v, parse) == BlockStartStep(s, v)
  {
    PlainLine(s, v, "content_block_start", parse);
  }

  lemma BlockDeltaLine(s: ParserState, v: Json.Value, parse: string -> Option<Json.Value>)
    requires IsLineOfType(v, "content_block_delta")
    ensures Step(s, v, parse) == BlockDeltaStep(s, v)
  {
    PlainLine(s, v, "content_block_delta", parse);
  }

  lemma BlockStopLineStep(s: ParserState, v: Json.Value, parse: string -> Option<Json.Value>)
    requires IsLineOfType(v, "content_block_stop")
    ensures Step(s, v, parse) == BlockStopStep(s, v, parse)
  {
    PlainLine(s, v, "content_block_stop", parse);
  }

  /**
   * A `result` line reports the final answer only when no text was seen for the run and the
   * answer is not blank; afterwards text counts as seen exactly when it was before or the answer
   * was reported. The turn is always reported complete, with the counted tokens.
   */
  lemma ResultReportsTextOnce(s: ParserState, v: Json.Value, parse: string -> Option<Json.Value>)
    requires IsLineOfType(v, "result")
    ensures var r := Step(s, v, parse);
            var answer := Json.GetStr(v, "result");
            var reported := !s.hasText && answer.Some? && !IsBlank(answer.value);
            && (reported ==> r.1[0] == TextComplete(answer.value))
            && (forall i :: 0 <= i < |r.1| && r.1[i].TextComplete? ==> reported && i == 0)
            && r.0.hasText == (s.hasText || reported)
            && TurnComplete(StateUsage(r.0), r.0.model) in r.1
  {
    ResultLine(s, v, parse);
    var r := ResultStep(s, v);
    var text := ResultText(s, v);
    assert r.1[|text|] == TurnComplete(StateUsage(r.0), r.0.model);
  }

  /** An `assistant` line with text reports it complete once and marks text as seen. */
  lemma AssistantTextIsSeen(s: ParserState, v: Json.Value, parse: string -> Option<Json.Value>)
    requires IsLineOfType(v, "assistant") && GetObj(v, "message").Some?
    ensures var text := KindText(Items(GetObj(v, "message").value, "content"), "text");
            var r := Step(s, v, parse);
            && r.0.hasText == (s.hasText || text != [])
            && (text != [] ==> r.1[0] == TextComplete(text))
            && (forall i :: 0 <= i < |r.1| && r.1[i].TextComplete? ==> i == 0 && text != [])
  {
    AssistantLine(s, v, parse);
  }

  /**
   * The adapter's own test: after an assistant message with text, a `result` line with the same
   * answer reports no second text, but still completes the turn.
   */
  lemma ResultAfterAssistantAddsNoText(s: ParserState, assistant: Json.Value, result: Json.Value,
                                        parse: string -> Option<Json.Value>)
    requires IsLineOfType(assistant, "assistant") && GetObj(assistant, "message").Some?
    requires KindText(Items(GetObj(assistant, "message").value, "content"), "text") != []
    requires IsLineOfType(result, "result")
    ensures var first := Step(s, assistant, parse);
            var second := Step(first.0, result, parse);
            && (forall i :: 0 <= i < |second.1| && second.1[i].TextComplete? ==> false)
            && TurnComplete(StateUsage(second.0), second.0.model) in second.1
  {
    AssistantTextIsSeen(s, assistant, parse);
    ResultReportsTextOnce(Step(s, assistant, parse).0, result, parse);
  }

  // ---- the tool lifecycle ----

  /** The line that opens a `tool_use` block at `index`. */
  function ToolUseStartLine(index: nat, id: string, name: string): Json.Value
  {
    Json.Obj(map["type" := Json.Str("content_block_start"), "index" := Json.Num(index),
                 "content_block" := Json.Obj(map["type" := Json.Str("tool_use"), "id" := Json.Str(id),
                                                 "name" := Json.Str(name)])])
  }

  /** The line that streams a piece of a tool's input at `index`. */
  function InputDeltaLine(index: nat, piece: string): Json.Value
  {
    Json.Obj(map["type" := Json.Str("content_block_delta"), "index" := Json.Num(index),
                 "delta" := Json.Obj(map["type" := Json.Str("input_json_delta"), "partial_json" := Json.Str(piece)])])
  }

  /** The line that closes the block at `index`. */
  function BlockStopLine(index: nat): Json.Value
  {
    Json.Obj(map["type" := Json.Str("content_block_stop"), "index" := Json.Num(index)])
  }

  /** A tool result for `id`. */
  function ToolResultPartOf(id: string, content: string): Json.Value
  {
    Json.Obj(map["type" := Json.Str("tool_result"), "tool_use_id" := Json.Str(id), "content" := Json.Str(content)])
  }

  /** A user message with one tool result for `id`. */
  function ToolResultLine(id: string, content: string): Json.Value
  {
    Json.Obj(map["type" := Json.Str("user"),
                 "message" := Json.Obj(map["content" := Json.Arr([ToolResultPartOf(id, content)])])])
  }

  lemma UserPartsOne(started: map<string, StartedTool>, part: Json.Value)
    ensures UserParts(started, [part]) == ToolResultPart(started, part)
  {
    assert [part][..0] == [];
    var r := ToolResultPart(started, part);
    assert [] + r.1 == r.1;
  }

  lemma ToolUseStartRegisters(s: ParserState, index: nat, id: string, name: string, parse: string -> Option<Json.Value>)
    ensures Step(s, ToolUseStartLine(index, id, name), parse)
            == (s.(toolsByIndex := s.toolsByIndex[index := StreamingTool(Tool(Json.Str(id), name, Json.EmptyObject), [])]), [])
  {
    var v := ToolUseStartLine(index, id, name);
    BlockStartLine(s, v, parse);
    assert BlockIndex(v) == index;
  }

  lemma InputDeltaAppends(s: ParserState, index: nat, piece: string, parse: string -> Option<Json.Value>)
    requires index in s.toolsByIndex
    ensures var streaming := s.toolsByIndex[index];
            Step(s, InputDeltaLine(index, piece), parse)
            == (s.(toolsByIndex := s.toolsByIndex[index := streaming.(inputBuffer := streaming.inputBuffer + piece)]), [])
  {
    var v := InputDeltaLine(index, piece);
    BlockDeltaLine(s, v, parse);
    assert BlockIndex(v) == index;
  }

  lemma BlockStopStarts(s: ParserState, index: nat, parse: string -> Option<Json.Value>)
    requires index in s.toolsByIndex
    ensures var streaming := s.toolsByIndex[index];
            var input := ToolInput(streaming.inputBuffer, parse);
            var tool := streaming.tool.(input := input);
            Step(s, BlockStopLine(index), parse)
            == (s.(toolsByIndex := s.toolsByIndex - {index},
                   toolNamesById := s.toolNamesById[RecordKey(tool) := StartedTool(tool.name, input)]),
                [ToolStart(tool)])
  {
    var v := BlockStopLine(index);
    BlockStopLineStep(s, v, parse);
    assert BlockIndex(v) == index;
  }

  lemma ToolResultConsumes(s: ParserState, id: string, content: string, parse: string -> Option<Json.Value>)
    requires id in s.toolNamesById
    ensures var started := s.toolNamesById[id];
            Step(s, ToolResultLine(id, content), parse)
            == (s.(toolNamesById := s.toolNamesById - {id}),
                [ToolResult(Tool(Json.Str(id), started.name, started.input), content)])
  {
    var v := ToolResultLine(id, content);
    var part := ToolResultPartOf(id, content);
    UserLine(s, v, parse);
    assert Items(GetObj(v, "message").value, "content") == [part];
    UserPartsOne(s.toolNamesById, part);
    assert IsToolResultPart(part) && ResultToolId(part) == Some(id);
    assert ToolResultText(part) == content;
  }

  /**
   * A tool use opened, fed one piece of input and closed at a free index: it is reported started
   * with the parsed input, recorded under its id, and the index is free again.
   */
  lemma {:induction false} StreamedToolStarts(s: ParserState, index: nat, id: string, name: string, piece: string,
                                              parse: string -> Option<Json.Value>)
    requires index !in s.toolsByIndex
    ensures var s1 := Step(s, ToolUseStartLine(index, id, name), parse).0;
            var s2 := Step(s1, InputDeltaLine(index, piece), parse).0;
            var stop := Step(s2, BlockStopLine(index), parse);
            var tool := Tool(Json.Str(id), name, ToolInput(piece, parse));
            && stop.1 == [ToolStart(tool)]
            && stop.0.toolsByIndex == s.toolsByIndex
            && stop.0.toolNamesById == s.toolNamesById[id := StartedTool(name, tool.input)]
  {
    var s2 := StreamedToolBuffered(s, index, id, name, piece, parse);
    BlockStopStarts(s2, index, parse);
    assert RecordKey(Tool(Json.Str(id), name, ToolInput(piece, parse))) == id;
    RemoveAdded(s.toolsByIndex, index, s2.toolsByIndex[index]);
  }

  /** A tool use opened and fed one piece of input is held at its index with that piece buffered. */
  lemma StreamedToolBuffered(s: ParserState, index: nat, id: string, name: string, piece: string,
                             parse: string -> Option<Json.Value>) returns (s2: ParserState)
    ensures s2 == Step(Step(s, ToolUseStartLine(index, id, name), parse).0, InputDeltaLine(index, piece), parse).0
    ensures s2 == s.(toolsByIndex := s.toolsByIndex[index := StreamingTool(Tool(Json.Str(id), name, Json.EmptyObject), piece)])
  {
    ToolUseStartRegisters(s, index, id, name, parse);
    var s1 := Step(s, ToolUseStartLine(index, id, name), parse).0;
    InputDeltaAppends(s1, index, piece, parse);
    s2 := Step(s1, InputDeltaLine(index, piece), parse).0;
    var begun := StreamingTool(Tool(Json.Str(id), name, Json.EmptyObject), []);
    assert s1.toolsByIndex == s.toolsByIndex[index := begun];
    assert begun.(inputBuffer := begun.inputBuffer + piece) == begun.(inputBuffer := piece) by {
      assert [] + piece == piece;
    }
  }

  /** Removing a key just added to a map that lacked it gives the map back. */
  lemma RemoveAdded<K, V>(m: map<K, V>, k: K, v: V)
    requires k !in m
    ensures m[k := v] - {k} == m
  {
  }

  /**
   * The four lines of the adapter's own test (block start, one piece of input, block stop, the
   * user's tool result): the tool is reported started with the parsed input, then reported done
   * under the same id, name and input, and no record of it is left.
   */
  lemma ToolLifecycle(s: ParserState, index: nat, id: string, name: string, piece: string, content: string,
                      parse: string -> Option<Json.Value>)
    requires index !in s.toolsByIndex
    ensures var s1 := Step(s, ToolUseStartLine(index, id, name), parse).0;
            var s2 := Step(s1, InputDeltaLine(index, piece), parse).0;
            var stop := Step(s2, BlockStopLine(index), parse);
            var done := Step(stop.0, ToolResultLine(id, content), parse);
            var tool := Tool(Json.Str(id), name, ToolInput(piece, parse));
            && stop.1 == [ToolStart(tool)]
            && done.1 == [ToolResult(tool, content)]
            && done.0.toolsByIndex == s.toolsByIndex
            && id !in done.0.toolNamesById
  {
    StreamedToolStarts(s, index, id, name, piece, parse);
    var s1 := Step(s, ToolUseStartLine(index, id, name), parse).0;
    var s2 := Step(s1, InputDeltaLine(index, piece), parse).0;
    var stop := Step(s2, BlockStopLine(index), parse);
    ToolResultConsumes(stop.0, id, content, parse);
  }

  // ---- the final answer of a whole output ----

  /** The final answer one line of the output gives: a `result` line's "result", trimmed, when not blank. */
  function LineResult(line: string, parse: string -> Option<Json.Value>): (r: Option<string>)
    ensures r.Some? ==> !IsBlank(r.value) && Trim(r.value) == r.value
  {
    var trimmed := Trim(line);
    if trimmed == [] || trimmed[0] != '{' then None
    else
      match parse(trimmed)
      case None => None
      case Some(parsed) =>
        if Json.GetStr(parsed, "type") != Some("result") then None
        else
          match Json.GetStr(parsed, "result")
          case None => None
          case Some(text) =>
            if IsBlank(text) then None
            else
              TrimTwice(text);
              Some(Trim(text))
  }

  /** The position of the last line that gives an answer. */
  function LastResultIndex(lines: seq<string>, parse: string -> Option<Json.Value>): (r: Option<nat>)
    ensures r.Some? ==> r.value < |lines| && LineResult(lines[r.value], parse).Some?
    ensures r.Some? ==> forall j :: r.value < j < |lines| ==> LineResult(lines[j], parse).None?
    ensures r.None? ==> forall j :: 0 <= j < |lines| ==> LineResult(lines[j], parse).None?
    decreases |lines|
  {
    if lines == [] then None
    else if LineResult(lines[|lines| - 1], parse).Some? then Some(|lines| - 1)
    else
      var r := LastResultIndex(lines[..|lines| - 1], parse);
      assert forall j :: 0 <= j < |lines| - 1 ==> lines[..|lines| - 1][j] == lines[j];
      r
  }

  /** `extract_claude_result_text`: the answer of the last `result` line that has one. */
  function ClaudeResultText(lines: seq<string>, parse: string -> Option<Json.Value>): (r: Option<string>)
    ensures r.None? <==> forall j :: 0 <= j < |lines| ==> LineResult(lines[j], parse).None?
    ensures r.Some? ==> exists j :: 0 <= j < |lines| && LineResult(lines[j], parse) == r
                                   && forall k :: j < k < |lines| ==> LineResult(lines[k], parse).None?
  {
    match LastResultIndex(lines, parse)
    case Some(j) => LineResult(lines[j], parse)
    case None => None
  }

  /** The answer of a prefix, extended by one more line. */
  lemma ClaudeResultTextSnoc(lines: seq<string>, line: string, parse: string -> Option<Json.Value>)
    ensures ClaudeResultText(lines + [line], parse) == LineResult(line, parse).Or(ClaudeResultText(lines, parse))
  {
    assert (lines + [line])[..|lines|] == lines;
  }

  /** The forward scan of `extract_claude_result_text`: every later answer replaces the one kept. */
  method ExtractClaudeResultText(raw: string, parse: string -> Option<Json.Value>) returns (r: Option<string>)
    ensures r == ClaudeResultText(Lines(raw), parse)
  {
    var lines := Lines(raw);
    r := None;
    var i := 0;
    while i < |lines|
      invariant 0 <= i <= |lines|
      invariant r == ClaudeResultText(lines[..i], parse)
    {
      ClaudeResultTextSnoc(lines[..i], lines[i], parse);
      assert lines[..i + 1] == lines[..i] + [lines[i]];
      var trimmed := Trim(lines[i]);
      if trimmed != [] && trimmed[0] == '{' {
        var parsed := parse(trimmed);
        if parsed.Some? && Json.GetStr(parsed.value, "type") == Some("result") {
          var text := Json.GetStr(parsed.value, "result");
          if text.Some? {
            var cleaned := Trim(text.value);
            if cleaned != [] {
              r := Some(cleaned);
            }
          }
        }
      }
      i := i + 1;
    }
    assert lines[..i] == lines;
  }

  /** A text with no whitespace at either end is its own trim. */
  lemma UnpaddedTrim(text: string)
    requires text != [] && !IsWhitespace(text[0]) && !IsWhitespace(text[|text| - 1])
    ensures Trim(text) == text && !IsBlank(text)
  {
  }

  /**
   * The adapter's own test: an init line, an assistant message and a `result` line; the answer
   * is the `result` line's, not the assistant message's text.
   */
  lemma ResultTextOfStream(parse: string -> Option<Json.Value>)
    requires parse("{1}") == Some(Json.Obj(map["type" := Json.Str("system"), "session_id" := Json.Str("abc")]))
    requires parse("{2}") == Some(Json.Obj(map["type" := Json.Str("assistant"), "message" := Json.EmptyObject]))
    requires parse("{3}") == Some(Json.Obj(map["type" := Json.Str("result"), "result" := Json.Str("final answer"),
                                               "session_id" := Json.Str("abc")]))
    ensures ClaudeResultText(["{1}", "{2}", "{3}"], parse) == Some("final answer")
  {
    UnpaddedTrim("{3}");
    UnpaddedTrim("final answer");
    assert LineResult("{3}", parse) == Some("final answer");
  }

  /** The per-run parser states of the adapter. */
  class ClaudeAdapter {
    var parserStates: map<string, ParserState>

    /** `ClaudeAdapter::default`. */
    constructor ()
      ensures parserStates == map[]
    {
      parserStates := map[];
    }

    /**
     * `parse_semantic_events`: the run's lines are parsed from its state (fresh for a new run),
     * the new state is kept for the run, and no other run's state changes.
     */
    method ParseSemanticEvents(runId: string, chunk: string, parse: string -> Option<Json.Value>)
      returns (events: seq<SemanticEvent>)
      modifies this
      ensures var r := ParseRun(StateFor(old(parserStates), runId, InitialState), Lines(chunk), parse);
              parserStates == old(parserStates)[runId := r.0] && events == r.1
    {
      var start := StateFor(parserStates, runId, InitialState);
      var state := start;
      var lines := Lines(chunk);
      events := [];
      var i := 0;
      while i < |lines|
        invariant 0 <= i <= |lines|
        invariant (state, events) == ParseRun(start, lines[..i], parse)
      {
        assert lines[..i + 1][..i] == lines[..i];
        var trimmed := Trim(lines[i]);
        if trimmed != [] && trimmed[0] == '{' {
          var parsed := parse(trimmed);
          if parsed.Some? {
            var next := Step(state, parsed.value, parse);
            state := next.0;
            events := events + next.1;
          }
        }
        i := i + 1;
      }
      assert lines[..i] == lines;
      parserStates := parserStates[runId := state];
    }

    /** `clear_semantic_state`: the run's state is dropped; the next chunk starts afresh. */
    method ClearSemanticState(runId: string)
      modifies this
      ensures parserStates == old(parserStates) - {runId}
    {
      parserStates := parserStates - {runId};
    }
  }
}
