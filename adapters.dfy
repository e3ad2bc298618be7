/**
 * What the two provider adapters (adapters/codex.rs, adapters/claude.rs) share: the validated
 * command they build, the semantic events their stream parsers emit, the JSON codec they are
 * given, the resume-id lookup and the line-by-line driver of the parsers.
 */
module Adapters {
  import opened Wrappers
  import opened Text
  import Json
  import Models
  import Policy
  import KeyOrder

  /**
   * The JSON library the adapters call: `serde_json::from_str`, `to_string` and
   * `to_string_pretty`. None of the three is modelled; they are given.
   */
  datatype JsonCodec = JsonCodec(
    parse: string -> Option<Json.Value>,
    render: Json.Value -> string,
    renderPretty: Json.Value -> string)

  /** `CommandMeta`: what the runner needs besides the command line. */
  datatype CommandMeta = CommandMeta(
    structuredOutputPath: Option<string>,
    structuredOutputSchema: Option<Json.Value>,
    structuredOutputStrict: bool,
    cleanupPaths: seq<string>)

  const NoMeta: CommandMeta := CommandMeta(None, None, false, [])

  /** `ValidatedCommand`: the program, its arguments, working directory, environment and stdin. */
  datatype ValidatedCommand = ValidatedCommand(
    program: string,
    args: seq<string>,
    cwd: string,
    env: map<string, string>,
    stdin: Option<string>,
    meta: CommandMeta)

  /** The `tool` object of a tool event: its id (any JSON value), its name and its input. */
  datatype Tool = Tool(id: Json.Value, name: string, input: Json.Value)

  /** Token counts of a turn. */
  datatype Usage = Usage(inputTokens: int, outputTokens: int, cachedTokens: int)

  /** The semantic events the parsers emit, one constructor per `"type"`. */
  datatype SemanticEvent =
    | SessionComplete(sessionId: string, usage: Option<Usage>, model: Option<string>)
    | TurnComplete(turnUsage: Usage, turnModel: Option<string>)
    | ToolStart(tool: Tool)
    | ToolResult(resultTool: Tool, result: string)
    | TextDelta(text: string)
    | ThinkingDelta(thinking: string)
    | TextComplete(finalText: string)
    | ThinkingComplete(finalThinking: string)
    | RateLimited(retryAfterMs: Option<Json.Value>)
    | Error(message: string, detail: Json.Value)

  /** `v.get(key).cloned().unwrap_or(Value::Null)`. */
  function FieldOrNull(v: Json.Value, key: string): (r: Json.Value)
    ensures Json.Get(v, key).Some? ==> r == Json.Get(v, key).value
    ensures Json.Get(v, key).None? ==> r == Json.Null
  {
    Json.Get(v, key).UnwrapOr(Json.Null)
  }

  /** `v.get(key).and_then(Value::as_object)`: the member when it is an object. */
  function GetObj(v: Json.Value, key: string): (r: Option<Json.Value>)
    ensures r.Some? <==> Json.Get(v, key).Some? && Json.Get(v, key).value.Obj?
    ensures r.Some? ==> r == Json.Get(v, key)
  {
    match Json.Get(v, key)
    case Some(Obj(m)) => Some(Json.Obj(m))
    case _ => None
  }

  /** `GetStr` through an optional object. */
  function OptStr(v: Option<Json.Value>, key: string): Option<string>
  {
    if v.Some? then Json.GetStr(v.value, key) else None
  }

  /** `pick_string`: the first candidate that is present and not empty. */
  function PickString(candidates: seq<Option<string>>): (r: Option<string>)
    ensures r.None? <==> forall i :: 0 <= i < |candidates| ==> candidates[i].None? || candidates[i].value == []
    ensures r.Some? ==> r.value != []
    ensures r.Some? ==> exists i :: 0 <= i < |candidates| && candidates[i] == r
                           && forall j :: 0 <= j < i ==> candidates[j].None? || candidates[j].value == []
  {
    if candidates == [] then None
    else if candidates[0].Some? && candidates[0].value != [] then candidates[0]
    else
      var r := PickString(candidates[1..]);
      assert forall i :: 1 <= i < |candidates| ==> candidates[i] == candidates[1..][i - 1];
      if r.Some? then
        var i :| 0 <= i < |candidates[1..]| && candidates[1..][i] == r
                 && forall j :: 0 <= j < i ==> candidates[1..][j].None? || candidates[1..][j].value == [];
        assert candidates[i + 1] == r;
        r
      else r
  }

  /** `"type": "stream_event"` lines carry the real event in their "event" object. */
  function UnwrapStreamEvent(parsed: Json.Value): (r: Json.Value)
    ensures Json.GetStr(parsed, "type") != Some("stream_event") ==> r == parsed
    ensures r != parsed ==> r.Obj? && Json.Get(parsed, "event") == Some(r)
  {
    if Json.GetStr(parsed, "type") == Some("stream_event") then
      match Json.Get(parsed, "event")
      case Some(Obj(m)) => Json.Obj(m)
      case _ => parsed
    else parsed
  }

  /** The harness's `resume_session_id`, as given. */
  function HarnessResumeId(payload: Models.StartRunPayload): Option<string>
  {
    if payload.harness.Some? then payload.harness.value.resumeSessionId else None
  }

  /** The `__resume_session_id` optional flag, when it is a string. */
  function FlagResumeId(payload: Models.StartRunPayload): Option<string>
  {
    if "__resume_session_id" in payload.optionalFlags && payload.optionalFlags["__resume_session_id"].Str?
    then Some(payload.optionalFlags["__resume_session_id"].s) else None
  }

  /**
   * `resume_session_id` (the same in both adapters): the harness's session id when it is not
   * blank, else the `__resume_session_id` flag when that is a string and not blank; trimmed
   * either way, so never blank and never padded.
   */
  function ResumeSessionId(payload: Models.StartRunPayload): (r: Option<string>)
    ensures r.Some? ==> r.value != [] && Trim(r.value) == r.value
    ensures HarnessResumeId(payload).Some? && !IsBlank(HarnessResumeId(payload).value)
            ==> r == Some(Trim(HarnessResumeId(payload).value))
    ensures HarnessResumeId(payload).None? || IsBlank(HarnessResumeId(payload).value) ==>
              (r.Some? <==> FlagResumeId(payload).Some? && !IsBlank(FlagResumeId(payload).value))
              && (r.Some? ==> r.value == Trim(FlagResumeId(payload).value))
  {
    var h := HarnessResumeId(payload);
    var f := FlagResumeId(payload);
    if h.Some? && Trim(h.value) != [] then
      TrimTwice(h.value);
      Some(Trim(h.value))
    else if f.Some? && Trim(f.value) != [] then
      TrimTwice(f.value);
      Some(Trim(f.value))
    else None
  }

  /** The rendering of a JSON number in a flag value (`Number::to_string`). */
  function NumberText(n: int): string
  {
    IntToString(n)
  }

  /** A line the parsers read: non-blank, starting with '{' once trimmed, and parsing. */
  function AcceptedLine(line: string, parse: string -> Option<Json.Value>): (r: Option<Json.Value>)
    ensures r.Some? ==> Trim(line) != [] && Trim(line)[0] == '{' && r == parse(Trim(line))
    ensures Trim(line) != [] && Trim(line)[0] == '{' ==> r == parse(Trim(line))
  {
    var trimmed := Trim(line);
    if trimmed != [] && trimmed[0] == '{' then parse(trimmed) else None
  }

  /**
   * The driver of `parse_semantic_events`: each accepted line goes through `step`, which
   * updates the run's parser state and yields the line's events; the events are concatenated.
   */
  function ParseLines<S>(step: (S, Json.Value) -> (S, seq<SemanticEvent>), state: S, lines: seq<string>,
                         parse: string -> Option<Json.Value>): (S, seq<SemanticEvent>)
    decreases |lines|
  {
    if lines == [] then (state, [])
    else
      var before := ParseLines(step, state, lines[..|lines| - 1], parse);
      match AcceptedLine(lines[|lines| - 1], parse)
      case Some(v) =>
        var after := step(before.0, v);
        (after.0, before.1 + after.1)
      case None => before
  }

  /**
   * Parsing is line by line: parsing `a + b` is parsing `a`, then parsing `b` from the state
   * `a` left, with the events of both in order. So it does not matter how complete lines are
   * grouped into chunks.
   */
  lemma {:induction false} ParseLinesAppend<S>(step: (S, Json.Value) -> (S, seq<SemanticEvent>), state: S,
                                              a: seq<string>, b: seq<string>, parse: string -> Option<Json.Value>)
    ensures var first := ParseLines(step, state, a, parse);
            var second := ParseLines(step, first.0, b, parse);
            ParseLines(step, state, a + b, parse) == (second.0, first.1 + second.1)
    decreases |b|
  {
    if b == [] {
      assert a + b == a;
      var first := ParseLines(step, state, a, parse);
      assert first.1 + [] == first.1;
      assert (first.0, first.1) == first;
    } else {
      var b' := b[..|b| - 1];
      assert (a + b)[..|a + b| - 1] == a + b';
      assert (a + b)[|a + b| - 1] == b[|b| - 1];
      ParseLinesAppend(step, state, a, b', parse);
      var first := ParseLines(step, state, a, parse);
      var mid := ParseLines(step, first.0, b', parse);
      assert ParseLines(step, state, a + b', parse) == (mid.0, first.1 + mid.1);
      match AcceptedLine(b[|b| - 1], parse)
      case Some(v) =>
        var after := step(mid.0, v);
        assert ParseLines(step, first.0, b, parse) == (after.0, mid.1 + after.1);
        assert ParseLines(step, state, a + b, parse) == (after.0, (first.1 + mid.1) + after.1);
        assert (first.1 + mid.1) + after.1 == first.1 + (mid.1 + after.1);
      case None =>
    }
  }

  /** Lines that are blank, do not open an object or do not parse change nothing and emit nothing. */
  lemma {:induction false} IgnoredLinesChangeNothing<S>(step: (S, Json.Value) -> (S, seq<SemanticEvent>), state: S,
                                                       lines: seq<string>, parse: string -> Option<Json.Value>)
    requires forall i :: 0 <= i < |lines| ==> AcceptedLine(lines[i], parse).None?
    ensures ParseLines(step, state, lines, parse) == (state, [])
    decreases |lines|
  {
    if lines != [] {
      IgnoredLinesChangeNothing(step, state, lines[..|lines| - 1], parse);
    }
  }

  /** A parser's per-run states: `parser_states.entry(run_id).or_default()`. */
  function StateFor<S>(states: map<string, S>, runId: string, default: S): (r: S)
    ensures runId in states ==> r == states[runId]
    ensures runId !in states ==> r == default
  {
    if runId in states then states[runId] else default
  }

  /**
   * The base64 payload of an image's data URL (`extract_base64_data_url` in codex.rs, inline in
   * `build_stream_json_input` in claude.rs): what follows the first "base64,", or all of it.
   */
  function Base64Payload(dataUrl: string): string
  {
    match Find(dataUrl, "base64,")
    case Some(i) => dataUrl[i + 7..]
    case None => dataUrl
  }

  /** The payload is a suffix of the data URL: all of it without a marker, strictly less with one. */
  lemma Base64PayloadIsSuffix(dataUrl: string)
    ensures EndsWith(dataUrl, Base64Payload(dataUrl))
    ensures !Contains(dataUrl, "base64,") ==> Base64Payload(dataUrl) == dataUrl
    ensures Contains(dataUrl, "base64,") ==> |Base64Payload(dataUrl)| <= |dataUrl| - 7
  {
  }

  /** A data URL whose head has no 'b' is cut right after its "base64," marker. */
  lemma PayloadAfterMarker(head: string, data: string)
    requires forall j :: 0 <= j < |head| ==> head[j] != 'b'
    ensures Base64Payload(head + "base64," + data) == data
  {
    var url := head + "base64," + data;
    assert url[|head|..|head| + 7] == "base64,";
    forall j | 0 <= j < |head|
      ensures !MatchesAt(url, "base64,", j)
    {
      assert url[j] == head[j];
    }
    FindFirst(url, "base64,", |head|);
    assert url[|head| + 7..] == data;
  }

  /** A data URL is cut after its marker. */
  lemma Base64PayloadOfDataUrl()
    ensures Base64Payload("data:image/png;base64,iVBOR") == "iVBOR"
  {
    var head := "data:image/png;";
    assert head + "base64," + "iVBOR" == "data:image/png;base64,iVBOR";
    PayloadAfterMarker(head, "iVBOR");
  }

  /** The harness's `continue_session`, false when absent. */
  predicate ContinueSession(payload: Models.StartRunPayload)
  {
    payload.harness.Some? && payload.harness.value.continueSession == Some(true)
  }

  /** The flag keys the command builders pass on: all but the backend's own `__` keys. */
  predicate PassedOn(key: string)
  {
    !Policy.IsInternalFlag(key)
  }
}
