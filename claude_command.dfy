/**
 * The command line of the Claude adapter (`ClaudeAdapter::build_command`, adapters/claude.rs):
 * the arguments of `claude -p`, the stream-json message written on stdin when the run reads its
 * input that way, the environment and the metadata the runner needs. Each segment is specified
 * by a function; the methods push the arguments step by step and are proved to produce what the
 * functions compose.
 */
module ClaudeCommand {
  import opened Wrappers
  import opened Errors
  import opened Text
  import Json
  import opened Models
  import opened Adapters
  import Policy

  /**
   * What `build_command` takes from its surroundings: the temporary directory and `Path::join`,
   * the fresh UUID of the schema file, and the JSON library.
   */
  datatype Host = Host(
    tempDir: string,
    join: (string, string) -> string,
    schemaId: string,
    codec: JsonCodec)

  const BlockedMessage: string := "Claude CLI is blocked by compatibility profile"

  lemma Associative(a: seq<string>, b: seq<string>, c: seq<string>)
    ensures a + b + c == a + (b + c)
  {
  }

  // ---- mode, model and output format ----

  /**
   * A non-interactive run starts with `-p`, then `--continue` when the harness asks to continue
   * the last session, then `--resume <id>` when a session id is known; the two can come together.
   */
  function ModeArgs(payload: StartRunPayload): (r: seq<string>)
    ensures r != [] <==> payload.mode.NonInteractive?
    ensures r != [] ==> r[0] == "-p"
    ensures r != [] && ContinueSession(payload) ==> |r| >= 2 && r[1] == "--continue"
    ensures r != [] && ResumeSessionId(payload).Some? ==>
              var k := if ContinueSession(payload) then 2 else 1;
              |r| == k + 2 && r[k..] == ["--resume", ResumeSessionId(payload).value]
    ensures r != [] && ResumeSessionId(payload).None? ==> |r| == if ContinueSession(payload) then 2 else 1
  {
    if payload.mode.Interactive? then []
    else
      ["-p"] + (if ContinueSession(payload) then ["--continue"] else [])
      + (match ResumeSessionId(payload)
         case Some(id) => ["--resume", id]
         case None => [])
  }

  function ModelArgs(payload: StartRunPayload): (r: seq<string>)
    ensures payload.model.Some? ==> r == ["--model", payload.model.value]
    ensures payload.model.None? ==> r == []
  {
    if payload.model.Some? then ["--model", payload.model.value] else []
  }

  /**
   * The run writes its input as a stream-json message on stdin when the harness asks for that
   * input format, pipes in content that is not blank, or attaches images.
   */
  predicate UseStreamInput(payload: StartRunPayload)
  {
    && payload.harness.Some?
    && var h := payload.harness.value;
       || h.inputFormat == Some("stream-json")
       || (h.pipedContent.Some? && !IsBlank(h.pipedContent.value))
       || (h.images.Some? && h.images.value != [])
  }

  predicate StructuredRequested(payload: StartRunPayload)
  {
    payload.harness.Some? && payload.harness.value.structuredOutput.Some?
  }

  /** JSON output is asked for only with structured output and without stream input. */
  function OutputFormat(payload: StartRunPayload): (r: string)
    ensures r == "json" <==> !UseStreamInput(payload) && StructuredRequested(payload)
    ensures r == "json" || r == "stream-json"
  {
    if UseStreamInput(payload) then "stream-json"
    else if StructuredRequested(payload) then "json"
    else "stream-json"
  }

  /** A non-interactive run names its output format, and asks for every event with stream-json. */
  function FormatArgs(payload: StartRunPayload): (r: seq<string>)
    ensures payload.mode.Interactive? ==> r == []
    ensures payload.mode.NonInteractive? ==>
              |r| >= 2 && r[..2] == ["--output-format", OutputFormat(payload)]
              && ("--verbose" in r <==> OutputFormat(payload) == "stream-json")
              && ("--include-partial-messages" in r <==> OutputFormat(payload) == "stream-json")
  {
    if payload.mode.Interactive? then []
    else
      ["--output-format", OutputFormat(payload)]
      + (if OutputFormat(payload) == "stream-json" then ["--verbose", "--include-partial-messages"] else [])
  }

  /** The arguments before the harness's: mode, model and output format. */
  function HeadArgs(payload: StartRunPayload): seq<string>
  {
    ModeArgs(payload) + ModelArgs(payload) + FormatArgs(payload)
  }

  // ---- the harness: limits, system prompts, tools and permissions ----

  /** `--max-turns` and `--max-budget-usd`, each when its limit is set. */
  function LimitArgs(h: HarnessRequestOptions): (r: seq<string>)
    ensures h.limits.None? ==> r == []
    ensures h.limits.Some? && h.limits.value.maxTurns.Some? ==>
              |r| >= 2 && r[..2] == ["--max-turns", NatToString(h.limits.value.maxTurns.value)]
    ensures h.limits.Some? && h.limits.value.maxBudgetUsd.Some? ==>
              |r| >= 2 && r[|r| - 2..] == ["--max-budget-usd", h.limits.value.maxBudgetUsd.value]
  {
    match h.limits
    case None => []
    case Some(limits) =>
      (if limits.maxTurns.Some? then ["--max-turns", NatToString(limits.maxTurns.value)] else [])
      + (if limits.maxBudgetUsd.Some? then ["--max-budget-usd", limits.maxBudgetUsd.value] else [])
  }

  function SystemPromptArgs(h: HarnessRequestOptions): (r: seq<string>)
    ensures h.systemPrompt.Some? ==> |r| >= 2 && r[..2] == ["--system-prompt", h.systemPrompt.value]
    ensures h.appendSystemPrompt.Some? ==>
              |r| >= 2 && r[|r| - 2..] == ["--append-system-prompt", h.appendSystemPrompt.value]
    ensures h.systemPrompt.None? && h.appendSystemPrompt.None? ==> r == []
  {
    (if h.systemPrompt.Some? then ["--system-prompt", h.systemPrompt.value] else [])
    + (if h.appendSystemPrompt.Some? then ["--append-system-prompt", h.appendSystemPrompt.value] else [])
  }

  /** The name Claude gives each unified tool. */
  function CliToolName(tool: UnifiedTool): (r: string)
    ensures r != [] && !ContainsChar(r, ',') && r[0] != '-'
  {
    var r := match tool
      case FileRead => "Read"
      case FileWrite => "Write"
      case FileEdit => "Edit"
      case FileSearch => "Glob"
      case ContentSearch => "Grep"
      case Shell => "Bash"
      case WebFetch => "WebFetch"
      case WebSearch => "WebSearch"
      case Mcp => "mcp"
      case Task => "Task";
    assert forall i :: 0 <= i < |r| ==> r[i] != ',';
    r
  }

  /** Distinct tools have distinct names. */
  lemma CliToolNameInjective(a: UnifiedTool, b: UnifiedTool)
    requires CliToolName(a) == CliToolName(b)
    ensures a == b
  {
    var x, y := CliToolName(a), CliToolName(b);
    assert |x| == |y| && x[0] == y[0];
    assert x[|x| - 1] == y[|y| - 1];
  }

  function ToolNames(tools: seq<UnifiedTool>): (r: seq<string>)
    ensures |r| == |tools|
    ensures forall i :: 0 <= i < |tools| ==> r[i] == CliToolName(tools[i])
  {
    seq(|tools|, i requires 0 <= i < |tools| => CliToolName(tools[i]))
  }

  predicate Distinct(s: seq<string>)
  {
    forall i, j :: 0 <= i < j < |s| ==> s[i] != s[j]
  }

  /** The names with repeats dropped, each kept where it first occurs. */
  function Dedup(names: seq<string>): (r: seq<string>)
    ensures forall x :: x in r <==> x in names
    ensures Distinct(r)
    ensures |r| <= |names|
    decreases |names|
  {
    if names == [] then []
    else
      var n := |names| - 1;
      var before := Dedup(names[..n]);
      assert forall x :: x in names <==> x in names[..n] || x == names[n];
      if names[n] in names[..n] then before else before + [names[n]]
  }

  /** Names that are already distinct are kept as they are. */
  lemma {:induction false} DedupKeepsDistinct(names: seq<string>)
    requires Distinct(names)
    ensures Dedup(names) == names
    decreases |names|
  {
    if names != [] {
      var n := |names| - 1;
      assert Distinct(names[..n]);
      DedupKeepsDistinct(names[..n]);
      assert names[n] !in names[..n];
      assert names[..n] + [names[n]] == names;
    }
  }

  /** Deduplicating twice is deduplicating once. */
  lemma DedupIdempotent(names: seq<string>)
    ensures Dedup(Dedup(names)) == Dedup(names)
  {
    DedupKeepsDistinct(Dedup(names));
  }

  /** `to_claude_tools`: the names of the tools, first occurrences only, joined with commas. */
  function ToolList(tools: seq<UnifiedTool>): (r: string)
    ensures r == [] <==> tools == []
  {
    var names := Dedup(ToolNames(tools));
    if tools == [] then Join(names, ",")
    else
      assert CliToolName(tools[0]) in names;
      NamesNonEmpty(tools);
      JoinNonEmpty(names, ",");
      Join(names, ",")
  }

  lemma NamesNonEmpty(tools: seq<UnifiedTool>)
    ensures forall i :: 0 <= i < |Dedup(ToolNames(tools))| ==> Dedup(ToolNames(tools))[i] != []
  {
    var names := Dedup(ToolNames(tools));
    forall i | 0 <= i < |names|
      ensures names[i] != []
    {
      assert names[i] in ToolNames(tools);
      var j :| 0 <= j < |tools| && ToolNames(tools)[j] == names[i];
    }
  }

  /** Joining non-empty names gives a non-empty text. */
  lemma JoinNonEmpty(parts: seq<string>, sep: string)
    requires parts != [] && forall i :: 0 <= i < |parts| ==> parts[i] != []
    ensures Join(parts, sep) != []
  {
    if |parts| > 1 {
      assert |Join(parts, sep)| >= |parts[0]|;
    }
  }

  /** The names of the list are the tools' names, each once: it splits back into them. */
  lemma ToolListNamesEachToolOnce(tools: seq<UnifiedTool>)
    requires tools != []
    ensures var names := Split(ToolList(tools), ',');
            && (forall t :: t in tools <==> CliToolName(t) in names)
            && Distinct(names)
  {
    var names := Dedup(ToolNames(tools));
    forall i | 0 <= i < |names|
      ensures !ContainsChar(names[i], ',')
    {
      var t :| t in ToolNames(tools) && t == names[i];
      var j :| 0 <= j < |tools| && ToolNames(tools)[j] == t;
    }
    JoinSplit(names, ',');
    forall t | CliToolName(t) in names
      ensures t in tools
    {
      var j :| 0 <= j < |tools| && ToolNames(tools)[j] == CliToolName(t);
      CliToolNameInjective(tools[j], t);
    }
    forall t | t in tools
      ensures CliToolName(t) in names
    {
      var j :| 0 <= j < |tools| && tools[j] == t;
      assert ToolNames(tools)[j] == CliToolName(t);
    }
  }

  /** Repeated tools are named once, in the order they first appear. */
  lemma ToolListOfRepeats()
    ensures ToolList([Shell, FileRead, Shell]) == "Bash,Read"
  {
    var names := ToolNames([Shell, FileRead, Shell]);
    assert names == ["Bash", "Read", "Bash"];
    assert names[..1] == ["Bash"] && names[..2] == ["Bash", "Read"];
    assert Dedup(names[..1]) == ["Bash"] by { assert names[..1][..0] == []; }
    assert "Read" !in names[..2][..1];
    assert Dedup(names[..2]) == ["Bash", "Read"];
    assert Dedup(names) == ["Bash", "Read"];
  }

  function BypassArgs(permission: UnifiedPermission): (r: seq<string>)
    ensures r != [] <==> permission.autoApprove
  {
    if permission.autoApprove then ["--permission-mode", "bypassPermissions"] else []
  }

  /**
   * The tools and permissions. A non-empty tool list is passed as `--tools`, and, with
   * permissions, as `--allowedTools` too, with `bypassPermissions` on auto-approval; without a
   * tool list, auto-approval alone gives `bypassPermissions`. An empty tool list passes nothing.
   */
  function ToolArgs(h: HarnessRequestOptions): seq<string>
  {
    if h.tools.Some? then
      var mapped := ToolList(h.tools.value);
      if mapped == [] then []
      else
        ["--tools", mapped]
        + (if h.permissions.Some? then ["--allowedTools", mapped] + BypassArgs(h.permissions.value) else [])
    else if h.permissions.Some? then BypassArgs(h.permissions.value)
    else []
  }

  /** What the tool and permission options of the harness produce. */
  lemma ToolArgsShape(h: HarnessRequestOptions)
    ensures var r := ToolArgs(h);
            && (h.tools.Some? && h.tools.value != [] ==>
                  r[..2] == ["--tools", ToolList(h.tools.value)]
                  && ("--allowedTools" in r <==> h.permissions.Some?)
                  && ("--permission-mode" in r <==> h.permissions.Some? && h.permissions.value.autoApprove)
                  && (h.permissions.Some? && h.permissions.value.autoApprove ==> "bypassPermissions" in r))
            && (h.tools.None? ==>
                  (r == ["--permission-mode", "bypassPermissions"] <==> h.permissions.Some? && h.permissions.value.autoApprove)
                  && (r == [] <==> h.permissions.None? || !h.permissions.value.autoApprove))
            && (h.tools == Some([]) ==> r == [])
  {
    if h.tools.Some? && h.tools.value != [] {
      var mapped := ToolList(h.tools.value);
      var r := ToolArgs(h);
      if h.permissions.Some? {
        assert r == ["--tools", mapped, "--allowedTools", mapped] + BypassArgs(h.permissions.value);
        assert r[2] == "--allowedTools";
        if h.permissions.value.autoApprove {
          assert r[4] == "--permission-mode" && r[5] == "bypassPermissions";
        } else {
          assert r == ["--tools", mapped, "--allowedTools", mapped];
          assert mapped != "--permission-mode" by { ToolListIsNotAnOption(h.tools.value); }
        }
      } else {
        assert r == ["--tools", mapped];
        assert mapped != "--permission-mode" && mapped != "--allowedTools" by { ToolListIsNotAnOption(h.tools.value); }
      }
    }
  }

  /** A tool list starts with a tool's name, never with '-'. */
  lemma ToolListIsNotAnOption(tools: seq<UnifiedTool>)
    requires tools != []
    ensures ToolList(tools)[0] != '-'
  {
    var names := Dedup(ToolNames(tools));
    assert CliToolName(tools[0]) in names;
    var first := names[0];
    assert first in ToolNames(tools);
    var j :| 0 <= j < |tools| && ToolNames(tools)[j] == first;
    assert first[0] != '-';
    if |names| > 1 {
      NamesNonEmpty(tools);
      assert Join(names, ",") == first + "," + Join(names[1..], ",");
    }
  }

  // ---- the harness: stream input ----

  function StreamArgs(payload: StartRunPayload): (r: seq<string>)
    ensures r != [] <==> UseStreamInput(payload)
  {
    if UseStreamInput(payload) then ["--input-format", "stream-json"] else []
  }

  function Images(h: HarnessRequestOptions): seq<HarnessImage>
  {
    if h.images.Some? then h.images.value else []
  }

  /** The piped content, when it is not blank. */
  function PipedParts(h: HarnessRequestOptions): (r: seq<string>)
    ensures |r| <= 1
    ensures r != [] <==> h.pipedContent.Some? && !IsBlank(h.pipedContent.value)
  {
    if h.pipedContent.Some? && !IsBlank(h.pipedContent.value) then [h.pipedContent.value] else []
  }

  /** The text of the message: the prompt, then the piped content after a blank line. */
  function StreamText(prompt: string, h: HarnessRequestOptions): string
  {
    Join([prompt] + PipedParts(h), "\n\n")
  }

  /** The text is blank exactly when both the prompt and the piped content are. */
  lemma StreamTextBlank(prompt: string, h: HarnessRequestOptions)
    ensures IsBlank(StreamText(prompt, h)) <==> IsBlank(prompt) && PipedParts(h) == []
  {
    var parts := [prompt] + PipedParts(h);
    if PipedParts(h) == [] {
      assert Join(parts, "\n\n") == prompt;
    } else {
      var piped := PipedParts(h)[0];
      assert parts[1..] == [piped];
      var text := prompt + "\n\n" + piped;
      assert Join(parts, "\n\n") == text;
      assert !IsBlank(piped);
      var i :| 0 <= i < |piped| && !IsWhitespace(piped[i]);
      assert text[|prompt| + 2 + i] == piped[i];
    }
  }

  function TextBlock(text: string): Json.Value
  {
    Json.Obj(map["type" := Json.Str("text"), "text" := Json.Str(text)])
  }

  /** An image, sent inline with the base64 payload of its data URL. */
  function ImageBlock(image: HarnessImage): Json.Value
  {
    Json.Obj(map[
      "type" := Json.Str("image"),
      "source" := Json.Obj(map[
        "type" := Json.Str("base64"),
        "media_type" := Json.Str(image.mimeType),
        "data" := Json.Str(Base64Payload(image.dataUrl))])])
  }

  function ImageBlocks(images: seq<HarnessImage>): (r: seq<Json.Value>)
    ensures |r| == |images|
    ensures forall i :: 0 <= i < |images| ==> r[i] == ImageBlock(images[i])
    decreases |images|
  {
    if images == [] then []
    else ImageBlocks(images[..|images| - 1]) + [ImageBlock(images[|images| - 1])]
  }

  /** The text part when the text is not blank, then one block per image, in order. */
  function Content(prompt: string, h: HarnessRequestOptions): (r: seq<Json.Value>)
    ensures |r| == |Images(h)| + (if IsBlank(StreamText(prompt, h)) then 0 else 1)
    ensures !IsBlank(StreamText(prompt, h)) ==> r[0] == TextBlock(StreamText(prompt, h))
    ensures r[|r| - |Images(h)|..] == ImageBlocks(Images(h))
  {
    var text := StreamText(prompt, h);
    var head := if IsBlank(text) then [] else [TextBlock(text)];
    var images := ImageBlocks(Images(h));
    assert (head + images)[|head|..] == images;
    head + images
  }

  function UserMessage(content: seq<Json.Value>): Json.Value
  {
    Json.Obj(map[
      "type" := Json.Str("user"),
      "message" := Json.Obj(map["role" := Json.Str("user"), "content" := Json.Arr(content)])])
  }

  /**
   * `build_stream_json_input`: one user message holding the content, as a JSON line; nothing
   * without a harness or when there is no content.
   */
  function StreamJsonInput(payload: StartRunPayload, codec: JsonCodec): Option<string>
  {
    if payload.harness.None? then None
    else
      var content := Content(payload.prompt, payload.harness.value);
      if content == [] then None
      else Some(codec.render(UserMessage(content)) + "\n")
  }

  /**
   * There is a message exactly when there is a harness and the prompt or the piped content is
   * not blank, or an image is attached; it is the rendered message followed by a newline.
   */
  lemma StreamJsonInputPresentIff(payload: StartRunPayload, codec: JsonCodec)
    ensures StreamJsonInput(payload, codec).Some? <==>
              payload.harness.Some?
              && (|| !IsBlank(payload.prompt)
                  || PipedParts(payload.harness.value) != []
                  || Images(payload.harness.value) != [])
    ensures StreamJsonInput(payload, codec).Some? ==>
              StreamJsonInput(payload, codec).value
                == codec.render(UserMessage(Content(payload.prompt, payload.harness.value))) + "\n"
  {
    if payload.harness.Some? {
      StreamTextBlank(payload.prompt, payload.harness.value);
    }
  }

  /** Builds the message block by block, the images in their order. */
  method BuildStreamJsonInput(payload: StartRunPayload, codec: JsonCodec) returns (r: Option<string>)
    ensures r == StreamJsonInput(payload, codec)
  {
    if payload.harness.None? {
      return None;
    }
    var h := payload.harness.value;
    var text := StreamText(payload.prompt, h);
    var content: seq<Json.Value> := [];
    if !IsBlank(text) {
      content := [TextBlock(text)];
    }
    content := PushImageBlocks(content, Images(h));
    assert content == Content(payload.prompt, h);
    if content == [] {
      return None;
    }
    r := Some(codec.render(UserMessage(content)) + "\n");
  }

  /** Appends one image block per image, in order. */
  method PushImageBlocks(head: seq<Json.Value>, images: seq<HarnessImage>) returns (content: seq<Json.Value>)
    ensures content == head + ImageBlocks(images)
  {
    content := head;
    var i := 0;
    while i < |images|
      invariant 0 <= i <= |images|
      invariant content == head + ImageBlocks(images[..i])
    {
      ImageBlocksSnoc(images, i);
      content := content + [ImageBlock(images[i])];
      i := i + 1;
    }
    assert images[..i] == images;
  }

  /** The blocks of one more image: those before, then its own. */
  lemma ImageBlocksSnoc(images: seq<HarnessImage>, i: nat)
    requires i < |images|
    ensures ImageBlocks(images[..i + 1]) == ImageBlocks(images[..i]) + [ImageBlock(images[i])]
  {
    assert images[..i + 1][..i] == images[..i];
  }

  // ---- the harness: MCP servers ----

  function OptField(fields: map<string, Json.Value>, key: string, value: Option<Json.Value>): (r: map<string, Json.Value>)
    ensures value.Some? ==> r == fields[key := value.value]
    ensures value.None? ==> r == fields
  {
    if value.Some? then fields[key := value.value] else fields
  }

  function StrValue(s: Option<string>): Option<Json.Value>
  {
    if s.Some? then Some(Json.Str(s.value)) else None
  }

  /** A server's entry: each of its launch settings that is set, under Claude's key. */
  function ServerObject(server: McpServer): (r: Json.Value)
    ensures r.Obj?
    ensures r.fields.Keys <= {"command", "args", "env", "url", "headers", "type"}
    ensures "command" in r.fields <==> server.command.Some?
    ensures "args" in r.fields <==> server.args.Some?
    ensures "env" in r.fields <==> server.env.Some?
    ensures "url" in r.fields <==> server.url.Some?
    ensures "headers" in r.fields <==> server.headers.Some?
    ensures "type" in r.fields <==> server.transport.Some?
    ensures server.command.Some? ==> r.fields["command"] == Json.Str(server.command.value)
    ensures server.transport.Some? ==> r.fields["type"] == Json.Str(server.transport.value)
  {
    var f0: map<string, Json.Value> := map[];
    var f1 := OptField(f0, "command", StrValue(server.command));
    var f2 := OptField(f1, "args", if server.args.Some? then Some(Json.StrArray(server.args.value)) else None);
    var f3 := OptField(f2, "env", if server.env.Some? then Some(Json.StrObject(server.env.value)) else None);
    var f4 := OptField(f3, "url", StrValue(server.url));
    var f5 := OptField(f4, "headers", if server.headers.Some? then Some(Json.StrObject(server.headers.value)) else None);
    var f6 := OptField(f5, "type", StrValue(server.transport));
    Json.Obj(f6)
  }

  /** The servers by name, in order, so that a later server of the same name replaces an earlier one. */
  function ServerMap(servers: seq<McpServer>): map<string, Json.Value>
    decreases |servers|
  {
    if servers == [] then map[]
    else
      var n := |servers| - 1;
      ServerMap(servers[..n])[servers[n].name := ServerObject(servers[n])]
  }

  /** Every server is configured under its name, disabled ones included, and nothing else is. */
  lemma {:induction false} ServerMapNamesEveryServer(servers: seq<McpServer>)
    ensures forall name :: name in ServerMap(servers) <==> exists i :: 0 <= i < |servers| && servers[i].name == name
    decreases |servers|
  {
    if servers != [] {
      var n := |servers| - 1;
      var before := servers[..n];
      ServerMapNamesEveryServer(before);
      assert forall i :: 0 <= i < n ==> before[i] == servers[i];
    }
  }

  /** Under each name stands the last server of that name. */
  lemma {:induction false} ServerMapLastWins(servers: seq<McpServer>, i: nat)
    requires i < |servers| && forall j :: i < j < |servers| ==> servers[j].name != servers[i].name
    ensures servers[i].name in ServerMap(servers) && ServerMap(servers)[servers[i].name] == ServerObject(servers[i])
    decreases |servers|
  {
    var n := |servers| - 1;
    if i < n {
      var before := servers[..n];
      assert before[i] == servers[i];
      assert forall j :: i < j < n ==> before[j] == servers[j];
      ServerMapLastWins(before, i);
    }
  }

  /** `--mcp-config`: the servers under "mcpServers", as pretty-printed JSON. */
  function McpConfigText(servers: seq<McpServer>, codec: JsonCodec): string
  {
    codec.renderPretty(Json.Obj(map["mcpServers" := Json.Obj(ServerMap(servers))]))
  }

  function McpArgs(h: HarnessRequestOptions, codec: JsonCodec): (r: seq<string>)
    ensures h.mcp.Some? <==> r != []
    ensures h.mcp.Some? ==> r == ["--mcp-config", McpConfigText(h.mcp.value.servers, codec)]
  {
    if h.mcp.Some? then ["--mcp-config", McpConfigText(h.mcp.value.servers, codec)] else []
  }

  /** The servers' entries, inserted one by one. */
  method BuildServerMap(servers: seq<McpServer>) returns (entries: map<string, Json.Value>)
    ensures entries == ServerMap(servers)
  {
    entries := map[];
    var i := 0;
    while i < |servers|
      invariant 0 <= i <= |servers|
      invariant entries == ServerMap(servers[..i])
    {
      assert servers[..i + 1][..i] == servers[..i];
      entries := entries[servers[i].name := ServerObject(servers[i])];
      i := i + 1;
    }
    assert servers[..i] == servers;
  }

  // ---- the harness: structured output ----

  function SchemaPath(host: Host): string
  {
    host.join(host.tempDir, "claude-schema-" + host.schemaId + ".json")
  }

  /**
   * Structured output: without stream input, the schema is written to a temporary file named
   * with `--json-schema` and removed afterwards; either way the schema and its strictness (false
   * unless asked) go to the runner.
   */
  function StructuredPart(h: HarnessRequestOptions, stream: bool, host: Host): (r: (seq<string>, CommandMeta))
    ensures h.structuredOutput.None? ==> r == ([], NoMeta)
    ensures h.structuredOutput.Some? ==>
              && r.1.structuredOutputSchema == Some(h.structuredOutput.value.schema)
              && r.1.structuredOutputStrict == (h.structuredOutput.value.strict == Some(true))
              && r.1.structuredOutputPath.None?
    ensures h.structuredOutput.Some? && !stream ==>
              r.0 == ["--json-schema", SchemaPath(host)] && r.1.cleanupPaths == [SchemaPath(host)]
    ensures stream ==> r.0 == [] && r.1.cleanupPaths == []
  {
    match h.structuredOutput
    case None => ([], NoMeta)
    case Some(request) =>
      var strict := request.strict == Some(true);
      if stream then ([], CommandMeta(None, Some(request.schema), strict, []))
      else (["--json-schema", SchemaPath(host)], CommandMeta(None, Some(request.schema), strict, [SchemaPath(host)]))
  }

  // ---- the whole harness ----

  /** The harness's arguments, in the order they are pushed. */
  function HarnessArgs(payload: StartRunPayload, host: Host): seq<string>
  {
    if payload.harness.None? then []
    else
      var h := payload.harness.value;
      LimitArgs(h) + SystemPromptArgs(h) + ToolArgs(h) + StreamArgs(payload) + McpArgs(h, host.codec)
      + StructuredPart(h, UseStreamInput(payload), host).0
  }

  function Meta(payload: StartRunPayload, host: Host): CommandMeta
  {
    if payload.harness.None? then NoMeta
    else StructuredPart(payload.harness.value, UseStreamInput(payload), host).1
  }

  /** The message on stdin, only for a run reading stream input. */
  function Stdin(payload: StartRunPayload, codec: JsonCodec): (r: Option<string>)
    ensures !UseStreamInput(payload) ==> r.None?
  {
    if UseStreamInput(payload) then StreamJsonInput(payload, codec) else None
  }

  /** Each option the harness asks for is among its arguments. */
  lemma HarnessArgsPassOptions(payload: StartRunPayload, host: Host)
    requires payload.harness.Some?
    ensures var h := payload.harness.value;
            var r := HarnessArgs(payload, host);
            && (UseStreamInput(payload) ==> "--input-format" in r && "stream-json" in r)
            && (h.tools.Some? && h.tools.value != [] ==> "--tools" in r && ToolList(h.tools.value) in r)
            && (h.tools.Some? && h.tools.value != [] && h.permissions.Some? ==> "--allowedTools" in r)
            && (h.tools.Some? && h.tools.value != [] && h.permissions.Some? && h.permissions.value.autoApprove ==>
                  "--permission-mode" in r && "bypassPermissions" in r)
            && (h.tools.None? && h.permissions.Some? && h.permissions.value.autoApprove ==>
                  "--permission-mode" in r && "bypassPermissions" in r)
            && (h.mcp.Some? ==> "--mcp-config" in r)
            && (h.structuredOutput.Some? && !UseStreamInput(payload) ==> "--json-schema" in r && SchemaPath(host) in r)
  {
    var h := payload.harness.value;
    HarnessSegments(payload, host);
    ToolArgsShape(h);
    if UseStreamInput(payload) {
      assert StreamArgs(payload) == ["--input-format", "stream-json"];
    }
    if h.mcp.Some? {
      assert McpArgs(h, host.codec)[0] == "--mcp-config";
    }
  }

  /** Every argument of each segment of the harness is among the harness's arguments. */
  lemma HarnessSegments(payload: StartRunPayload, host: Host)
    requires payload.harness.Some?
    ensures var h := payload.harness.value;
            var r := HarnessArgs(payload, host);
            && (forall x :: x in ToolArgs(h) ==> x in r)
            && (forall x :: x in StreamArgs(payload) ==> x in r)
            && (forall x :: x in McpArgs(h, host.codec) ==> x in r)
            && (forall x :: x in StructuredPart(h, UseStreamInput(payload), host).0 ==> x in r)
  {
    var h := payload.harness.value;
    var front := LimitArgs(h) + SystemPromptArgs(h);
    var tools, stream, mcp := ToolArgs(h), StreamArgs(payload), McpArgs(h, host.codec);
    var structured := StructuredPart(h, UseStreamInput(payload), host).0;
    var r := HarnessArgs(payload, host);
    assert r == front + tools + stream + mcp + structured;
  }

  // ---- optional flags ----

  function UnsupportedFlagMessage(key: string): string
  {
    "Unsupported claude flag value type for '" + key + "'."
  }

  /** Claude takes every flag value but null: arrays and objects are passed as JSON text. */
  predicate SupportedValue(v: Json.Value)
  {
    !v.Null?
  }

  /** `--key` for true, nothing for false, `--key value` for the rest. */
  function FlagPair(key: string, v: Json.Value, codec: JsonCodec): (r: seq<string>)
    requires SupportedValue(v)
    ensures v == Json.Bool(false) <==> r == []
    ensures r != [] ==> r[0] == "--" + key
    ensures v.Str? ==> r == ["--" + key, v.s]
    ensures v.Arr? || v.Obj? ==> r == ["--" + key, codec.render(v)]
  {
    match v
    case Bool(b) => if b then ["--" + key] else []
    case Num(n) => ["--" + key, NumberText(n)]
    case Str(s) => ["--" + key, s]
    case Arr(_) => ["--" + key, codec.render(v)]
    case Obj(_) => ["--" + key, codec.render(v)]
  }

  /** The optional flags in key order, the backend's own `__` keys skipped; a null value is an error. */
  function FlagArgs(keys: seq<string>, flags: map<string, Json.Value>, codec: JsonCodec): AppResult<seq<string>>
    requires forall k :: k in keys ==> k in flags
    decreases |keys|
  {
    if keys == [] then Ok([])
    else
      var n := |keys| - 1;
      var before := FlagArgs(keys[..n], flags, codec);
      var key := keys[n];
      if before.Err? || !PassedOn(key) then before
      else if !SupportedValue(flags[key]) then Err(Cli(UnsupportedFlagMessage(key)))
      else Ok(before.value + FlagPair(key, flags[key], codec))
  }

  /** The flags fail exactly when one passed on is null, and then the error names the first. */
  lemma {:induction false} FlagArgsFailIffNull(keys: seq<string>, flags: map<string, Json.Value>, codec: JsonCodec)
    requires forall k :: k in keys ==> k in flags
    ensures FlagArgs(keys, flags, codec).Err? <==> exists i :: 0 <= i < |keys| && PassedOn(keys[i]) && flags[keys[i]].Null?
    ensures FlagArgs(keys, flags, codec).Err? ==>
              exists i :: 0 <= i < |keys| && PassedOn(keys[i]) && flags[keys[i]].Null?
                && FlagArgs(keys, flags, codec).error == Cli(UnsupportedFlagMessage(keys[i]))
                && forall j :: 0 <= j < i && PassedOn(keys[j]) ==> !flags[keys[j]].Null?
    decreases |keys|
  {
    if keys != [] {
      var n := |keys| - 1;
      FlagArgsFailIffNull(keys[..n], flags, codec);
      assert forall i :: 0 <= i < n ==> keys[..n][i] == keys[i];
    }
  }

  /** Each flag passed on with a value other than `false` appears as `--key`. */
  lemma {:induction false} FlagArgsNameEveryFlag(keys: seq<string>, flags: map<string, Json.Value>, codec: JsonCodec, k: string)
    requires forall k :: k in keys ==> k in flags
    requires FlagArgs(keys, flags, codec).Ok?
    requires k in keys && PassedOn(k) && flags[k] != Json.Bool(false)
    ensures "--" + k in FlagArgs(keys, flags, codec).value
    decreases |keys|
  {
    var n := |keys| - 1;
    var before := FlagArgs(keys[..n], flags, codec);
    var all := FlagArgs(keys, flags, codec).value;
    assert before.Ok?;
    if keys[n] == k {
      assert all == before.value + FlagPair(k, flags[k], codec);
      assert all[|before.value|] == "--" + k;
    } else {
      var i :| 0 <= i < |keys| && keys[i] == k;
      assert keys[..n][i] == k;
      FlagArgsNameEveryFlag(keys[..n], flags, codec, k);
    }
  }

  /** The optional flags in key order, stopping at the first null value. */
  method PushFlags(keys: seq<string>, flags: map<string, Json.Value>, codec: JsonCodec) returns (r: AppResult<seq<string>>)
    requires forall k :: k in keys ==> k in flags
    ensures r == FlagArgs(keys, flags, codec)
  {
    var args: seq<string> := [];
    var i := 0;
    while i < |keys|
      invariant 0 <= i <= |keys|
      invariant FlagArgs(keys[..i], flags, codec) == Ok(args)
    {
      assert keys[..i + 1][..i] == keys[..i];
      var key := keys[i];
      if PassedOn(key) {
        match flags[key] {
          case Bool(b) =>
            if b {
              args := args + ["--" + key];
            } else {
              assert args + FlagPair(key, flags[key], codec) == args;
            }
          case Num(n) =>
            args := args + ["--" + key, NumberText(n)];
          case Str(s) =>
            args := args + ["--" + key, s];
          case Arr(_) =>
            args := args + ["--" + key, codec.render(flags[key])];
          case Obj(_) =>
            args := args + ["--" + key, codec.render(flags[key])];
          case Null =>
            r := Err(Cli(UnsupportedFlagMessage(key)));
            FlagErrorPersists(keys, i + 1, flags, codec);
            return;
        }
      }
      i := i + 1;
    }
    assert keys[..i] == keys;
    r := Ok(args);
  }

  lemma {:induction false} FlagErrorPersists(keys: seq<string>, k: nat, flags: map<string, Json.Value>, codec: JsonCodec)
    requires forall key :: key in keys ==> key in flags
    requires k <= |keys| && FlagArgs(keys[..k], flags, codec).Err?
    ensures FlagArgs(keys, flags, codec) == FlagArgs(keys[..k], flags, codec)
    decreases |keys| - k
  {
    if k == |keys| {
      assert keys[..k] == keys;
    } else {
      assert keys[..k + 1][..k] == keys[..k];
      FlagErrorPersists(keys, k + 1, flags, codec);
    }
  }

  // ---- the prompt and the environment ----

  /** A non-interactive run ends with its prompt, unless the prompt goes in on stdin. */
  function PromptArgs(payload: StartRunPayload): (r: seq<string>)
    ensures payload.mode.NonInteractive? && !UseStreamInput(payload) <==> r == [payload.prompt]
    ensures r == [] || r == [payload.prompt]
  {
    if payload.mode.NonInteractive? && !UseStreamInput(payload) then [payload.prompt] else []
  }

  function CommandEnv(payload: StartRunPayload): (r: map<string, string>)
    ensures "CLAUDE_NON_INTERACTIVE" in r <==> payload.mode.NonInteractive?
    ensures r.Keys <= {"CLAUDE_NON_INTERACTIVE"} && (forall k :: k in r ==> r[k] == "1")
  {
    if payload.mode.NonInteractive? then map["CLAUDE_NON_INTERACTIVE" := "1"] else map[]
  }

  // ---- the whole command ----

  /** The command `build_command` returns, or its error. */
  function Command(payload: StartRunPayload, capability: CapabilityProfile, binaryPath: string, host: Host)
    : AppResult<ValidatedCommand>
  {
    if capability.blocked then Err(Cli(BlockedMessage))
    else
      var flags := FlagArgs(Policy.FlagKeys(payload), payload.optionalFlags, host.codec);
      if flags.Err? then Err(flags.error)
      else
        Ok(ValidatedCommand(binaryPath, HeadArgs(payload) + HarnessArgs(payload, host) + flags.value + PromptArgs(payload),
                            payload.cwd, CommandEnv(payload), Stdin(payload, host.codec), Meta(payload, host)))
  }

  /** A profile that blocks the CLI refuses every run. */
  lemma BlockedProfileRefuses(payload: StartRunPayload, capability: CapabilityProfile, binaryPath: string, host: Host)
    requires capability.blocked
    ensures Command(payload, capability, binaryPath, host) == Err(Cli(BlockedMessage))
  {
  }

  /** An unblocked run fails exactly when an optional flag passed on is null. */
  lemma CommandFailsIffNullFlag(payload: StartRunPayload, capability: CapabilityProfile, binaryPath: string, host: Host)
    requires !capability.blocked
    ensures Command(payload, capability, binaryPath, host).Err? <==>
              exists k :: k in payload.optionalFlags && PassedOn(k) && payload.optionalFlags[k].Null?
  {
    var keys := Policy.FlagKeys(payload);
    FlagArgsFailIffNull(keys, payload.optionalFlags, host.codec);
    if exists k :: k in payload.optionalFlags && PassedOn(k) && payload.optionalFlags[k].Null? {
      var k :| k in payload.optionalFlags && PassedOn(k) && payload.optionalFlags[k].Null?;
      var i :| 0 <= i < |keys| && keys[i] == k;
    }
  }

  /** The pieces of a command that was built. */
  lemma Assembled(payload: StartRunPayload, capability: CapabilityProfile, binaryPath: string, host: Host,
                  cmd: ValidatedCommand) returns (flags: seq<string>)
    requires Command(payload, capability, binaryPath, host) == Ok(cmd)
    ensures FlagArgs(Policy.FlagKeys(payload), payload.optionalFlags, host.codec) == Ok(flags)
    ensures cmd.args == HeadArgs(payload) + HarnessArgs(payload, host) + flags + PromptArgs(payload)
    ensures cmd.stdin == Stdin(payload, host.codec) && cmd.meta == Meta(payload, host)
    ensures cmd.env == CommandEnv(payload) && cmd.program == binaryPath && cmd.cwd == payload.cwd
  {
    flags := FlagArgs(Policy.FlagKeys(payload), payload.optionalFlags, host.codec).value;
  }

  /** What the front of a concatenation fixes. */
  lemma Front(front: seq<string>, back: seq<string>)
    ensures (front + back)[..|front|] == front
  {
  }

  lemma InFront(front: seq<string>, middle: seq<string>, back: seq<string>, x: string)
    requires x in front
    ensures x in front + middle + back
  {
  }

  lemma InMiddle(front: seq<string>, middle: seq<string>, back: seq<string>, x: string)
    requires x in middle
    ensures x in front + middle + back
  {
  }

  /** The arguments after the mode segment, which open with the model and the output format. */
  lemma AfterMode(payload: StartRunPayload, capability: CapabilityProfile, binaryPath: string, host: Host,
                  cmd: ValidatedCommand) returns (rest: seq<string>, back: seq<string>)
    requires Command(payload, capability, binaryPath, host) == Ok(cmd)
    ensures cmd.args == ModeArgs(payload) + rest
    ensures rest == ModelArgs(payload) + FormatArgs(payload) + back
  {
    var flags := Assembled(payload, capability, binaryPath, host, cmd);
    rest, back := RegroupHead(ModeArgs(payload), ModelArgs(payload), FormatArgs(payload),
                              HarnessArgs(payload, host), flags, PromptArgs(payload), cmd.args);
  }

  lemma RegroupHead(mode: seq<string>, model: seq<string>, format: seq<string>, harness: seq<string>,
                    flags: seq<string>, prompt: seq<string>, args: seq<string>) returns (rest: seq<string>, back: seq<string>)
    requires args == mode + model + format + harness + flags + prompt
    ensures args == mode + rest && rest == model + format + back
  {
    back := harness + flags + prompt;
    rest := model + format + back;
  }

  /**
   * A non-interactive run opens with `-p`, then `--continue` when continuing, then the session
   * to resume.
   */
  lemma NonInteractiveHead(payload: StartRunPayload, capability: CapabilityProfile, binaryPath: string, host: Host,
                           cmd: ValidatedCommand)
    requires Command(payload, capability, binaryPath, host) == Ok(cmd) && payload.mode.NonInteractive?
    ensures |cmd.args| >= |ModeArgs(payload)| >= 1 && cmd.args[0] == "-p"
    ensures ContinueSession(payload) ==> cmd.args[1] == "--continue"
    ensures ResumeSessionId(payload).Some? ==>
              var k := if ContinueSession(payload) then 2 else 1;
              cmd.args[k..k + 2] == ["--resume", ResumeSessionId(payload).value]
  {
    var rest, _ := AfterMode(payload, capability, binaryPath, host, cmd);
    ModeOfArgs(payload, rest, cmd.args);
  }

  lemma ModeOfArgs(payload: StartRunPayload, rest: seq<string>, args: seq<string>)
    requires payload.mode.NonInteractive? && args == ModeArgs(payload) + rest
    ensures |args| >= |ModeArgs(payload)| >= 1 && args[0] == "-p"
    ensures ContinueSession(payload) ==> args[1] == "--continue"
    ensures ResumeSessionId(payload).Some? ==>
              var k := if ContinueSession(payload) then 2 else 1;
              args[k..k + 2] == ["--resume", ResumeSessionId(payload).value]
  {
    Front(ModeArgs(payload), rest);
  }

  /** A non-interactive run names its output format, and for stream-json asks for verbose, partial events. */
  lemma OutputFormatPassed(payload: StartRunPayload, capability: CapabilityProfile, binaryPath: string, host: Host,
                           cmd: ValidatedCommand)
    requires Command(payload, capability, binaryPath, host) == Ok(cmd) && payload.mode.NonInteractive?
    ensures "--output-format" in cmd.args && OutputFormat(payload) in cmd.args
    ensures OutputFormat(payload) == "stream-json" ==> "--verbose" in cmd.args && "--include-partial-messages" in cmd.args
  {
    var rest, back := AfterMode(payload, capability, binaryPath, host, cmd);
    FormatOfArgs(payload, ModeArgs(payload), ModelArgs(payload), rest, back, cmd.args);
  }

  lemma FormatOfArgs(payload: StartRunPayload, mode: seq<string>, model: seq<string>, rest: seq<string>,
                     back: seq<string>, args: seq<string>)
    requires payload.mode.NonInteractive?
    requires args == mode + rest && rest == model + FormatArgs(payload) + back
    ensures "--output-format" in args && OutputFormat(payload) in args
    ensures OutputFormat(payload) == "stream-json" ==> "--verbose" in args && "--include-partial-messages" in args
  {
    var format := FormatArgs(payload);
    assert format[0] == "--output-format" && format[1] == OutputFormat(payload);
    assert forall x :: x in format ==> x in rest;
  }

  /** Each option the harness asks for is on the command line. */
  lemma HarnessOptionsArePassed(payload: StartRunPayload, capability: CapabilityProfile, binaryPath: string, host: Host,
                                cmd: ValidatedCommand)
    requires Command(payload, capability, binaryPath, host) == Ok(cmd) && payload.harness.Some?
    ensures forall x :: x in HarnessArgs(payload, host) ==> x in cmd.args
  {
    var flags := Assembled(payload, capability, binaryPath, host, cmd);
    Associative(HeadArgs(payload), HarnessArgs(payload, host), flags);
    forall x | x in HarnessArgs(payload, host)
      ensures x in cmd.args
    {
      InMiddle(HeadArgs(payload), HarnessArgs(payload, host), flags + PromptArgs(payload), x);
    }
  }

  /**
   * A run reading stream input gets `--input-format stream-json` and the message on stdin instead
   * of the prompt as an argument; stdin is then empty only when the input format was asked for
   * with a blank prompt and nothing piped or attached. Other runs have no stdin, and a
   * non-interactive one ends with its prompt.
   */
  lemma PromptPlacement(payload: StartRunPayload, capability: CapabilityProfile, binaryPath: string, host: Host,
                        cmd: ValidatedCommand)
    requires Command(payload, capability, binaryPath, host) == Ok(cmd)
    ensures UseStreamInput(payload) ==>
              && "--input-format" in cmd.args
              && cmd.stdin == StreamJsonInput(payload, host.codec)
              && (cmd.stdin.None? <==>
                    IsBlank(payload.prompt) && PipedParts(payload.harness.value) == [] && Images(payload.harness.value) == [])
    ensures !UseStreamInput(payload) ==> cmd.stdin.None?
    ensures !UseStreamInput(payload) && payload.mode.NonInteractive? ==> cmd.args[|cmd.args| - 1] == payload.prompt
  {
    var flags := Assembled(payload, capability, binaryPath, host, cmd);
    if UseStreamInput(payload) {
      HarnessOptionsArePassed(payload, capability, binaryPath, host, cmd);
      HarnessArgsPassOptions(payload, host);
      StreamJsonInputPresentIff(payload, host.codec);
    }
  }

  /**
   * Structured output hands the schema and its strictness to the runner; without stream input
   * the output format is JSON and the schema file is named and scheduled for removal.
   */
  lemma StructuredOutputPassed(payload: StartRunPayload, capability: CapabilityProfile, binaryPath: string, host: Host,
                               cmd: ValidatedCommand)
    requires Command(payload, capability, binaryPath, host) == Ok(cmd) && StructuredRequested(payload)
    ensures var request := payload.harness.value.structuredOutput.value;
            cmd.meta.structuredOutputSchema == Some(request.schema)
            && cmd.meta.structuredOutputStrict == (request.strict == Some(true))
    ensures !UseStreamInput(payload) ==>
              && OutputFormat(payload) == "json"
              && "--json-schema" in cmd.args && SchemaPath(host) in cmd.args
              && cmd.meta.cleanupPaths == [SchemaPath(host)]
    ensures UseStreamInput(payload) ==> cmd.meta.cleanupPaths == []
  {
    var flags := Assembled(payload, capability, binaryPath, host, cmd);
    if !UseStreamInput(payload) {
      HarnessOptionsArePassed(payload, capability, binaryPath, host, cmd);
      HarnessArgsPassOptions(payload, host);
    }
  }

  // ---- the adapter's own tests ----

  lemma SessionIdIsTrimmed()
    ensures !IsBlank("session-abc") && Trim("session-abc") == "session-abc"
  {
    assert "session-abc"[0] == 's' && !IsWhitespace('s');
  }

  /** The payload of the adapter's tests: a non-interactive run on "sonnet" with text output. */
  predicate BasePayload(payload: StartRunPayload)
  {
    && payload.prompt == "hello"
    && payload.model == Some("sonnet")
    && payload.mode.NonInteractive?
    && payload.outputFormat == Some("text")
  }

  /** The resume test: the `__resume_session_id` flag alone is accepted. */
  lemma ResumeRunAccepted(payload: StartRunPayload, capability: CapabilityProfile, binaryPath: string, host: Host)
    requires !capability.blocked && BasePayload(payload) && payload.harness.None?
    requires payload.optionalFlags == map["__resume_session_id" := Json.Str("session-abc")]
    ensures Command(payload, capability, binaryPath, host).Ok?
  {
    CommandFailsIffNullFlag(payload, capability, binaryPath, host);
  }

  /** ... and resumes that session with stream-json output and verbose events. */
  lemma ResumeRunArgs(payload: StartRunPayload, capability: CapabilityProfile, binaryPath: string, host: Host,
                      cmd: ValidatedCommand)
    requires Command(payload, capability, binaryPath, host) == Ok(cmd)
    requires BasePayload(payload) && payload.harness.None?
    requires payload.optionalFlags == map["__resume_session_id" := Json.Str("session-abc")]
    ensures "--resume" in cmd.args && "session-abc" in cmd.args
    ensures "--output-format" in cmd.args && "stream-json" in cmd.args && "--verbose" in cmd.args
  {
    SessionIdIsTrimmed();
    assert ResumeSessionId(payload) == Some("session-abc") && !ContinueSession(payload);
    NonInteractiveHead(payload, capability, binaryPath, host, cmd);
    OutputFormatPassed(payload, capability, binaryPath, host, cmd);
    assert cmd.args[1..3] == ["--resume", "session-abc"];
    assert cmd.args[1] in cmd.args && cmd.args[2] in cmd.args;
  }

  /** The harness of the stream-input test: stream-json input, two tools, auto-approval, piped content. */
  const StreamTestHarness: HarnessRequestOptions := HarnessRequestOptions(
    Some("stream-json"), Some("extra context"), None, None, None, None,
    Some([Shell, FileRead]), Some(UnifiedPermission(ReadOnly, true, false, None)),
    None, None, None, None, None, None, None)

  /** The stream-input test: the run is accepted without optional flags. */
  lemma StreamRunAccepted(payload: StartRunPayload, capability: CapabilityProfile, binaryPath: string, host: Host)
    requires !capability.blocked && payload.optionalFlags == map[]
    ensures Command(payload, capability, binaryPath, host).Ok?
  {
    CommandFailsIffNullFlag(payload, capability, binaryPath, host);
  }

  /** ... and it passes the input format, the tools and the permission mode ... */
  lemma StreamRunArgs(payload: StartRunPayload, capability: CapabilityProfile, binaryPath: string, host: Host,
                      cmd: ValidatedCommand)
    requires Command(payload, capability, binaryPath, host) == Ok(cmd)
    requires payload.harness == Some(StreamTestHarness)
    ensures "--input-format" in cmd.args && "stream-json" in cmd.args
    ensures "--tools" in cmd.args && "--allowedTools" in cmd.args && "--permission-mode" in cmd.args
  {
    HarnessOptionsArePassed(payload, capability, binaryPath, host, cmd);
    StreamTestHarnessOptions(payload, host);
  }

  lemma StreamTestHarnessOptions(payload: StartRunPayload, host: Host)
    requires payload.harness == Some(StreamTestHarness)
    ensures var r := HarnessArgs(payload, host);
            "--input-format" in r && "stream-json" in r && "--tools" in r && "--allowedTools" in r && "--permission-mode" in r
  {
    assert UseStreamInput(payload);
    HarnessArgsPassOptions(payload, host);
  }

  /** ... and writes the message on stdin. */
  lemma StreamRunWritesStdin(payload: StartRunPayload, capability: CapabilityProfile, binaryPath: string, host: Host,
                             cmd: ValidatedCommand)
    requires Command(payload, capability, binaryPath, host) == Ok(cmd)
    requires BasePayload(payload) && payload.harness == Some(StreamTestHarness)
    ensures cmd.stdin.Some?
  {
    StreamTestSendsInput(payload);
    PromptPlacement(payload, capability, binaryPath, host, cmd);
  }

  /** The stream-input test's payload asks for stream input and has a prompt that is not blank. */
  lemma StreamTestSendsInput(payload: StartRunPayload)
    requires BasePayload(payload) && payload.harness == Some(StreamTestHarness)
    ensures UseStreamInput(payload) && !IsBlank(payload.prompt)
  {
    assert !IsWhitespace(payload.prompt[0]);
  }

  // ---- the imperative builder ----

  /** `to_claude_tools`: the names pushed in order, each the first time it is seen. */
  method ToClaudeTools(tools: seq<UnifiedTool>) returns (r: string)
    ensures r == ToolList(tools)
  {
    var names := ToolNames(tools);
    var seen: set<string> := {};
    var out: seq<string> := [];
    var i := 0;
    while i < |names|
      invariant 0 <= i <= |names|
      invariant out == Dedup(names[..i])
      invariant forall x :: x in seen <==> x in out
    {
      assert names[..i + 1][..i] == names[..i];
      if names[i] !in seen {
        seen := seen + {names[i]};
        out := out + [names[i]];
      }
      i := i + 1;
    }
    assert names[..i] == names;
    r := Join(out, ",");
  }

  /** The tool and permission arguments, pushed one by one. */
  method PushTools(h: HarnessRequestOptions) returns (args: seq<string>)
    ensures args == ToolArgs(h)
  {
    args := [];
    if h.tools.Some? {
      var mapped := ToClaudeTools(h.tools.value);
      if mapped != [] {
        args := args + ["--tools", mapped];
        if h.permissions.Some? {
          args := args + ["--allowedTools", mapped] + BypassArgs(h.permissions.value);
        }
      }
    } else if h.permissions.Some? {
      args := args + BypassArgs(h.permissions.value);
    }
  }

  /** `--mcp-config` with the servers' entries, when MCP servers are configured. */
  method PushMcp(h: HarnessRequestOptions, codec: JsonCodec) returns (args: seq<string>)
    ensures args == McpArgs(h, codec)
  {
    args := [];
    if h.mcp.Some? {
      var servers := BuildServerMap(h.mcp.value.servers);
      args := ["--mcp-config", codec.renderPretty(Json.Obj(map["mcpServers" := Json.Obj(servers)]))];
    }
  }

  /** The harness's arguments, the message on stdin and the metadata, pushed option by option. */
  method PushHarness(payload: StartRunPayload, host: Host) returns (args: seq<string>, stdin: Option<string>, meta: CommandMeta)
    requires payload.harness.Some?
    ensures args == HarnessArgs(payload, host) && stdin == Stdin(payload, host.codec) && meta == Meta(payload, host)
  {
    var h := payload.harness.value;
    var tools := PushTools(h);
    args := LimitArgs(h) + SystemPromptArgs(h) + tools;
    stdin := None;
    var stream := UseStreamInput(payload);
    if stream {
      args := args + ["--input-format", "stream-json"];
      stdin := BuildStreamJsonInput(payload, host.codec);
    }
    var mcp := PushMcp(h, host.codec);
    args := args + mcp;
    var structured := StructuredPart(h, stream, host);
    args := args + structured.0;
    meta := structured.1;
  }

  /** `build_command`: the arguments pushed segment by segment, as `Command` composes them. */
  method BuildCommand(payload: StartRunPayload, capability: CapabilityProfile, binaryPath: string, host: Host)
    returns (r: AppResult<ValidatedCommand>)
    ensures r == Command(payload, capability, binaryPath, host)
  {
    if capability.blocked {
      return Err(Cli(BlockedMessage));
    }
    var args := HeadArgs(payload);
    var stdin: Option<string> := None;
    var meta := NoMeta;
    if payload.harness.Some? {
      var harness;
      harness, stdin, meta := PushHarness(payload, host);
      args := args + harness;
    } else {
      assert args == HeadArgs(payload) + HarnessArgs(payload, host);
    }
    var flags := PushFlags(Policy.FlagKeys(payload), payload.optionalFlags, host.codec);
    if flags.Err? {
      return Err(flags.error);
    }
    args := args + flags.value + PromptArgs(payload);
    r := Ok(ValidatedCommand(binaryPath, args, payload.cwd, CommandEnv(payload), stdin, meta));
  }
}
