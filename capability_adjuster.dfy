/**
 * The capability adjuster (harness/capability_adjuster.rs): before a run starts, harness
 * options the installed CLI cannot honour are dropped, one warning each, and an MCP
 * configuration that survives makes sure the tool list includes MCP.
 */
module CapabilityAdjuster {
  import opened Wrappers
  import opened Text
  import opened Models

  const RESUME_WARNING := "Resume requested but CLI capability does not support resume flags. Dropping resume request."
  const SCHEMA_WARNING := "Structured output requested but CLI capability does not support schema flags. Dropping structured output."
  const MCP_WARNING := "MCP requested but CLI capability does not support MCP configuration flags. Dropping MCP config."
  const SYSTEM_PROMPT_WARNING := "System prompt requested but CLI capability does not support --system-prompt. Dropping system prompt."
  const APPEND_PROMPT_WARNING := "Append system prompt requested but CLI capability does not support --append-system-prompt. Dropping append system prompt."
  const TOOLS_WARNING := "Tools were requested but CLI capability does not support tool flags. Dropping tools."
  const IMAGES_WARNING := "Images were provided but CLI capability does not support image input flags. Dropping images."
  const MCP_TOOL_WARNING := "MCP servers configured but tools list did not include mcp. Added mcp tool automatically."

  /** The capability map lists `flag` verbatim. */
  predicate Supports(flags: seq<string>, flag: string)
  {
    flag in flags
  }

  /** A prompt given with some non-blank text. */
  predicate HasText(prompt: Option<string>)
  {
    prompt.Some? && !IsBlank(prompt.value)
  }

  /** A list given and non-empty. */
  predicate NonEmpty<T>(items: Option<seq<T>>)
  {
    items.Some? && |items.value| > 0
  }

  predicate DropsResume(h: HarnessRequestOptions, flags: seq<string>)
  {
    (h.resumeSessionId.Some? || h.continueSession == Some(true))
    && !Supports(flags, "--resume") && !Supports(flags, "--continue")
  }

  predicate DropsSchema(h: HarnessRequestOptions, flags: seq<string>)
  {
    h.structuredOutput.Some? && !Supports(flags, "--json-schema") && !Supports(flags, "--output-schema")
  }

  predicate DropsMcp(h: HarnessRequestOptions, flags: seq<string>)
  {
    h.mcp.Some? && !Supports(flags, "--mcp-config") && !Supports(flags, "--config")
  }

  predicate DropsSystemPrompt(h: HarnessRequestOptions, flags: seq<string>)
  {
    HasText(h.systemPrompt) && !Supports(flags, "--system-prompt")
  }

  predicate DropsAppendPrompt(h: HarnessRequestOptions, flags: seq<string>)
  {
    HasText(h.appendSystemPrompt) && !Supports(flags, "--append-system-prompt")
  }

  predicate DropsTools(h: HarnessRequestOptions, flags: seq<string>)
  {
    NonEmpty(h.tools) && !Supports(flags, "--tools") && !Supports(flags, "--allowedTools")
  }

  predicate DropsImages(h: HarnessRequestOptions, flags: seq<string>)
  {
    NonEmpty(h.images) && !Supports(flags, "--image") && !Supports(flags, "--input-format")
  }

  /** MCP survives but the tool list that survives lacks it. */
  predicate AddsMcpTool(h: HarnessRequestOptions, flags: seq<string>)
  {
    h.mcp.Some? && !DropsMcp(h, flags)
    && (DropsTools(h, flags) || h.tools.None? || Mcp !in h.tools.value)
  }

  /** Every requested feature is available and nothing needs adding. */
  predicate FullySupported(h: HarnessRequestOptions, flags: seq<string>)
  {
    !DropsResume(h, flags) && !DropsSchema(h, flags) && !DropsMcp(h, flags) && !DropsSystemPrompt(h, flags)
    && !DropsAppendPrompt(h, flags) && !DropsTools(h, flags) && !DropsImages(h, flags) && !AddsMcpTool(h, flags)
  }

  /** The options the adjuster never touches are carried over. */
  predicate Untouched(out: HarnessRequestOptions, h: HarnessRequestOptions)
  {
    && out.inputFormat == h.inputFormat && out.pipedContent == h.pipedContent
    && out.permissions == h.permissions && out.limits == h.limits
    && out.additionalDirectories == h.additionalDirectories
    && out.cliAllowlist == h.cliAllowlist && out.shellPrelude == h.shellPrelude
  }

  /** The tool list after the tool check, before MCP is added. */
  function KeptTools(h: HarnessRequestOptions, flags: seq<string>): Option<seq<UnifiedTool>>
  {
    if DropsTools(h, flags) then None else h.tools
  }

  /** The options once adjusted to what the CLI supports. */
  function Adjusted(h: HarnessRequestOptions, flags: seq<string>): HarnessRequestOptions
  {
    h.(resumeSessionId := if DropsResume(h, flags) then None else h.resumeSessionId,
       continueSession := if DropsResume(h, flags) then None else h.continueSession,
       structuredOutput := if DropsSchema(h, flags) then None else h.structuredOutput,
       mcp := if DropsMcp(h, flags) then None else h.mcp,
       systemPrompt := if DropsSystemPrompt(h, flags) then None else h.systemPrompt,
       appendSystemPrompt := if DropsAppendPrompt(h, flags) then None else h.appendSystemPrompt,
       images := if DropsImages(h, flags) then None else h.images,
       tools := if AddsMcpTool(h, flags) then Some(KeptTools(h, flags).UnwrapOr([]) + [Mcp]) else KeptTools(h, flags))
  }

  /** The adjustments that come with a warning, in the order they are checked. */
  datatype Adjustment =
    | DroppedResume | DroppedSchema | DroppedMcp | DroppedSystemPrompt
    | DroppedAppendPrompt | DroppedTools | DroppedImages | AddedMcpTool
  {
    /** The warning text recorded for the adjustment. */
    function Message(): string
    {
      match this
      case DroppedResume => RESUME_WARNING
      case DroppedSchema => SCHEMA_WARNING
      case DroppedMcp => MCP_WARNING
      case DroppedSystemPrompt => SYSTEM_PROMPT_WARNING
      case DroppedAppendPrompt => APPEND_PROMPT_WARNING
      case DroppedTools => TOOLS_WARNING
      case DroppedImages => IMAGES_WARNING
      case AddedMcpTool => MCP_TOOL_WARNING
    }
  }

  function WarnIf(condition: bool, a: Adjustment): seq<Adjustment>
  {
    if condition then [a] else []
  }

  /** The adjustments of the resume, schema and MCP checks. */
  function FlagAdjustments(h: HarnessRequestOptions, flags: seq<string>): seq<Adjustment>
  {
    WarnIf(DropsResume(h, flags), DroppedResume) + WarnIf(DropsSchema(h, flags), DroppedSchema)
    + WarnIf(DropsMcp(h, flags), DroppedMcp)
  }

  /** The adjustments of the prompt, tool and image checks. */
  function InputAdjustments(h: HarnessRequestOptions, flags: seq<string>): seq<Adjustment>
  {
    WarnIf(DropsSystemPrompt(h, flags), DroppedSystemPrompt) + WarnIf(DropsAppendPrompt(h, flags), DroppedAppendPrompt)
    + WarnIf(DropsTools(h, flags), DroppedTools) + WarnIf(DropsImages(h, flags), DroppedImages)
  }

  /** The adjustments made, in the order the checks run. */
  function Adjustments(h: HarnessRequestOptions, flags: seq<string>): seq<Adjustment>
  {
    FlagAdjustments(h, flags) + InputAdjustments(h, flags) + WarnIf(AddsMcpTool(h, flags), AddedMcpTool)
  }

  /** The warning texts of a list of adjustments. */
  function Messages(adjustments: seq<Adjustment>): (r: seq<string>)
    ensures |r| == |adjustments|
    ensures forall i :: 0 <= i < |r| ==> r[i] == adjustments[i].Message()
  {
    seq(|adjustments|, i requires 0 <= i < |adjustments| => adjustments[i].Message())
  }

  /** The resume, schema and MCP checks of `apply_harness_capabilities`. */
  method DropUnsupportedFlags(h: HarnessRequestOptions, flags: seq<string>)
    returns (out: HarnessRequestOptions, warnings: seq<Adjustment>)
    ensures out == h.(resumeSessionId := Adjusted(h, flags).resumeSessionId,
                      continueSession := Adjusted(h, flags).continueSession,
                      structuredOutput := Adjusted(h, flags).structuredOutput,
                      mcp := Adjusted(h, flags).mcp)
    ensures warnings == FlagAdjustments(h, flags)
  {
    warnings := [];
    out := h;
    if (out.resumeSessionId.Some? || out.continueSession == Some(true))
       && !Supports(flags, "--resume") && !Supports(flags, "--continue") {
      warnings := warnings + [DroppedResume];
      out := out.(resumeSessionId := None, continueSession := None);
    }
    if out.structuredOutput.Some? && !Supports(flags, "--json-schema") && !Supports(flags, "--output-schema") {
      warnings := warnings + [DroppedSchema];
      out := out.(structuredOutput := None);
    }
    if out.mcp.Some? && !Supports(flags, "--mcp-config") && !Supports(flags, "--config") {
      warnings := warnings + [DroppedMcp];
      out := out.(mcp := None);
    }
  }

  /** The prompt, tool and image checks of `apply_harness_capabilities`. */
  method DropUnsupportedInputs(h: HarnessRequestOptions, flags: seq<string>)
    returns (out: HarnessRequestOptions, warnings: seq<Adjustment>)
    ensures out == h.(systemPrompt := Adjusted(h, flags).systemPrompt,
                      appendSystemPrompt := Adjusted(h, flags).appendSystemPrompt,
                      tools := KeptTools(h, flags),
                      images := Adjusted(h, flags).images)
    ensures warnings == InputAdjustments(h, flags)
  {
    warnings := [];
    out := h;
    if HasText(out.systemPrompt) && !Supports(flags, "--system-prompt") {
      warnings := warnings + [DroppedSystemPrompt];
      out := out.(systemPrompt := None);
    }
    if HasText(out.appendSystemPrompt) && !Supports(flags, "--append-system-prompt") {
      warnings := warnings + [DroppedAppendPrompt];
      out := out.(appendSystemPrompt := None);
    }
    if NonEmpty(out.tools) && !Supports(flags, "--tools") && !Supports(flags, "--allowedTools") {
      warnings := warnings + [DroppedTools];
      out := out.(tools := None);
    }
    if NonEmpty(out.images) && !Supports(flags, "--image") && !Supports(flags, "--input-format") {
      warnings := warnings + [DroppedImages];
      out := out.(images := None);
    }
  }

  /**
   * `apply_harness_capabilities`: clears each unsupported feature with its warning, then adds
   * MCP to the tools when an MCP configuration survives without it.
   */
  method ApplyHarnessCapabilities(input: Option<HarnessRequestOptions>, capability: CapabilityProfile)
    returns (harness: Option<HarnessRequestOptions>, warnings: seq<string>)
    ensures input.None? ==> harness.None? && warnings == []
    ensures input.Some? ==> harness == Some(Adjusted(input.value, capability.supportedFlags))
    ensures input.Some? ==> warnings == Messages(Adjustments(input.value, capability.supportedFlags))
  {
    if input.None? {
      return None, [];
    }
    var h := input.value;
    var flags := capability.supportedFlags;
    var first, w1 := DropUnsupportedFlags(h, flags);
    var out, w2 := DropUnsupportedInputs(first, flags);
    assert InputAdjustments(first, flags) == InputAdjustments(h, flags);
    assert DropsAppendPrompt(first, flags) == DropsAppendPrompt(h, flags);
    assert DropsImages(first, flags) == DropsImages(h, flags);
    assert KeptTools(first, flags) == KeptTools(h, flags);
    assert Adjusted(first, flags).images == Adjusted(h, flags).images;
    assert out == Adjusted(h, flags).(tools := KeptTools(h, flags));
    var made := w1 + w2;
    if out.mcp.Some? {
      var tools := out.tools.UnwrapOr([]);
      if Mcp !in tools {
        tools := tools + [Mcp];
        out := out.(tools := Some(tools));
        made := made + [AddedMcpTool];
      }
    }
    assert made == w1 + w2 + WarnIf(AddsMcpTool(h, flags), AddedMcpTool);
    harness := Some(out);
    warnings := Messages(made);
  }

  /**
   * Each feature is cleared exactly when the CLI lacks every flag for it; blank prompts are
   * kept; the options the adjuster does not look at are carried over.
   */
  lemma AdjustedDropsOnlyUnsupported(h: HarnessRequestOptions, flags: seq<string>)
    ensures var out := Adjusted(h, flags);
            && Untouched(out, h)
            && (out.resumeSessionId != h.resumeSessionId || out.continueSession != h.continueSession ==>
                  !Supports(flags, "--resume") && !Supports(flags, "--continue"))
            && (out.structuredOutput.None? <==> h.structuredOutput.None? || (!Supports(flags, "--json-schema") && !Supports(flags, "--output-schema")))
            && (out.mcp.None? <==> h.mcp.None? || (!Supports(flags, "--mcp-config") && !Supports(flags, "--config")))
            && (h.systemPrompt.Some? && IsBlank(h.systemPrompt.value) ==> out.systemPrompt == h.systemPrompt)
            && (h.appendSystemPrompt.Some? && IsBlank(h.appendSystemPrompt.value) ==> out.appendSystemPrompt == h.appendSystemPrompt)
  {
  }

  /** A surviving MCP configuration always comes with the MCP tool, added at most once. */
  lemma SurvivingMcpHasTool(h: HarnessRequestOptions, flags: seq<string>)
    ensures var out := Adjusted(h, flags);
            && (out.mcp.Some? ==> out.tools.Some? && Mcp in out.tools.value)
            && (KeptTools(h, flags).Some? && Mcp in KeptTools(h, flags).value ==> out.tools == KeptTools(h, flags))
  {
  }

  /** Membership in a list of conditional adjustments, whatever the conditions. */
  lemma InConditionalList(x: Adjustment, c1: bool, c2: bool, c3: bool, c4: bool, c5: bool, c6: bool, c7: bool, c8: bool)
    ensures x in WarnIf(c1, DroppedResume) + WarnIf(c2, DroppedSchema) + WarnIf(c3, DroppedMcp)
                 + (WarnIf(c4, DroppedSystemPrompt) + WarnIf(c5, DroppedAppendPrompt) + WarnIf(c6, DroppedTools)
                    + WarnIf(c7, DroppedImages)) + WarnIf(c8, AddedMcpTool)
            <==> || (x == DroppedResume && c1) || (x == DroppedSchema && c2) || (x == DroppedMcp && c3)
                 || (x == DroppedSystemPrompt && c4) || (x == DroppedAppendPrompt && c5)
                 || (x == DroppedTools && c6) || (x == DroppedImages && c7) || (x == AddedMcpTool && c8)
  {
    InFlagPart(x, c1, c2, c3);
    InInputPart(x, c4, c5, c6, c7);
    WarnIfMember(x, c8, AddedMcpTool);
  }

  /** Membership in the three conditional flag adjustments. */
  lemma InFlagPart(x: Adjustment, c1: bool, c2: bool, c3: bool)
    ensures x in WarnIf(c1, DroppedResume) + WarnIf(c2, DroppedSchema) + WarnIf(c3, DroppedMcp)
            <==> (x == DroppedResume && c1) || (x == DroppedSchema && c2) || (x == DroppedMcp && c3)
  {
    WarnIfMember(x, c1, DroppedResume);
    WarnIfMember(x, c2, DroppedSchema);
    WarnIfMember(x, c3, DroppedMcp);
  }

  /** Membership in the four conditional input adjustments. */
  lemma InInputPart(x: Adjustment, c4: bool, c5: bool, c6: bool, c7: bool)
    ensures x in WarnIf(c4, DroppedSystemPrompt) + WarnIf(c5, DroppedAppendPrompt) + WarnIf(c6, DroppedTools)
                 + WarnIf(c7, DroppedImages)
            <==> || (x == DroppedSystemPrompt && c4) || (x == DroppedAppendPrompt && c5)
                 || (x == DroppedTools && c6) || (x == DroppedImages && c7)
  {
    WarnIfMember(x, c4, DroppedSystemPrompt);
    WarnIfMember(x, c5, DroppedAppendPrompt);
    WarnIfMember(x, c6, DroppedTools);
    WarnIfMember(x, c7, DroppedImages);
  }

  /** An adjustment is in a conditional warning exactly when the condition holds and it is that adjustment. */
  lemma WarnIfMember(x: Adjustment, condition: bool, a: Adjustment)
    ensures x in WarnIf(condition, a) <==> condition && x == a
  {
  }

  /** Each warning is given exactly when its adjustment happens. */
  lemma WarningsMatchAdjustments(h: HarnessRequestOptions, flags: seq<string>)
    ensures var w := Adjustments(h, flags);
            && (DroppedResume in w <==> DropsResume(h, flags))
            && (DroppedSchema in w <==> DropsSchema(h, flags))
            && (DroppedMcp in w <==> DropsMcp(h, flags))
            && (DroppedSystemPrompt in w <==> DropsSystemPrompt(h, flags))
            && (DroppedAppendPrompt in w <==> DropsAppendPrompt(h, flags))
            && (DroppedTools in w <==> DropsTools(h, flags))
            && (DroppedImages in w <==> DropsImages(h, flags))
            && (AddedMcpTool in w <==> AddsMcpTool(h, flags))
  {
    var c1, c2, c3, c4 := DropsResume(h, flags), DropsSchema(h, flags), DropsMcp(h, flags), DropsSystemPrompt(h, flags);
    var c5, c6, c7, c8 := DropsAppendPrompt(h, flags), DropsTools(h, flags), DropsImages(h, flags), AddsMcpTool(h, flags);
    var w := Adjustments(h, flags);
    assert w == WarnIf(c1, DroppedResume) + WarnIf(c2, DroppedSchema) + WarnIf(c3, DroppedMcp)
                + (WarnIf(c4, DroppedSystemPrompt) + WarnIf(c5, DroppedAppendPrompt) + WarnIf(c6, DroppedTools)
                   + WarnIf(c7, DroppedImages)) + WarnIf(c8, AddedMcpTool);
    InConditionalList(DroppedResume, c1, c2, c3, c4, c5, c6, c7, c8);
    InConditionalList(DroppedSchema, c1, c2, c3, c4, c5, c6, c7, c8);
    InConditionalList(DroppedMcp, c1, c2, c3, c4, c5, c6, c7, c8);
    InConditionalList(DroppedSystemPrompt, c1, c2, c3, c4, c5, c6, c7, c8);
    InConditionalList(DroppedAppendPrompt, c1, c2, c3, c4, c5, c6, c7, c8);
    InConditionalList(DroppedTools, c1, c2, c3, c4, c5, c6, c7, c8);
    InConditionalList(DroppedImages, c1, c2, c3, c4, c5, c6, c7, c8);
    InConditionalList(AddedMcpTool, c1, c2, c3, c4, c5, c6, c7, c8);
  }

  /** A request the CLI fully supports comes back unchanged and without a warning. */
  lemma FullySupportedIsUnchanged(h: HarnessRequestOptions, flags: seq<string>)
    ensures Adjustments(h, flags) == [] <==> FullySupported(h, flags)
    ensures FullySupported(h, flags) ==> Adjusted(h, flags) == h
  {
  }
}
