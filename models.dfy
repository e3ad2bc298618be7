/**
 * The records the backend passes around (models.rs and the harness option
 * types as their use sites read them). Timestamps are integers; the
 * floating-point budget limit is kept as its rendered decimal text.
 */
module Models {
  import opened Wrappers
  import Json

  datatype Provider = Codex | Claude
  {
    /** `Provider::as_str`. */
    function Name(): string
    {
      match this
      case Codex => "codex"
      case Claude => "claude"
    }
  }

  datatype RunMode = NonInteractive | Interactive

  datatype RunStatus = Queued | Running | Completed | Failed | Canceled | Interrupted
  {
    /** `RunStatus::as_str`. */
    function Name(): string
    {
      match this
      case Queued => "queued"
      case Running => "running"
      case Completed => "completed"
      case Failed => "failed"
      case Canceled => "canceled"
      case Interrupted => "interrupted"
    }
  }

  datatype SandboxMode = ReadOnly | WorkspaceWrite | FullAccess

  datatype ApprovalPolicy = Untrusted | OnFailure | OnRequest | Never

  datatype UnifiedTool =
    | FileRead | FileWrite | FileEdit | FileSearch | ContentSearch
    | Shell | WebFetch | WebSearch | Mcp | Task

  datatype UnifiedPermission = UnifiedPermission(
    sandboxMode: SandboxMode,
    autoApprove: bool,
    networkAccess: bool,
    approvalPolicy: Option<ApprovalPolicy>)

  datatype HarnessLimits = HarnessLimits(
    timeoutMs: Option<nat>,
    maxTurns: Option<nat>,
    maxBudgetUsd: Option<string>,
    maxToolResultLines: Option<nat>)

  datatype StructuredOutputRequest = StructuredOutputRequest(schema: Json.Value, strict: Option<bool>)

  /** An MCP server, with the fields the adapters read (`type` is the transport). */
  datatype McpServer = McpServer(
    name: string,
    command: Option<string>,
    args: Option<seq<string>>,
    env: Option<map<string, string>>,
    url: Option<string>,
    headers: Option<map<string, string>>,
    transport: Option<string>,
    enabled: Option<bool>,
    enabledTools: Option<seq<string>>,
    disabledTools: Option<seq<string>>)

  datatype McpConfig = McpConfig(servers: seq<McpServer>)

  datatype HarnessImage = HarnessImage(id: string, mimeType: string, dataUrl: string)

  datatype CliAllowlistMode = Shims | Wrapper

  datatype CliAllowlistEntry = CliAllowlistEntry(name: string, path: string)

  datatype CliAllowlistConfig = CliAllowlistConfig(
    entries: seq<CliAllowlistEntry>,
    mode: Option<CliAllowlistMode>,
    wrapperName: Option<string>,
    binDir: Option<string>,
    keepBinDir: Option<bool>)

  datatype ShellPrelude = ShellPrelude(content: string)

  datatype HarnessRequestOptions = HarnessRequestOptions(
    inputFormat: Option<string>,
    pipedContent: Option<string>,
    resumeSessionId: Option<string>,
    continueSession: Option<bool>,
    systemPrompt: Option<string>,
    appendSystemPrompt: Option<string>,
    tools: Option<seq<UnifiedTool>>,
    permissions: Option<UnifiedPermission>,
    limits: Option<HarnessLimits>,
    structuredOutput: Option<StructuredOutputRequest>,
    mcp: Option<McpConfig>,
    images: Option<seq<HarnessImage>>,
    additionalDirectories: Option<seq<string>>,
    cliAllowlist: Option<CliAllowlistConfig>,
    shellPrelude: Option<ShellPrelude>)

  /** What the user asks to run. */
  datatype StartRunPayload = StartRunPayload(
    provider: Provider,
    prompt: string,
    model: Option<string>,
    mode: RunMode,
    outputFormat: Option<string>,
    cwd: string,
    optionalFlags: map<string, Json.Value>,
    profileId: Option<string>,
    queuePriority: Option<int>,
    timeoutSeconds: Option<nat>,
    scheduledAt: Option<int>,
    maxRetries: Option<nat>,
    retryBackoffMs: Option<nat>,
    harness: Option<HarnessRequestOptions>)

  /** What compatibility detection concluded about an installed CLI. */
  datatype CapabilityProfile = CapabilityProfile(
    provider: Provider,
    cliVersion: string,
    supported: bool,
    degraded: bool,
    blocked: bool,
    supportedFlags: seq<string>,
    supportedModes: seq<RunMode>,
    disabledReasons: seq<string>)

  datatype AppSettings = AppSettings(allowAdvancedPolicy: bool, redactAggressive: bool)

  datatype WorkspaceGrant = WorkspaceGrant(id: string, path: string, revokedAt: Option<int>)
}
