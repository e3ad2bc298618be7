/**
 * The run policy (policy.rs): runtime bounds, harness option checks, the flag allowlist
 * decision, the scan of a resolved command line, the workspace grant check and the
 * top-level `validate` that chains them. Path canonicalisation touches the filesystem and
 * is a parameter: it maps a path to its components or to an error text.
 */
module Policy {
  import opened Wrappers
  import opened Errors
  import opened Text
  import Json
  import Models
  import MetricSnapshots
  import MetricRefresh
  import KeyOrder

  const MIN_QUEUE_PRIORITY: int := -10
  const MAX_QUEUE_PRIORITY: int := 10
  const MIN_TIMEOUT_SECONDS: nat := 5
  const MAX_TIMEOUT_SECONDS: nat := 10800
  const MAX_RETRIES_ALLOWED: nat := 10
  const MIN_RETRY_BACKOFF_MS: nat := 100
  const MAX_RETRY_BACKOFF_MS: nat := 600000
  const MIN_HARNESS_TIMEOUT_MS: nat := 5000
  const MAX_HARNESS_TIMEOUT_MS: nat := 10800000
  const MAX_TOOL_RESULT_LINES: nat := 20000

  const CODEX_BASE_FLAGS: set<string> := {
    "model", "json", "reasoning-effort", "output-schema", "output-last-message",
    "ask-for-approval", "sandbox", "search", "add-dir", "image", "config",
    "skip-git-repo-check", "ephemeral"
  }

  const CLAUDE_BASE_FLAGS: set<string> := {
    "output-format", "input-format", "json-schema", "model", "fallback-model",
    "max-budget-usd", "no-session-persistence", "max-turns", "tools", "allowedTools",
    "permission-mode", "system-prompt", "append-system-prompt", "include-partial-messages",
    "continue", "agent", "agents", "resume", "verbose"
  }

  const ADVANCED_FLAGS: set<string> := {"mcp-config", "strict-mcp-config", "dangerously-skip-permissions"}

  /** The provider's base allowlist. */
  function BaseFlags(provider: Models.Provider): set<string>
  {
    match provider
    case Codex => CODEX_BASE_FLAGS
    case Claude => CLAUDE_BASE_FLAGS
  }

  /** An optional bound: absent, or present and inside `[lo, hi]`. */
  predicate Within(v: Option<int>, lo: int, hi: int)
  {
    v.None? || lo <= v.value <= hi
  }

  /** The numeric limits a run may ask for. */
  predicate WithinRuntimeBounds(payload: Models.StartRunPayload)
  {
    && Within(payload.queuePriority, MIN_QUEUE_PRIORITY, MAX_QUEUE_PRIORITY)
    && (payload.timeoutSeconds.None? || MIN_TIMEOUT_SECONDS <= payload.timeoutSeconds.value <= MAX_TIMEOUT_SECONDS)
    && (payload.maxRetries.None? || payload.maxRetries.value <= MAX_RETRIES_ALLOWED)
    && (payload.retryBackoffMs.None? || MIN_RETRY_BACKOFF_MS <= payload.retryBackoffMs.value <= MAX_RETRY_BACKOFF_MS)
    && HarnessLimitsWithin(payload.harness)
  }

  predicate HarnessLimitsWithin(harness: Option<Models.HarnessRequestOptions>)
  {
    harness.None? || harness.value.limits.None? ||
    var limits := harness.value.limits.value;
    && (limits.timeoutMs.None? || MIN_HARNESS_TIMEOUT_MS <= limits.timeoutMs.value <= MAX_HARNESS_TIMEOUT_MS)
    && (limits.maxToolResultLines.None? || limits.maxToolResultLines.value <= MAX_TOOL_RESULT_LINES)
  }

  /** The harness limits part of `validate_runtime_bounds`. */
  function ValidateHarnessLimits(harness: Option<Models.HarnessRequestOptions>): (r: AppResult<()>)
    ensures r.Ok? <==> HarnessLimitsWithin(harness)
    ensures r.Err? ==> r.error.Policy?
  {
    if harness.None? || harness.value.limits.None? then Ok(())
    else
      var limits := harness.value.limits.value;
      if limits.timeoutMs.Some? && !(MIN_HARNESS_TIMEOUT_MS <= limits.timeoutMs.value <= MAX_HARNESS_TIMEOUT_MS) then
        Err(Policy("Harness timeout " + NatToString(limits.timeoutMs.value) + "ms is out of allowed range (5000..=10800000)"))
      else if limits.maxToolResultLines.Some? && limits.maxToolResultLines.value > MAX_TOOL_RESULT_LINES then
        Err(Policy("maxToolResultLines " + NatToString(limits.maxToolResultLines.value) + " exceeds limit 20000"))
      else Ok(())
  }

  /** The message for a queue priority out of range. */
  function PriorityMessage(priority: int): string
  {
    "Queue priority " + IntToString(priority) + " is out of allowed range (-10..=10)"
  }

  /** `PolicyEngine::validate_runtime_bounds`: the first limit out of range is a Policy error. */
  function ValidateRuntimeBounds(payload: Models.StartRunPayload): (r: AppResult<()>)
    ensures r.Ok? <==> WithinRuntimeBounds(payload)
    ensures r.Err? ==> r.error.Policy?
    ensures !Within(payload.queuePriority, MIN_QUEUE_PRIORITY, MAX_QUEUE_PRIORITY) ==>
              r == Err(Policy(PriorityMessage(payload.queuePriority.value)))
  {
    if !Within(payload.queuePriority, MIN_QUEUE_PRIORITY, MAX_QUEUE_PRIORITY) then
      Err(Policy(PriorityMessage(payload.queuePriority.value)))
    else if payload.timeoutSeconds.Some? && !(MIN_TIMEOUT_SECONDS <= payload.timeoutSeconds.value <= MAX_TIMEOUT_SECONDS) then
      Err(Policy("Timeout " + NatToString(payload.timeoutSeconds.value) + " is out of allowed range (5..=10800) seconds"))
    else if payload.maxRetries.Some? && payload.maxRetries.value > MAX_RETRIES_ALLOWED then
      Err(Policy("Max retries " + NatToString(payload.maxRetries.value) + " exceeds allowed limit 10"))
    else if payload.retryBackoffMs.Some? && !(MIN_RETRY_BACKOFF_MS <= payload.retryBackoffMs.value <= MAX_RETRY_BACKOFF_MS) then
      Err(Policy("Retry backoff " + NatToString(payload.retryBackoffMs.value) + "ms is out of allowed range (100..=600000)"))
    else ValidateHarnessLimits(payload.harness)
  }

  /** An allowlist entry with a non-blank name and path. */
  predicate GoodEntry(entry: Models.CliAllowlistEntry)
  {
    !IsBlank(entry.name) && !IsBlank(entry.path)
  }

  /** The first bad allowlist entry's error, in entry order. */
  function EntryProblem(entries: seq<Models.CliAllowlistEntry>): (r: Option<AppError>)
    ensures r.None? <==> forall i :: 0 <= i < |entries| ==> GoodEntry(entries[i])
    ensures r.Some? ==> r.value.Policy?
  {
    if entries == [] then None
    else if IsBlank(entries[0].name) then Some(Policy("cliAllowlist entry name cannot be empty"))
    else if IsBlank(entries[0].path) then Some(Policy("cliAllowlist path cannot be empty for '" + entries[0].name + "'"))
    else
      var rest := EntryProblem(entries[1..]);
      assert forall i :: 1 <= i < |entries| ==> entries[i] == entries[1..][i - 1];
      rest
  }

  /** Wrapper mode names its wrapper. */
  predicate WrapperNamed(allowlist: Models.CliAllowlistConfig)
  {
    allowlist.mode != Some(Models.CliAllowlistMode.Wrapper)
    || (allowlist.wrapperName.Some? && !IsBlank(allowlist.wrapperName.value))
  }

  /** What the harness options must satisfy. */
  predicate HarnessAcceptable(harness: Models.HarnessRequestOptions)
  {
    && (harness.permissions.None? ||
        !(harness.permissions.value.autoApprove && harness.permissions.value.sandboxMode.FullAccess?))
    && (harness.cliAllowlist.None? ||
        (&& |harness.cliAllowlist.value.entries| > 0
         && (forall i :: 0 <= i < |harness.cliAllowlist.value.entries| ==> GoodEntry(harness.cliAllowlist.value.entries[i]))
         && WrapperNamed(harness.cliAllowlist.value)))
    && (harness.shellPrelude.None? || !IsBlank(harness.shellPrelude.value.content))
  }

  /** `PolicyEngine::validate_harness`: no harness options pass; otherwise the first violation is reported. */
  function ValidateHarness(payload: Models.StartRunPayload): (r: AppResult<()>)
    ensures r.Ok? <==> payload.harness.None? || HarnessAcceptable(payload.harness.value)
    ensures r.Err? ==> r.error.Policy?
    ensures payload.harness.Some? && payload.harness.value.permissions.Some?
            && payload.harness.value.permissions.value.autoApprove
            && payload.harness.value.permissions.value.sandboxMode.FullAccess? ==>
              r == Err(Policy("autoApprove + full-access sandbox is denied by policy"))
  {
    if payload.harness.None? then Ok(())
    else
      var harness := payload.harness.value;
      if harness.permissions.Some? && harness.permissions.value.autoApprove
         && harness.permissions.value.sandboxMode.FullAccess? then
        Err(Policy("autoApprove + full-access sandbox is denied by policy"))
      else if harness.cliAllowlist.Some? && harness.cliAllowlist.value.entries == [] then
        Err(Policy("cliAllowlist.entries cannot be empty"))
      else if harness.cliAllowlist.Some? && EntryProblem(harness.cliAllowlist.value.entries).Some? then
        Err(EntryProblem(harness.cliAllowlist.value.entries).value)
      else if harness.cliAllowlist.Some? && !WrapperNamed(harness.cliAllowlist.value) then
        Err(Policy("cliAllowlist.wrapperName cannot be empty in wrapper mode"))
      else if harness.shellPrelude.Some? && IsBlank(harness.shellPrelude.value.content) then
        Err(Policy("shellPrelude content cannot be empty"))
      else Ok(())
  }

  /** The capability map's flags without their leading dashes. */
  function CapabilityAllowed(supportedFlags: seq<string>): (r: set<string>)
    ensures forall i :: 0 <= i < |supportedFlags| ==> TrimStartMatches(supportedFlags[i], "--") in r
    ensures |supportedFlags| == 0 <==> r == {}
  {
    var r := set i | 0 <= i < |supportedFlags| :: TrimStartMatches(supportedFlags[i], "--");
    assert |supportedFlags| > 0 ==> TrimStartMatches(supportedFlags[0], "--") in r;
    r
  }

  /** When a flag key is allowed. */
  predicate FlagKeyAllowed(key: string, base: set<string>, capabilityAllowed: set<string>, advancedMode: bool)
  {
    && (key in base || key in ADVANCED_FLAGS)
    && (key in ADVANCED_FLAGS ==> advancedMode)
    && (capabilityAllowed != {} ==> key in capabilityAllowed)
    && (capabilityAllowed == {} ==> advancedMode)
  }

  /**
   * `PolicyEngine::validate_flag_key`: an advanced flag outside advanced mode and a flag in no
   * allowlist are Policy errors; a flag the installed CLI lacks, or any flag when the
   * capability map is empty outside advanced mode, is a Cli error.
   */
  function ValidateFlagKey(key: string, base: set<string>, capabilityAllowed: set<string>,
                           advancedMode: bool, cliVersion: string): (r: AppResult<()>)
    ensures r.Ok? <==> FlagKeyAllowed(key, base, capabilityAllowed, advancedMode)
    ensures key in ADVANCED_FLAGS && !advancedMode ==> r.Err? && r.error.Policy?
    ensures key !in base && key !in ADVANCED_FLAGS ==> r.Err? && r.error.Policy?
    ensures (key in base || key in ADVANCED_FLAGS) && (key in ADVANCED_FLAGS ==> advancedMode) ==> (r.Ok? || r.error.Cli?)
  {
    var isBase := key in base;
    var isAdvanced := key in ADVANCED_FLAGS;
    if isAdvanced && !advancedMode then
      Err(Policy("Advanced flag '" + key + "' denied because advanced policy mode is disabled."))
    else if !isBase && !isAdvanced then
      Err(Policy("Flag '" + key + "' is not in the provider allowlist."))
    else if capabilityAllowed != {} && key !in capabilityAllowed then
      Err(Cli("Flag '" + key + "' is not supported by detected CLI version " + cliVersion + "."))
    else if capabilityAllowed == {} && !advancedMode then
      Err(Cli("Capability map unavailable for detected version " + cliVersion
              + "; optional flags are blocked outside advanced mode."))
    else Ok(())
  }

  /** `is_internal_optional_flag`: keys the backend keeps for itself. */
  predicate IsInternalFlag(key: string)
  {
    |key| >= 2 && key[0] == '_' && key[1] == '_'
  }

  /**
   * `PolicyEngine::validate_flags` over the optional flag keys in map order; internal keys are
   * skipped and the first refused key's error is returned.
   */
  function ValidateFlags(provider: Models.Provider, keys: seq<string>, settings: Models.AppSettings,
                         capability: Models.CapabilityProfile): (r: AppResult<()>)
    ensures r.Ok? <==> forall i :: 0 <= i < |keys| && !IsInternalFlag(keys[i]) ==>
              FlagKeyAllowed(keys[i], BaseFlags(provider), CapabilityAllowed(capability.supportedFlags), settings.allowAdvancedPolicy)
  {
    if keys == [] then Ok(())
    else if IsInternalFlag(keys[0]) then
      var rest := ValidateFlags(provider, keys[1..], settings, capability);
      assert forall i :: 1 <= i < |keys| ==> keys[i] == keys[1..][i - 1];
      rest
    else
      match ValidateFlagKey(keys[0], BaseFlags(provider), CapabilityAllowed(capability.supportedFlags),
                            settings.allowAdvancedPolicy, capability.cliVersion)
      case Err(e) => Err(e)
      case Ok(_) =>
        var rest := ValidateFlags(provider, keys[1..], settings, capability);
        assert forall i :: 1 <= i < |keys| ==> keys[i] == keys[1..][i - 1];
        rest
  }

  /** `char::is_control`: the C0 controls, DEL and the C1 controls. */
  predicate IsControlChar(c: char)
  {
    c <= '\U{001F}' || ('\U{007F}' <= c <= '\U{009F}')
  }

  /** A control character other than newline, carriage return and tab. */
  predicate IsForbiddenControl(c: char)
  {
    IsControlChar(c) && c != '\n' && c != '\r' && c != '\t'
  }

  predicate HasForbiddenControl(arg: string)
  {
    exists i :: 0 <= i < |arg| && IsForbiddenControl(arg[i])
  }

  /** The key of a long flag `--key[=value]`: the text before the first '='. */
  function LongFlagKey(arg: string): (k: string)
    requires StartsWith(arg, "--")
    ensures !ContainsChar(k, '=')
    ensures StartsWith(arg, "--" + k)
  {
    var raw := arg[2..];
    var k := match FindChar(raw, '=') case Some(i) => raw[..i] case None => raw;
    assert arg[..2 + |k|] == "--" + k by { assert arg == "--" + raw; }
    k
  }

  /**
   * The check of one resolved argument: an error, `Some(key)` for a long flag whose key
   * passes, or `None` for any other accepted argument.
   */
  function CheckArg(provider: Models.Provider, arg: string, settings: Models.AppSettings,
                    capability: Models.CapabilityProfile): (r: AppResult<Option<string>>)
    ensures r.Ok? && r.value.Some? ==> StartsWith(arg, "--") && r.value.value == LongFlagKey(arg) && r.value.value != []
    ensures r.Ok? ==> !HasForbiddenControl(arg)
    ensures r.Ok? && r.value.None? ==> !StartsWith(arg, "-") || (provider.Claude? && arg == "-p")
    ensures r.Err? ==> r.error.Policy? || r.error.Cli?
  {
    if ContainsChar(arg, '\0') then
      Err(Policy("Resolved command contains null byte"))
    else if HasForbiddenControl(arg) then
      Err(Policy("Resolved command contains unsupported control character in argument '" + arg + "'"))
    else if StartsWith(arg, "--") then
      var key := LongFlagKey(arg);
      if key == [] then
        Err(Policy("Resolved command contains empty long flag"))
      else
        match ValidateFlagKey(key, BaseFlags(provider), CapabilityAllowed(capability.supportedFlags),
                              settings.allowAdvancedPolicy, capability.cliVersion)
        case Err(e) => Err(e)
        case Ok(_) => Ok(Some(key))
    else if StartsWith(arg, "-") && !(provider.Claude? && arg == "-p") then
      Err(Policy("Resolved command contains disallowed short flag '" + arg + "'"))
    else Ok(None)
  }

  /** The specification of `validate_resolved_args`: the first refused argument fails the scan. */
  function ResolvedArgs(provider: Models.Provider, args: seq<string>, settings: Models.AppSettings,
                        capability: Models.CapabilityProfile): AppResult<seq<string>>
  {
    ScanArgs(args, ArgCheck(provider, settings, capability))
  }

  /** The per-argument check of one provider, settings and capability profile. */
  function ArgCheck(provider: Models.Provider, settings: Models.AppSettings,
                    capability: Models.CapabilityProfile): string -> AppResult<Option<string>>
  {
    arg => CheckArg(provider, arg, settings, capability)
  }

  /** The argument scan: the first refused argument fails it, else the keys found, in order. */
  function ScanArgs(args: seq<string>, check: string -> AppResult<Option<string>>): AppResult<seq<string>>
  {
    if args == [] then Ok([])
    else
      match ScanArgs(args[..|args| - 1], check)
      case Err(e) => Err(e)
      case Ok(seen) =>
        match check(args[|args| - 1])
        case Err(e) => Err(e)
        case Ok(None) => Ok(seen)
        case Ok(Some(key)) => Ok(seen + [key])
  }

  /** A scan succeeds iff every argument passes the check on its own. */
  lemma {:induction false} ScanAcceptsEach(args: seq<string>, check: string -> AppResult<Option<string>>)
    ensures ScanArgs(args, check).Ok? <==> forall i :: 0 <= i < |args| ==> check(args[i]).Ok?
  {
    if args != [] {
      var front := args[..|args| - 1];
      ScanAcceptsEach(front, check);
      assert forall i :: 0 <= i < |front| ==> front[i] == args[i];
    }
  }

  /** The command line passes iff each argument passes on its own. */
  lemma ResolvedArgsAcceptEach(provider: Models.Provider, args: seq<string>,
                               settings: Models.AppSettings, capability: Models.CapabilityProfile)
    ensures ResolvedArgs(provider, args, settings, capability).Ok? <==>
              forall i :: 0 <= i < |args| ==> CheckArg(provider, args[i], settings, capability).Ok?
  {
    ScanAcceptsEach(args, ArgCheck(provider, settings, capability));
  }

  /** A successful scan returns at most one key per argument, each a non-empty allowed flag key. */
  lemma {:induction false} ResolvedArgsKeysAllowed(provider: Models.Provider, args: seq<string>,
                                                    settings: Models.AppSettings, capability: Models.CapabilityProfile)
    requires ResolvedArgs(provider, args, settings, capability).Ok?
    ensures var keys := ResolvedArgs(provider, args, settings, capability).value;
            && |keys| <= |args|
            && forall j :: 0 <= j < |keys| ==>
                 keys[j] != [] && !ContainsChar(keys[j], '=') &&
                 FlagKeyAllowed(keys[j], BaseFlags(provider), CapabilityAllowed(capability.supportedFlags),
                                settings.allowAdvancedPolicy)
  {
    if args != [] {
      ResolvedArgsKeysAllowed(provider, args[..|args| - 1], settings, capability);
      var last := CheckArg(provider, args[|args| - 1], settings, capability);
      if last.value.Some? {
        assert ValidateFlagKey(last.value.value, BaseFlags(provider), CapabilityAllowed(capability.supportedFlags),
                               settings.allowAdvancedPolicy, capability.cliVersion).Ok?;
      }
    }
  }

  /** `PolicyEngine::validate_resolved_args`: scans the command line, collecting the long-flag keys in order. */
  method ValidateResolvedArgs(provider: Models.Provider, args: seq<string>, settings: Models.AppSettings,
                              capability: Models.CapabilityProfile)
    returns (r: AppResult<seq<string>>)
    ensures r == ResolvedArgs(provider, args, settings, capability)
  {
    var seenFlags: seq<string> := [];
    var i := 0;
    while i < |args|
      invariant 0 <= i <= |args|
      invariant ResolvedArgs(provider, args[..i], settings, capability) == Ok(seenFlags)
    {
      assert args[..i + 1][..i] == args[..i];
      var checked := CheckArg(provider, args[i], settings, capability);
      match checked {
        case Err(e) =>
          ResolvedArgsStayFailed(provider, args, settings, capability, i + 1, e);
          return Err(e);
        case Ok(key) =>
          if key.Some? {
            seenFlags := seenFlags + [key.value];
          }
      }
      i := i + 1;
    }
    assert args[..|args|] == args;
    r := Ok(seenFlags);
  }

  /** Once a prefix of the command line fails, the whole of it fails with the same error. */
  lemma {:induction false} ResolvedArgsStayFailed(provider: Models.Provider, args: seq<string>, settings: Models.AppSettings,
                                                  capability: Models.CapabilityProfile, n: nat, e: AppError)
    requires n <= |args| && ResolvedArgs(provider, args[..n], settings, capability) == Err(e)
    ensures ResolvedArgs(provider, args, settings, capability) == Err(e)
    decreases |args| - n
  {
    if n < |args| {
      assert args[..n + 1][..n] == args[..n];
      ResolvedArgsStayFailed(provider, args, settings, capability, n + 1, e);
    } else {
      assert args[..n] == args;
    }
  }

  /** `Path::is_absolute` on a Unix path. */
  predicate IsAbsolute(path: string)
  {
    |path| > 0 && path[0] == '/'
  }

  /** `normalize_path`: an absolute path, canonicalised into its components. */
  function NormalizePath(path: string, canonicalize: string -> Result<seq<string>, string>): (r: Result<seq<string>, AppError>)
    ensures r.Ok? <==> IsAbsolute(path) && canonicalize(path).Ok?
    ensures r.Ok? ==> r.value == canonicalize(path).value
    ensures r.Err? ==> r.error.Policy?
  {
    if !IsAbsolute(path) then Err(Policy("Workspace path '" + path + "' must be absolute"))
    else
      match canonicalize(path)
      case Err(reason) => Err(Policy("Failed to resolve '" + path + "': " + reason))
      case Ok(components) => Ok(components)
  }

  /** `Path::starts_with`: a whole-component prefix. */
  predicate ComponentPrefix(prefix: seq<string>, path: seq<string>)
  {
    |prefix| <= |path| && path[..|prefix|] == prefix
  }

  /** The canonical paths of the grants not revoked, in grant order; the first failure stops the collection. */
  function ActiveGrantPaths(grants: seq<Models.WorkspaceGrant>, canonicalize: string -> Result<seq<string>, string>)
    : (r: Result<seq<seq<string>>, AppError>)
    ensures r.Ok? <==> forall i :: 0 <= i < |grants| && grants[i].revokedAt.None? ==> NormalizePath(grants[i].path, canonicalize).Ok?
    ensures r.Err? ==> r.error.Policy?
    ensures r.Ok? ==> forall p :: p in r.value <==>
              exists i :: 0 <= i < |grants| && grants[i].revokedAt.None? && NormalizePath(grants[i].path, canonicalize) == Ok(p)
  {
    if grants == [] then Ok([])
    else
      var rest := ActiveGrantPaths(grants[1..], canonicalize);
      assert forall i :: 1 <= i < |grants| ==> grants[i] == grants[1..][i - 1];
      if grants[0].revokedAt.Some? then rest
      else
        match NormalizePath(grants[0].path, canonicalize)
        case Err(e) => Err(e)
        case Ok(p) =>
          match rest
          case Err(e) => Err(e)
          case Ok(paths) => Ok([p] + paths)
  }

  /**
   * `PolicyEngine::validate_workspace`: the working directory must lie under a grant that is
   * not revoked, comparing canonical paths component by component.
   */
  function ValidateWorkspace(cwd: string, grants: seq<Models.WorkspaceGrant>,
                             canonicalize: string -> Result<seq<string>, string>): (r: AppResult<()>)
    ensures r.Ok? <==>
              && NormalizePath(cwd, canonicalize).Ok?
              && ActiveGrantPaths(grants, canonicalize).Ok?
              && exists i :: 0 <= i < |grants| && grants[i].revokedAt.None?
                   && NormalizePath(grants[i].path, canonicalize).Ok?
                   && ComponentPrefix(NormalizePath(grants[i].path, canonicalize).value, NormalizePath(cwd, canonicalize).value)
    ensures r.Err? ==> r.error.Policy?
  {
    match NormalizePath(cwd, canonicalize)
    case Err(e) => Err(e)
    case Ok(cwdPath) =>
      match ActiveGrantPaths(grants, canonicalize)
      case Err(e) => Err(e)
      case Ok(active) =>
        if exists p :: p in active && ComponentPrefix(p, cwdPath) then Ok(())
        else Err(Policy("Workspace " + cwd + " is not granted. Add a workspace grant in Settings."))
  }

  /** `Debug` for a run mode. */
  function ModeDebug(mode: Models.RunMode): string
  {
    match mode
    case NonInteractive => "NonInteractive"
    case Interactive => "Interactive"
  }

  /** What the detected CLI must allow for a run in `mode`. */
  predicate CapabilityAllows(capability: Models.CapabilityProfile, settings: Models.AppSettings, mode: Models.RunMode)
  {
    !capability.blocked && (capability.supported || settings.allowAdvancedPolicy) && mode in capability.supportedModes
  }

  /** The payload's flag keys in the order of its `BTreeMap`. */
  function FlagKeys(payload: Models.StartRunPayload): (r: seq<string>)
    ensures forall k :: k in r <==> k in payload.optionalFlags
  {
    KeyOrder.SortedKeys(payload.optionalFlags.Keys)
  }

  /**
   * `PolicyEngine::validate`: workspace, runtime bounds, harness options and flags in that
   * order, then the detected CLI: blocked, outside the matrix without advanced mode, or
   * without the requested mode.
   */
  function Validate(payload: Models.StartRunPayload, settings: Models.AppSettings,
                    grants: seq<Models.WorkspaceGrant>, capability: Models.CapabilityProfile,
                    canonicalize: string -> Result<seq<string>, string>): (r: AppResult<()>)
    ensures r.Ok? <==>
              && ValidateWorkspace(payload.cwd, grants, canonicalize).Ok?
              && WithinRuntimeBounds(payload)
              && (payload.harness.None? || HarnessAcceptable(payload.harness.value))
              && ValidateFlags(payload.provider, FlagKeys(payload), settings, capability).Ok?
              && CapabilityAllows(capability, settings, payload.mode)
    ensures ValidateWorkspace(payload.cwd, grants, canonicalize).Err? ==> r == ValidateWorkspace(payload.cwd, grants, canonicalize)
    ensures ValidateWorkspace(payload.cwd, grants, canonicalize).Ok? && !WithinRuntimeBounds(payload) ==> r == ValidateRuntimeBounds(payload)
  {
    match ValidateWorkspace(payload.cwd, grants, canonicalize)
    case Err(e) => Err(e)
    case Ok(_) =>
    match ValidateRuntimeBounds(payload)
    case Err(e) => Err(e)
    case Ok(_) =>
    match ValidateHarness(payload)
    case Err(e) => Err(e)
    case Ok(_) =>
    match ValidateFlags(payload.provider, FlagKeys(payload), settings, capability)
    case Err(e) => Err(e)
    case Ok(_) => ValidateCapability(capability, settings, payload.mode)
  }

  /** The refusal for a CLI version the compatibility matrix blocks. */
  function BlockedMessage(capability: Models.CapabilityProfile): string
  {
    "Installed " + capability.provider.Name() + " CLI version " + capability.cliVersion
    + " is blocked: " + Join(capability.disabledReasons, "; ")
  }

  /** The refusal for a CLI version outside the matrix while advanced mode is off. */
  function OutsideMatrixMessage(capability: Models.CapabilityProfile): string
  {
    "Installed " + capability.provider.Name() + " CLI version " + capability.cliVersion
    + " is outside supported matrix. Enable advanced policy mode to proceed in degraded mode."
  }

  /** The refusal for a run mode the CLI version does not offer. */
  function UnsupportedModeMessage(capability: Models.CapabilityProfile, mode: Models.RunMode): string
  {
    "Run mode '" + ModeDebug(mode) + "' is not supported by CLI version " + capability.cliVersion
  }

  /** The last checks of `PolicyEngine::validate`: the detected CLI is not blocked, is supported or advanced mode is on, and offers the mode. */
  function ValidateCapability(capability: Models.CapabilityProfile, settings: Models.AppSettings, mode: Models.RunMode): (r: AppResult<()>)
    ensures r.Ok? <==> CapabilityAllows(capability, settings, mode)
    ensures r.Err? ==> r.error.Cli?
  {
    if capability.blocked then Err(Cli(BlockedMessage(capability)))
    else if !capability.supported && !settings.allowAdvancedPolicy then Err(Cli(OutsideMatrixMessage(capability)))
    else if mode !in capability.supportedModes then Err(Cli(UnsupportedModeMessage(capability, mode)))
    else Ok(())
  }

  /** No workspace grant at all means every run is refused. */
  lemma NoGrantNoRun(payload: Models.StartRunPayload, settings: Models.AppSettings,
                     capability: Models.CapabilityProfile, canonicalize: string -> Result<seq<string>, string>)
    ensures Validate(payload, settings, [], capability, canonicalize).Err?
  {
  }

  /** Keys the backend reserves never reach the allowlist decision. */
  lemma InternalFlagsAreIgnored(provider: Models.Provider, keys: seq<string>, settings: Models.AppSettings,
                                capability: Models.CapabilityProfile)
    requires forall i :: 0 <= i < |keys| ==> IsInternalFlag(keys[i])
    ensures ValidateFlags(provider, keys, settings, capability).Ok?
  {
  }

  /** Advanced flags are refused whenever advanced policy mode is off, whatever the CLI supports. */
  lemma AdvancedFlagsNeedAdvancedMode(provider: Models.Provider, keys: seq<string>, settings: Models.AppSettings,
                                      capability: Models.CapabilityProfile, i: nat)
    requires i < |keys| && keys[i] in ADVANCED_FLAGS && !settings.allowAdvancedPolicy
    ensures ValidateFlags(provider, keys, settings, capability).Err?
  {
    assert !IsInternalFlag(keys[i]);
  }

  /** The run a metric refresh starts stays inside the runtime bounds and passes the harness checks. */
  lemma RefreshPayloadIsWithinPolicy(def: MetricSnapshots.MetricDefinition, grants: seq<Models.WorkspaceGrant>)
    ensures ValidateRuntimeBounds(MetricRefresh.RefreshPayload(def, grants)).Ok?
    ensures ValidateHarness(MetricRefresh.RefreshPayload(def, grants)).Ok?
  {
    var p := MetricRefresh.RefreshPayload(def, grants);
    assert p.harness.value.limits.None? && p.harness.value.cliAllowlist.None? && p.harness.value.shellPrelude.None?;
  }
}
