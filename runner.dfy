/**
 * The deterministic helpers of the run orchestrator (runner.rs): the bounded output buffer,
 * tool-result trimming, file-name sanitising, JSON merging for profiles, payload defaults,
 * diagnostic-line detection, resume-failure matching, retry back-off and the parsing of a
 * metric run's output.
 */
module Runner {
  import opened Wrappers
  import opened Text
  import Machine
  import Json
  import Models

  const MAX_BUFFERED_OUTPUT_BYTES: nat := 2 * 1024 * 1024
  const MAX_BUFFERED_OUTPUT_LINES: nat := 4000
  const DEFAULT_CODEX_MODEL: string := "gpt-5.3-codex"
  const DEFAULT_CLAUDE_MODEL: string := "sonnet"

  // ---------------------------------------------------------------------------------------
  // OutputBuffer: the last lines of a run's output, bounded by count and by bytes.
  // ---------------------------------------------------------------------------------------

  /** The number of bytes held by `lines`. */
  function TotalLength(lines: seq<string>): nat
  {
    if lines == [] then 0 else |lines[0]| + TotalLength(lines[1..])
  }

  lemma {:induction false} TotalLengthAppend(lines: seq<string>, line: string)
    ensures TotalLength(lines + [line]) == TotalLength(lines) + |line|
    decreases |lines|
  {
    if lines != [] {
      assert (lines + [line])[1..] == lines[1..] + [line];
      TotalLengthAppend(lines[1..], line);
    }
  }

  /** Within both limits of the output buffer. */
  predicate Fits(lines: seq<string>)
  {
    |lines| <= MAX_BUFFERED_OUTPUT_LINES && TotalLength(lines) <= MAX_BUFFERED_OUTPUT_BYTES
  }

  /** Drops lines from the front until both limits hold. */
  function Retain(lines: seq<string>): (r: seq<string>)
    ensures Fits(r)
    ensures |r| <= |lines|
    decreases |lines|
  {
    if Fits(lines) then lines else Retain(lines[1..])
  }

  /**
   * What `Retain` keeps is the longest suffix of its input that fits: it is a suffix, it
   * fits, and every longer suffix breaks a limit.
   */
  lemma {:induction false} RetainIsLongestFittingSuffix(lines: seq<string>)
    ensures Retain(lines) == lines[|lines| - |Retain(lines)|..]
    ensures forall k :: 0 <= k < |lines| - |Retain(lines)| ==> !Fits(lines[k..])
    decreases |lines|
  {
    if !Fits(lines) {
      var tail := lines[1..];
      RetainIsLongestFittingSuffix(tail);
      assert tail[|tail| - |Retain(tail)|..] == lines[|lines| - |Retain(lines)|..];
      forall k | 0 <= k < |lines| - |Retain(lines)|
        ensures !Fits(lines[k..])
      {
        if k > 0 {
          assert lines[k..] == tail[k - 1..];
        }
      }
    }
  }

  /**
   * Retaining after each push is the same as retaining the whole history at once: the buffer
   * always holds the newest lines of everything pushed that fit.
   */
  lemma {:induction false} RetainPush(history: seq<string>, line: string)
    ensures Retain(history + [line]) == Retain(Retain(history) + [line])
    decreases |history|
  {
    if !Fits(history) {
      TotalLengthAppend(history, line);
      assert !Fits(history + [line]);
      assert (history + [line])[1..] == history[1..] + [line];
      RetainPush(history[1..], line);
    }
  }

  class OutputBuffer {
    var lines: seq<string>
    var totalBytes: nat
    /** Every line ever pushed, oldest first. */
    ghost var pushed: seq<string>

    ghost predicate Valid()
      reads this
    {
      totalBytes == TotalLength(lines) && lines == Retain(pushed)
    }

    constructor ()
      ensures Valid() && lines == [] && totalBytes == 0 && pushed == []
    {
      lines := [];
      totalBytes := 0;
      pushed := [];
    }

    /**
     * Appends `line`, then pops the oldest lines while more than 4000 lines or more than
     * 2 MiB are held. A Rust string is at most `isize::MAX` bytes long, so the saturating
     * sum is exact.
     */
    method Push(line: string)
      requires Valid()
      requires |line| <= Machine.ISIZE_MAX
      modifies this
      ensures Valid()
      ensures pushed == old(pushed) + [line]
      ensures lines == Retain(old(lines) + [line])
      ensures Fits(lines)
    {
      TotalLengthAppend(lines, line);
      var held := lines + [line];
      var total := Machine.SaturatingAdd(totalBytes, |line|);
      while (|held| > MAX_BUFFERED_OUTPUT_LINES || total > MAX_BUFFERED_OUTPUT_BYTES) && |held| > 0
        invariant total == TotalLength(held)
        invariant Retain(held) == Retain(old(lines) + [line])
        decreases |held|
      {
        total := Machine.SaturatingSub(total, |held[0]|);
        held := held[1..];
      }
      lines, totalBytes := held, total;
      pushed := pushed + [line];
      RetainPush(old(pushed), line);
    }

    /** The buffered lines joined with '\n'; splitting it on '\n' gives the lines back. */
    function Joined(): (r: string)
      reads this
      ensures lines != [] && (forall i :: 0 <= i < |lines| ==> !ContainsChar(lines[i], '\n'))
              ==> Split(r, '\n') == lines
    {
      if lines != [] && (forall i :: 0 <= i < |lines| ==> !ContainsChar(lines[i], '\n')) then
        JoinSplit(lines, '\n');
        Join(lines, "\n")
      else
        Join(lines, "\n")
    }
  }

  // ---------------------------------------------------------------------------------------
  // Tool results.
  // ---------------------------------------------------------------------------------------

  function TrimNotice(dropped: nat): string
  {
    "\n... (" + NatToString(dropped) + " more lines trimmed)"
  }

  /**
   * `trim_tool_result`: keeps the first `maxLines` '\n'-separated lines and appends a notice
   * counting the dropped ones; `None`, 0, or few enough lines return the input.
   */
  function TrimToolResult(result: string, maxLines: Option<nat>): (r: string)
    ensures maxLines.None? || maxLines.value == 0 ==> r == result
    ensures maxLines.Some? && |Split(result, '\n')| <= maxLines.value ==> r == result
  {
    match maxLines
    case None => result
    case Some(max) =>
      if max == 0 then result
      else
        var lines := Split(result, '\n');
        if |lines| <= max then result
        else Join(lines[..max], "\n") + TrimNotice(Machine.SaturatingSub(|lines|, max))
  }

  /**
   * When a result is trimmed, what is kept is a prefix of the result that ends just before a
   * '\n' and holds exactly `max` lines, and the notice counts the remaining lines.
   */
  lemma TrimToolResultKeepsFirstLines(result: string, max: nat)
    requires 0 < max < |Split(result, '\n')|
    ensures exists k :: 0 <= k < |result| && result[k] == '\n'
              && TrimToolResult(result, Some(max)) == result[..k] + TrimNotice(|Split(result, '\n')| - max)
              && Split(result[..k], '\n') == Split(result, '\n')[..max]
  {
    var k := TrimmedPrefix(result, max);
    assert 0 <= k < |result| && result[k] == '\n'
           && TrimToolResult(result, Some(max)) == result[..k] + TrimNotice(|Split(result, '\n')| - max)
           && Split(result[..k], '\n') == Split(result, '\n')[..max];
  }

  /** The end `k` of the kept prefix of a trimmed result. */
  lemma TrimmedPrefix(result: string, max: nat) returns (k: nat)
    requires 0 < max < |Split(result, '\n')|
    ensures k < |result| && result[k] == '\n'
    ensures TrimToolResult(result, Some(max)) == result[..k] + TrimNotice(|Split(result, '\n')| - max)
    ensures Split(result[..k], '\n') == Split(result, '\n')[..max]
  {
    var lines := Split(result, '\n');
    SplitJoin(result, '\n');
    k := KeptLinesPrefix(lines, max, result);
    var dropped := Machine.SaturatingSub(|lines|, max);
    assert dropped == |lines| - max;
    assert TrimToolResult(result, Some(max)) == Join(lines[..max], "\n") + TrimNotice(dropped);
  }

  /** The first `max` of '\n'-free lines, joined, are a prefix of their join ending before a '\n'. */
  lemma KeptLinesPrefix(lines: seq<string>, max: nat, joined: string) returns (k: nat)
    requires 0 < max < |lines| && Join(lines, "\n") == joined
    requires forall i :: 0 <= i < |lines| ==> !ContainsChar(lines[i], '\n')
    ensures k < |joined| && joined[k] == '\n'
    ensures joined[..k] == Join(lines[..max], "\n")
    ensures Split(joined[..k], '\n') == lines[..max]
  {
    JoinPrefixBeforeSeparator(lines, '\n', max);
    k := |Join(lines[..max], "\n")|;
    JoinSplit(lines[..max], '\n');
  }

  // ---------------------------------------------------------------------------------------
  // Artifact file names.
  // ---------------------------------------------------------------------------------------

  predicate IsFilenameChar(c: char)
  {
    IsAsciiAlphanumeric(c) || c == '-' || c == '_'
  }

  /** Every character outside [A-Za-z0-9_-] becomes '_'. */
  function ReplaceUnsafe(s: string): (r: string)
    ensures |r| == |s|
    ensures forall i :: 0 <= i < |s| ==> r[i] == (if IsFilenameChar(s[i]) then s[i] else '_')
  {
    seq(|s|, i requires 0 <= i < |s| => if IsFilenameChar(s[i]) then s[i] else '_')
  }

  /**
   * `sanitize_filename_component`: unsafe characters become '_', surrounding '_' are trimmed,
   * at most 120 characters are kept, and an empty result becomes "run".
   */
  function SanitizeFilenameComponent(value: string): (r: string)
    ensures 0 < |r| <= 120
    ensures forall i :: 0 <= i < |r| ==> IsFilenameChar(r[i])
    ensures r[0] != '_'
  {
    var trimmed := TrimChar(ReplaceUnsafe(value), '_');
    TrimmedReplacementIsSafe(value);
    var candidate := if |trimmed| <= 120 then trimmed else trimmed[..120];
    if candidate == [] then "run" else candidate
  }

  lemma TrimmedReplacementIsSafe(value: string)
    ensures var t := TrimChar(ReplaceUnsafe(value), '_');
            forall i :: 0 <= i < |t| ==> IsFilenameChar(t[i])
  {
    TrimCharFrom(ReplaceUnsafe(value), '_');
  }

  /** A value that is already a clean file name comes back unchanged. */
  lemma SanitizeKeepsCleanName(value: string)
    requires 0 < |value| <= 120
    requires forall i :: 0 <= i < |value| ==> IsFilenameChar(value[i])
    requires value[0] != '_' && value[|value| - 1] != '_'
    ensures SanitizeFilenameComponent(value) == value
  {
    assert ReplaceUnsafe(value) == value;
  }

  /** A value with no letter, digit or '-' sanitises to "run". */
  lemma SanitizeFallsBackToRun(value: string)
    requires forall i :: 0 <= i < |value| ==> !IsAsciiAlphanumeric(value[i]) && value[i] != '-'
    ensures SanitizeFilenameComponent(value) == "run"
  {
    var replaced := ReplaceUnsafe(value);
    assert forall i :: 0 <= i < |replaced| ==> replaced[i] == '_';
    assert TrimCharStart(replaced, '_') == [];
  }

  // ---------------------------------------------------------------------------------------
  // Profile merging.
  // ---------------------------------------------------------------------------------------

  /**
   * `merge_json`: two objects merge key by key, recursively, a key missing from the target
   * starting as null; any other update replaces the target.
   */
  function MergeJson(target: Json.Value, update: Json.Value): (r: Json.Value)
    ensures !(target.Obj? && update.Obj?) ==> r == update
    ensures target.Obj? && update.Obj? ==> r.Obj? && r.fields.Keys == target.fields.Keys + update.fields.Keys
    ensures target.Obj? && update.Obj? ==>
              forall k :: k in target.fields && k !in update.fields ==> r.fields[k] == target.fields[k]
    decreases update
  {
    if target.Obj? && update.Obj? then
      Json.Obj(map k | k in target.fields.Keys + update.fields.Keys ::
        if k in update.fields then
          MergeJson(if k in target.fields then target.fields[k] else Json.Null, update.fields[k])
        else target.fields[k])
    else update
  }

  /** Merging a value into itself changes nothing. */
  lemma {:induction false} MergeJsonSelf(v: Json.Value)
    ensures MergeJson(v, v) == v
    decreases v
  {
    if v.Obj? {
      forall k | k in v.fields
        ensures MergeJson(v, v).fields[k] == v.fields[k]
      {
        MergeJsonSelf(v.fields[k]);
      }
    }
  }

  /** Applying the same update twice is applying it once. */
  lemma {:induction false} MergeJsonIdempotent(target: Json.Value, update: Json.Value)
    ensures MergeJson(MergeJson(target, update), update) == MergeJson(target, update)
    decreases update
  {
    var once := MergeJson(target, update);
    if target.Obj? && update.Obj? {
      forall k | k in update.fields
        ensures MergeJson(once, update).fields[k] == once.fields[k]
      {
        MergeJsonIdempotent(if k in target.fields then target.fields[k] else Json.Null, update.fields[k]);
      }
    } else {
      MergeJsonSelf(update);
    }
  }

  /**
   * `merge_json_skip_null`: like `merge_json`, except that a null update leaves the target
   * as it is (so a key that was absent still ends up holding null).
   */
  function MergeJsonSkipNull(target: Json.Value, update: Json.Value): (r: Json.Value)
    ensures update.Null? ==> r == target
    ensures target.Obj? && update.Obj? ==> r.Obj? && r.fields.Keys == target.fields.Keys + update.fields.Keys
    ensures target.Obj? && update.Obj? ==>
              forall k :: k in target.fields && (k !in update.fields || update.fields[k].Null?)
                ==> r.fields[k] == target.fields[k]
    ensures target.Obj? && update.Obj? ==>
              forall k :: k !in target.fields && k in update.fields && update.fields[k].Null?
                ==> r.fields[k] == Json.Null
    decreases update
  {
    if target.Obj? && update.Obj? then
      Json.Obj(map k | k in target.fields.Keys + update.fields.Keys ::
        if k in update.fields then
          MergeJsonSkipNull(if k in target.fields then target.fields[k] else Json.Null, update.fields[k])
        else target.fields[k])
    else if update.Null? then target
    else update
  }

  /** No null anywhere along the object members of `v`. */
  predicate NullFree(v: Json.Value)
    decreases v
  {
    match v
    case Null => false
    case Obj(fields) => forall k :: k in fields ==> NullFree(fields[k])
    case _ => true
  }

  /** For an update without nulls, skipping nulls makes no difference. */
  lemma {:induction false} SkipNullAgreesWithoutNulls(target: Json.Value, update: Json.Value)
    requires NullFree(update)
    ensures MergeJsonSkipNull(target, update) == MergeJson(target, update)
    decreases update
  {
    if target.Obj? && update.Obj? {
      forall k | k in update.fields
        ensures MergeJsonSkipNull(target, update).fields[k] == MergeJson(target, update).fields[k]
      {
        SkipNullAgreesWithoutNulls(if k in target.fields then target.fields[k] else Json.Null, update.fields[k]);
      }
    }
  }

  /**
   * A profile's defaults survive a payload whose fields are unset (serialised as null), and
   * a set field overrides them.
   */
  lemma ProfileDefaultsSurviveNulls(model: string)
    ensures MergeJsonSkipNull(
              Json.Obj(map["model" := Json.Str(model), "timeoutSeconds" := Json.Num(42), "queuePriority" := Json.Num(-2)]),
              Json.Obj(map["model" := Json.Null, "timeoutSeconds" := Json.Null, "queuePriority" := Json.Num(3)]))
            == Json.Obj(map["model" := Json.Str(model), "timeoutSeconds" := Json.Num(42), "queuePriority" := Json.Num(3)])
  {
    var t := Json.Obj(map["model" := Json.Str(model), "timeoutSeconds" := Json.Num(42), "queuePriority" := Json.Num(-2)]);
    var u := Json.Obj(map["model" := Json.Null, "timeoutSeconds" := Json.Null, "queuePriority" := Json.Num(3)]);
    var r := MergeJsonSkipNull(t, u);
    assert r.fields.Keys == {"model", "timeoutSeconds", "queuePriority"};
    assert r.fields["queuePriority"] == Json.Num(3);
  }

  // ---------------------------------------------------------------------------------------
  // Payload defaults.
  // ---------------------------------------------------------------------------------------

  /** `is_known_bad_codex_model`: a model that is blank once trimmed and lower-cased. */
  function IsKnownBadCodexModel(model: string): (r: bool)
    ensures r <==> IsBlank(model)
  {
    Lower(Trim(model)) == []
  }

  /** The model after trimming, `None` when blank. */
  function TrimmedModel(model: Option<string>): Option<string>
  {
    match model
    case None => None
    case Some(m) => if Trim(m) == [] then None else Some(Trim(m))
  }

  /**
   * `normalize_payload_defaults`: the model is trimmed and a blank one dropped; a Codex run
   * with no usable model gets "gpt-5.3-codex" and a Claude run with none gets "sonnet".
   */
  function NormalizePayloadDefaults(payload: Models.StartRunPayload): (r: Models.StartRunPayload)
    ensures r == payload.(model := r.model)
    ensures r.model.Some? && !IsBlank(r.model.value)
    ensures payload.model.Some? && !IsBlank(payload.model.value) ==> r.model == Some(Trim(payload.model.value))
    ensures payload.model.None? || IsBlank(payload.model.value) ==>
              r.model == Some(if payload.provider == Models.Codex then DEFAULT_CODEX_MODEL else DEFAULT_CLAUDE_MODEL)
  {
    var model := TrimmedModel(payload.model);
    assert DEFAULT_CODEX_MODEL[0] == 'g' && DEFAULT_CLAUDE_MODEL[0] == 's';
    match payload.provider
    case Codex =>
      (match model
       case Some(m) =>
         if IsKnownBadCodexModel(m) then payload.(model := Some(DEFAULT_CODEX_MODEL)) else payload.(model := model)
       case None => payload.(model := Some(DEFAULT_CODEX_MODEL)))
    case Claude =>
      if model.None? then payload.(model := Some(DEFAULT_CLAUDE_MODEL)) else payload.(model := model)
  }

  /** Normalising twice is normalising once. */
  lemma NormalizePayloadDefaultsIdempotent(payload: Models.StartRunPayload)
    ensures NormalizePayloadDefaults(NormalizePayloadDefaults(payload)) == NormalizePayloadDefaults(payload)
  {
    var once := NormalizePayloadDefaults(payload);
    var twice := NormalizePayloadDefaults(once);
    assert twice.model == Some(Trim(once.model.value));
    if payload.model.Some? && !IsBlank(payload.model.value) {
      TrimTwice(payload.model.value);
    } else {
      TrimKeepsTrimmed(once.model.value);
    }
    assert twice == once.(model := twice.model);
  }

  // ---------------------------------------------------------------------------------------
  // Diagnostics and resume failures.
  // ---------------------------------------------------------------------------------------

  datatype DiagnosticLevel = Error | Warning
  {
    function Name(): string
    {
      match this
      case Error => "error"
      case Warning => "warning"
    }
  }

  datatype Diagnostic = Diagnostic(level: DiagnosticLevel, text: string)

  predicate LooksLikeError(lower: string)
  {
    Contains(lower, " error") || StartsWith(lower, "error:") || StartsWith(lower, "fatal:")
  }

  predicate LooksLikeWarning(lower: string)
  {
    Contains(lower, " warn") || StartsWith(lower, "warning:") || StartsWith(lower, "warn:")
  }

  /**
   * `detect_diagnostic_line`: a non-blank stderr line is an error or a warning by the
   * markers in its lower-cased trimmed text; errors take precedence.
   */
  function DetectDiagnosticLine(line: string): (r: Option<Diagnostic>)
    ensures r.Some? ==> r.value.text == Trim(line) && r.value.text != []
    ensures IsBlank(line) ==> r.None?
    ensures r.Some? && r.value.level == Error <==> !IsBlank(line) && LooksLikeError(Lower(Trim(line)))
    ensures r.Some? && r.value.level == Warning <==>
              !IsBlank(line) && !LooksLikeError(Lower(Trim(line))) && LooksLikeWarning(Lower(Trim(line)))
  {
    var trimmed := Trim(line);
    if trimmed == [] then None
    else
      var lower := Lower(trimmed);
      if LooksLikeError(lower) then Some(Diagnostic(Error, trimmed))
      else if LooksLikeWarning(lower) then Some(Diagnostic(Warning, trimmed))
      else None
  }

  /** Re-detecting the reported text of a diagnostic gives the same diagnostic. */
  lemma DetectDiagnosticLineStable(line: string)
    requires DetectDiagnosticLine(line).Some?
    ensures DetectDiagnosticLine(DetectDiagnosticLine(line).value.text) == DetectDiagnosticLine(line)
  {
    TrimTwice(line);
  }

  const NO_ACTIVE_SESSION: string := "no active session"

  const RESUME_INVALID_MATCHERS: seq<string> := [
    "not_found: " + NO_ACTIVE_SESSION + " for run",
    NO_ACTIVE_SESSION,
    "thread not found",
    "invalid session id",
    "could not resume",
    "session not found",
    NO_ACTIVE_SESSION + " for run"
  ]

  /** `is_resume_invalid_failure`: the lower-cased failure text contains one of the matchers. */
  function IsResumeInvalidFailure(textLowercase: string): (r: bool)
    ensures r <==> exists i :: 0 <= i < |RESUME_INVALID_MATCHERS| && Contains(textLowercase, RESUME_INVALID_MATCHERS[i])
  {
    Contains(textLowercase, RESUME_INVALID_MATCHERS[0])
    || Contains(textLowercase, RESUME_INVALID_MATCHERS[1])
    || Contains(textLowercase, RESUME_INVALID_MATCHERS[2])
    || Contains(textLowercase, RESUME_INVALID_MATCHERS[3])
    || Contains(textLowercase, RESUME_INVALID_MATCHERS[4])
    || Contains(textLowercase, RESUME_INVALID_MATCHERS[5])
    || Contains(textLowercase, RESUME_INVALID_MATCHERS[6])
  }

  /**
   * Two of the seven matchers are redundant: both longer "no active session" phrases contain
   * "no active session", so five matchers decide the same texts.
   */
  lemma ResumeInvalidNeedsFiveMatchers(text: string)
    ensures IsResumeInvalidFailure(text) <==>
              Contains(text, NO_ACTIVE_SESSION) || Contains(text, "thread not found")
              || Contains(text, "invalid session id") || Contains(text, "could not resume")
              || Contains(text, "session not found")
  {
    ContainsInfix("not_found: ", NO_ACTIVE_SESSION, " for run");
    ContainsInfix("", NO_ACTIVE_SESSION, " for run");
    assert "" + NO_ACTIVE_SESSION + " for run" == RESUME_INVALID_MATCHERS[6];
    if Contains(text, RESUME_INVALID_MATCHERS[0]) {
      ContainsTransitive(text, RESUME_INVALID_MATCHERS[0], NO_ACTIVE_SESSION);
    }
    if Contains(text, RESUME_INVALID_MATCHERS[6]) {
      ContainsTransitive(text, RESUME_INVALID_MATCHERS[6], NO_ACTIVE_SESSION);
    }
  }

  /** `payload_has_resume_request`: a non-blank resume id or `continueSession == true`. */
  function PayloadHasResumeRequest(payload: Models.StartRunPayload): (r: bool)
    ensures r <==> payload.harness.Some?
                   && ((payload.harness.value.resumeSessionId.Some? && Trim(payload.harness.value.resumeSessionId.value) != [])
                       || payload.harness.value.continueSession == Some(true))
  {
    payload.harness.Some?
    && ((payload.harness.value.resumeSessionId.Some? && !IsBlank(payload.harness.value.resumeSessionId.value))
        || payload.harness.value.continueSession == Some(true))
  }

  // ---------------------------------------------------------------------------------------
  // Retry back-off.
  // ---------------------------------------------------------------------------------------

  /** The retry counters of a scheduler job (`attempts` is `u32`, the back-off `u64`). */
  datatype RetryJob = RetryJob(attempts: nat, maxRetries: nat, retryBackoffMs: nat)

  /**
   * The back-off before retry number `attempts`: `backoff` times `2^(attempts-1)`, both
   * saturating at `u64::MAX` (the shift overflows from 64 on), and never below 100 ms.
   */
  function RetryDelayMs(attempts: nat, backoffMs: nat): (r: nat)
    ensures 100 <= r
    ensures r <= Machine.U64_MAX
    ensures backoffMs <= Machine.U64_MAX ==> backoffMs <= r
    ensures 1 <= attempts <= 64 && backoffMs * Machine.Pow2(attempts - 1) <= Machine.U64_MAX ==>
              r == if backoffMs * Machine.Pow2(attempts - 1) < 100 then 100 else backoffMs * Machine.Pow2(attempts - 1)
  {
    var shift := Machine.SaturatingSub(attempts, 1);
    var multiplier := Machine.CheckedShlOne64(shift).UnwrapOr(Machine.U64_MAX);
    Machine.MulMonotone(backoffMs, 1, multiplier);
    var delay := Machine.SaturatingMul64(backoffMs, multiplier);
    if delay < 100 then 100 else delay
  }

  /** A later attempt never waits less than an earlier one. */
  lemma RetryDelayMonotone(a: nat, b: nat, backoffMs: nat)
    requires a <= b
    ensures RetryDelayMs(a, backoffMs) <= RetryDelayMs(b, backoffMs)
  {
    var sa := Machine.SaturatingSub(a, 1);
    var sb := Machine.SaturatingSub(b, 1);
    var ma := Machine.CheckedShlOne64(sa).UnwrapOr(Machine.U64_MAX);
    var mb := Machine.CheckedShlOne64(sb).UnwrapOr(Machine.U64_MAX);
    if sb < 64 {
      Machine.Pow2Monotone(sa, sb);
      Machine.SaturatingMulMonotone(backoffMs, ma, mb);
    } else if sa < 64 {
      if backoffMs > 0 {
        assert backoffMs * mb >= mb;
      }
    }
  }

  /**
   * `schedule_retry_if_eligible`'s decision: the delay of the retry, or `None` when the run is
   * interactive, has no job, allows no retries or has used them all.
   */
  function RetryDelayFor(mode: Models.RunMode, job: Option<RetryJob>): (r: Option<nat>)
    ensures r.Some? <==> mode.NonInteractive? && job.Some?
                         && job.value.maxRetries > 0 && job.value.attempts <= job.value.maxRetries
    ensures r.Some? ==> 100 <= r.value <= Machine.U64_MAX
  {
    if mode.Interactive? then None
    else match job
      case None => None
      case Some(j) =>
        if j.maxRetries == 0 then None
        else if j.attempts > j.maxRetries then None
        else Some(RetryDelayMs(j.attempts, j.retryBackoffMs))
  }

  // ---------------------------------------------------------------------------------------
  // Metric output.
  // ---------------------------------------------------------------------------------------

  datatype MetricOutput = MetricOutput(values: Json.Value, html: string)

  const METRIC_OUTPUT_ERROR: string :=
    "Could not parse metric output: no valid JSON with 'values' and 'html' keys found"

  /** An object with both "values" and "html"; a non-string html reads as "". */
  function ExtractMetricOutput(parsed: Json.Value): (r: Option<MetricOutput>)
    ensures r.Some? <==> Json.Get(parsed, "values").Some? && Json.Get(parsed, "html").Some?
    ensures r.Some? ==> Json.Get(parsed, "values") == Some(r.value.values)
  {
    match (Json.Get(parsed, "values"), Json.Get(parsed, "html"))
    case (Some(values), Some(html)) => Some(MetricOutput(values, if html.Str? then html.s else ""))
    case _ => None
  }

  /** A candidate text parsed (by the JSON parser `parse`) and checked for both keys. */
  function FromCandidate(parse: string -> Option<Json.Value>, text: string): Option<MetricOutput>
  {
    match parse(text)
    case None => None
    case Some(v) => ExtractMetricOutput(v)
  }

  /** The trimmed body of the first "```json" fence that has a closing "```". */
  function FencedJsonBlock(raw: string): (r: Option<string>)
  {
    match Find(raw, "```json")
    case None => None
    case Some(start) =>
      var after := raw[start + 7..];
      match Find(after, "```")
      case None => None
      case Some(end) => Some(Trim(after[..end]))
  }

  /**
   * The index of the '}' that brings the brace depth back to zero, scanning from `i` with the
   * given depth, string and escape state; braces inside double-quoted strings do not count,
   * and a backslash inside a string skips the next byte.
   */
  function ScanClose(raw: string, i: nat, depth: int, inString: bool, escapeNext: bool): (r: Option<nat>)
    requires i <= |raw|
    ensures r.Some? ==> i <= r.value < |raw| && raw[r.value] == '}'
    decreases |raw| - i
  {
    if i == |raw| then None
    else if escapeNext then ScanClose(raw, i + 1, depth, inString, false)
    else if raw[i] == '\\' && inString then ScanClose(raw, i + 1, depth, inString, true)
    else if raw[i] == '"' then ScanClose(raw, i + 1, depth, !inString, false)
    else if inString then ScanClose(raw, i + 1, depth, inString, false)
    else if raw[i] == '{' then ScanClose(raw, i + 1, depth + 1, inString, false)
    else if raw[i] == '}' then
      if depth - 1 == 0 then Some(i) else ScanClose(raw, i + 1, depth - 1, inString, false)
    else ScanClose(raw, i + 1, depth, inString, false)
  }

  /** The first balanced `{...}` starting at the first '{'. */
  function FirstBalancedObject(raw: string): (r: Option<string>)
    ensures r.Some? ==> |r.value| >= 2 && r.value[0] == '{' && r.value[|r.value| - 1] == '}'
  {
    match FindChar(raw, '{')
    case None => None
    case Some(start) =>
      match ScanClose(raw, start, 0, false, false)
      case None => None
      case Some(close) => Some(raw[start..close + 1])
  }

  /**
   * `parse_metric_output` as a specification: the whole text, then the first ```json block,
   * then the first balanced object; the first that parses with both keys wins.
   */
  function MetricOutputOf(parse: string -> Option<Json.Value>, raw: string): Result<MetricOutput, string>
  {
    match FromCandidate(parse, raw)
    case Some(out) => Ok(out)
    case None =>
      var fenced := match FencedJsonBlock(raw) case Some(block) => FromCandidate(parse, block) case None => None;
      match fenced
      case Some(out) => Ok(out)
      case None =>
        var balanced := match FirstBalancedObject(raw) case Some(obj) => FromCandidate(parse, obj) case None => None;
        match balanced
        case Some(out) => Ok(out)
        case None => Err(METRIC_OUTPUT_ERROR)
  }

  /** The texts tried, in order. */
  function MetricCandidates(raw: string): (r: seq<string>)
    ensures 1 <= |r| <= 3 && r[0] == raw
  {
    [raw]
    + (match FencedJsonBlock(raw) case Some(b) => [b] case None => [])
    + (match FirstBalancedObject(raw) case Some(o) => [o] case None => [])
  }

  /** The first candidate that parses with both keys. */
  function FirstParsed(parse: string -> Option<Json.Value>, candidates: seq<string>): (r: Option<MetricOutput>)
    ensures r.None? <==> forall i :: 0 <= i < |candidates| ==> FromCandidate(parse, candidates[i]).None?
    ensures r.Some? ==>
              exists i :: 0 <= i < |candidates| && FromCandidate(parse, candidates[i]) == r
                && forall j :: 0 <= j < i ==> FromCandidate(parse, candidates[j]).None?
    decreases |candidates|
  {
    if candidates == [] then None
    else
      match FromCandidate(parse, candidates[0])
      case Some(out) => Some(out)
      case None =>
        var r := FirstParsed(parse, candidates[1..]);
        assert forall i :: 1 <= i < |candidates| ==> candidates[i] == candidates[1..][i - 1];
        r
  }

  /**
   * The parse fails exactly when no candidate parses with both keys, and a success is the
   * first candidate that does.
   */
  lemma MetricOutputIsFirstParsed(parse: string -> Option<Json.Value>, raw: string)
    ensures MetricOutputOf(parse, raw).Ok? <==> FirstParsed(parse, MetricCandidates(raw)).Some?
    ensures MetricOutputOf(parse, raw).Ok? ==>
              Some(MetricOutputOf(parse, raw).value) == FirstParsed(parse, MetricCandidates(raw))
  {
    var fenced := match FencedJsonBlock(raw) case Some(b) => [b] case None => [];
    var balanced := match FirstBalancedObject(raw) case Some(o) => [o] case None => [];
    assert MetricCandidates(raw) == [raw] + (fenced + balanced);
    FirstParsedCons(parse, raw, fenced + balanced);
    if fenced != [] {
      assert fenced + balanced == [fenced[0]] + balanced;
      FirstParsedCons(parse, fenced[0], balanced);
    }
    if balanced != [] {
      assert balanced == [balanced[0]] + [];
      FirstParsedCons(parse, balanced[0], []);
    }
  }

  lemma FirstParsedCons(parse: string -> Option<Json.Value>, head: string, tail: seq<string>)
    ensures FirstParsed(parse, [head] + tail) ==
              if FromCandidate(parse, head).Some? then FromCandidate(parse, head) else FirstParsed(parse, tail)
  {
    assert ([head] + tail)[1..] == tail;
  }

  /** The scan state of `parse_metric_output` between two bytes. */
  datatype ScanState = ScanState(depth: int, inString: bool, escapeNext: bool)

  /** The effect of one byte on the scan state. */
  function ScanStep(st: ScanState, b: char): ScanState
  {
    if st.escapeNext then st.(escapeNext := false)
    else if b == '\\' && st.inString then st.(escapeNext := true)
    else if b == '"' then st.(inString := !st.inString)
    else if st.inString then st
    else if b == '{' then st.(depth := st.depth + 1)
    else if b == '}' then st.(depth := st.depth - 1)
    else st
  }

  /** The state after reading `raw[start..k]` left to right from the initial state. */
  function StateBefore(raw: string, start: nat, k: nat): ScanState
    requires start <= k <= |raw|
    decreases k - start
  {
    if k == start then ScanState(0, false, false)
    else ScanStep(StateBefore(raw, start, k - 1), raw[k - 1])
  }

  /**
   * `raw[k]` is a '}' outside any string and not escaped that brings the depth counted
   * from `start` back to zero.
   */
  predicate ClosesAt(raw: string, start: nat, k: nat)
    requires start <= k < |raw|
  {
    var st := StateBefore(raw, start, k);
    raw[k] == '}' && !st.escapeNext && !st.inString && st.depth == 1
  }

  /** One step of the scan: stop at a closing brace, otherwise read the byte. */
  lemma ScanCloseStep(raw: string, start: nat, i: nat)
    requires start <= i < |raw|
    ensures var st := StateBefore(raw, start, i);
            var next := StateBefore(raw, start, i + 1);
            ScanClose(raw, i, st.depth, st.inString, st.escapeNext) ==
              if ClosesAt(raw, start, i) then Some(i)
              else ScanClose(raw, i + 1, next.depth, next.inString, next.escapeNext)
  {
  }

  /** From any point, the scan finds the first closing brace at or after it. */
  lemma {:induction false} ScanCloseFromState(raw: string, start: nat, i: nat, c: nat)
    requires start <= i <= |raw|
    ensures var st := StateBefore(raw, start, i);
            ScanClose(raw, i, st.depth, st.inString, st.escapeNext) == Some(c) <==>
              i <= c < |raw| && ClosesAt(raw, start, c)
              && forall k :: i <= k < c ==> !ClosesAt(raw, start, k)
    decreases |raw| - i
  {
    if i < |raw| {
      ScanCloseStep(raw, start, i);
      ScanCloseFromState(raw, start, i + 1, c);
    }
  }

  /** The scan finds nothing exactly when no brace closes the object. */
  lemma {:induction false} ScanCloseNoneFromState(raw: string, start: nat, i: nat)
    requires start <= i <= |raw|
    ensures var st := StateBefore(raw, start, i);
            ScanClose(raw, i, st.depth, st.inString, st.escapeNext).None? <==>
              forall k :: i <= k < |raw| ==> !ClosesAt(raw, start, k)
    decreases |raw| - i
  {
    if i < |raw| {
      ScanCloseStep(raw, start, i);
      ScanCloseNoneFromState(raw, start, i + 1);
    }
  }

  /**
   * The scan from the first '{' stops at the first '}' outside strings that brings the
   * depth back to zero, and finds none exactly when there is no such brace.
   */
  lemma ScanCloseIsFirstClosing(raw: string, start: nat, c: nat)
    requires start <= |raw|
    ensures ScanClose(raw, start, 0, false, false) == Some(c) <==>
              start <= c < |raw| && ClosesAt(raw, start, c)
              && forall k :: start <= k < c ==> !ClosesAt(raw, start, k)
    ensures ScanClose(raw, start, 0, false, false).None? <==>
              forall k :: start <= k < |raw| ==> !ClosesAt(raw, start, k)
  {
    ScanCloseFromState(raw, start, start, c);
    ScanCloseNoneFromState(raw, start, start);
  }

  /**
   * The candidate is the text from the first '{' to the first brace that balances it,
   * and there is none exactly when the text has no '{' or the first one is never balanced.
   */
  lemma FirstBalancedObjectSpan(raw: string)
    ensures FirstBalancedObject(raw).None? <==>
              FindChar(raw, '{').None?
              || forall k :: FindChar(raw, '{').value <= k < |raw| ==> !ClosesAt(raw, FindChar(raw, '{').value, k)
    ensures FirstBalancedObject(raw).Some? ==>
              exists c :: FindChar(raw, '{').value <= c < |raw|
                && ClosesAt(raw, FindChar(raw, '{').value, c)
                && (forall k :: FindChar(raw, '{').value <= k < c ==> !ClosesAt(raw, FindChar(raw, '{').value, k))
                && FirstBalancedObject(raw) == Some(raw[FindChar(raw, '{').value..c + 1])
  {
    if FindChar(raw, '{').Some? {
      var start := FindChar(raw, '{').value;
      match ScanClose(raw, start, 0, false, false)
      case None =>
        ScanCloseIsFirstClosing(raw, start, 0);
      case Some(c) =>
        ScanCloseIsFirstClosing(raw, start, c);
    }
  }

  /** A '}' inside a string, and an escaped quote, do not end the object. */
  lemma BraceInStringIsSkipped()
    ensures FirstBalancedObject("x{\"}\\\"\"}y") == Some("{\"}\\\"\"}")
  {
    var raw := "x{\"}\\\"\"}y";
    assert FindChar(raw, '{') == Some(1) by { assert raw[0] != '{' && raw[1] == '{'; }
    assert raw[1..8] == "{\"}\\\"\"}";
  }

  /** Scanning over bytes with no quote, backslash or brace keeps the state. */
  lemma {:induction false} ScanSkipsPlainBytes(raw: string, i: nat, j: nat, depth: int)
    requires i <= j <= |raw|
    requires forall k :: i <= k < j ==> raw[k] !in "\"\\{}"
    ensures ScanClose(raw, i, depth, false, false) == ScanClose(raw, j, depth, false, false)
    decreases j - i
  {
    if i < j {
      assert raw[i] !in "\"\\{}";
      ScanSkipsPlainBytes(raw, i + 1, j, depth);
    }
  }

  /** A flat object after brace-free text is found whole. */
  lemma FlatObjectIsFound(prefix: string, body: string, suffix: string)
    requires forall k :: 0 <= k < |prefix| ==> prefix[k] != '{'
    requires forall k :: 0 <= k < |body| ==> body[k] !in "\"\\{}"
    ensures FirstBalancedObject(prefix + "{" + body + "}" + suffix) == Some("{" + body + "}")
  {
    var raw := prefix + "{" + body + "}" + suffix;
    var start := |prefix|;
    var close := start + 1 + |body|;
    FindCharAt(raw, '{', start);
    forall k | start + 1 <= k < close
      ensures raw[k] !in "\"\\{}"
    {
      assert raw[k] == body[k - start - 1];
    }
    ScanSkipsPlainBytes(raw, start + 1, close, 1);
    assert raw[close] == '}';
    assert raw[start..close + 1] == "{" + body + "}";
  }

  /**
   * The brace scan of `parse_metric_output` from the first '{': depth, string and escape
   * state are loop variables, and the scan stops at the '}' that closes the first object.
   */
  method ScanForClose(raw: string, start: nat) returns (close: Option<nat>)
    requires start <= |raw|
    ensures close == ScanClose(raw, start, 0, false, false)
  {
    var i := start;
    var depth := 0;
    var inString := false;
    var escapeNext := false;
    close := None;
    while i < |raw| && close.None?
      invariant start <= i <= |raw|
      invariant close.None? ==> ScanClose(raw, i, depth, inString, escapeNext) == ScanClose(raw, start, 0, false, false)
      invariant close.Some? ==> close == ScanClose(raw, start, 0, false, false)
      decreases |raw| - i, close.None?
    {
      if escapeNext {
        escapeNext := false;
      } else if raw[i] == '\\' && inString {
        escapeNext := true;
      } else if raw[i] == '"' {
        inString := !inString;
      } else if inString {
      } else if raw[i] == '{' {
        depth := depth + 1;
      } else if raw[i] == '}' {
        depth := depth - 1;
        if depth == 0 {
          close := Some(i);
        }
      }
      if close.None? {
        i := i + 1;
      }
    }
  }

  /** `parse_metric_output`: the three strategies in order, with the brace scan as a loop. */
  method ParseMetricOutput(parse: string -> Option<Json.Value>, raw: string)
    returns (r: Result<MetricOutput, string>)
    ensures r == MetricOutputOf(parse, raw)
  {
    var whole := FromCandidate(parse, raw);
    if whole.Some? {
      return Ok(whole.value);
    }
    var fence := FencedJsonBlock(raw);
    if fence.Some? {
      var block := FromCandidate(parse, fence.value);
      if block.Some? {
        return Ok(block.value);
      }
    }
    var balanced: Option<string> := None;
    var open := FindChar(raw, '{');
    if open.Some? {
      var start := open.value;
      var close := ScanForClose(raw, start);
      if close.Some? {
        balanced := Some(raw[start..close.value + 1]);
      }
    }
    assert balanced == FirstBalancedObject(raw);
    if balanced.Some? {
      var candidate := FromCandidate(parse, balanced.value);
      if candidate.Some? {
        return Ok(candidate.value);
      }
    }
    return Err(METRIC_OUTPUT_ERROR);
  }
}
