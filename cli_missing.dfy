/**
 * Missing-CLI detection (harness/cli_missing.rs): a stderr line that says the provider's
 * executable could not be found is turned into a structured `CLI_MISSING` payload.
 */
module CliMissing {
  import opened Wrappers
  import opened Text
  import Models
  import Json

  /** The phrases, in lower case, that mark a missing executable. */
  const CLI_MISSING_PATTERNS: seq<string> := [
    "not installed",
    "command not found",
    "no such file or directory",
    WINDOWS_MESSAGE
  ]

  /** `is_cli_missing_line`: the lower-cased line contains one of the phrases. */
  predicate IsCliMissingLine(line: string)
  {
    exists k :: 0 <= k < |CLI_MISSING_PATTERNS| && Contains(Lower(line), CLI_MISSING_PATTERNS[k])
  }

  /** The payload fields of a missing-CLI report. */
  datatype CliMissingPayload = CliMissingPayload(provider: string, message: string, code: string)

  /** The payload as the JSON object the backend emits. */
  function PayloadJson(p: CliMissingPayload): Json.Value
  {
    Json.Obj(map["provider" := Json.Str(p.provider), "message" := Json.Str(p.message), "code" := Json.Str(p.code)])
  }

  /** `build_cli_missing_payload`. */
  function BuildCliMissingPayload(line: string, provider: Models.Provider): (r: Option<CliMissingPayload>)
    ensures r.None? <==> !IsCliMissingLine(line)
    ensures r.Some? ==> r.value == CliMissingPayload(provider.Name(), line, "CLI_MISSING")
  {
    if IsCliMissingLine(line) then Some(CliMissingPayload(provider.Name(), line, "CLI_MISSING")) else None
  }

  /** The check ignores case: a line and its lower-cased form are classified alike. */
  lemma DetectionIgnoresCase(line: string)
    ensures IsCliMissingLine(line) <==> IsCliMissingLine(Lower(line))
  {
    assert Lower(Lower(line)) == Lower(line);
  }

  /** A line reporting a missing `claude` on a POSIX shell is detected, in any case. */
  lemma PosixMessageIsDetected()
    ensures IsCliMissingLine("command not found: claude")
    ensures IsCliMissingLine("Command Not Found: claude")
  {
    var pattern := CLI_MISSING_PATTERNS[1];
    assert MatchesAt(Lower("command not found: claude"), pattern, 0);
    assert MatchesAt(Lower("Command Not Found: claude"), pattern, 0);
  }

  /** Lower-casing works piece by piece. */
  lemma LowerAppend(a: string, b: string)
    ensures Lower(a + b) == Lower(a) + Lower(b)
  {
  }

  /** `p` does not occur at `i` when the characters at offset `j` differ. */
  lemma MismatchAt(s: string, p: string, i: nat, j: nat)
    requires j < |p| && i + j < |s| && s[i + j] != p[j]
    ensures !MatchesAt(s, p, i)
  {
  }

  const WINDOWS_MESSAGE := "is not recognized " + "as an internal " + "or external command"

  /** The Windows message for an unknown command is detected. */
  lemma WindowsMessageIsDetected()
    ensures IsCliMissingLine(WINDOWS_MESSAGE)
  {
    var a, b, c := "is not recognized ", "as an internal ", "or external command";
    LowerAppend(a, b);
    LowerAppend(a + b, c);
    assert Lower(a) == a && Lower(b) == b && Lower(c) == c;
    assert CLI_MISSING_PATTERNS[3] == WINDOWS_MESSAGE;
    assert MatchesAt(Lower(WINDOWS_MESSAGE), CLI_MISSING_PATTERNS[3], 0);
  }

  /** An ordinary stderr line is not a missing-CLI line, and yields no payload. */
  lemma OrdinaryLineIsNotDetected(provider: Models.Provider)
    ensures !IsCliMissingLine("normal stderr line")
    ensures BuildCliMissingPayload("normal stderr line", provider).None?
  {
    var line := "normal stderr line";
    assert Lower(line) == line;
    forall k, i | 0 <= k < |CLI_MISSING_PATTERNS| && 0 <= i <= |line|
      ensures !MatchesAt(line, CLI_MISSING_PATTERNS[k], i)
    {
      var p := CLI_MISSING_PATTERNS[k];
      if k >= 2 || i + |p| > |line| {
        assert |p| > |line| - i;
      } else if i == 0 {
        // "normal ..." against "not ..." and "command ...": the third or first letters differ.
        if k == 0 { MismatchAt(line, p, 0, 2); } else { MismatchAt(line, p, 0, 0); }
      } else {
        // The phrases start with 'n' or 'c', which no other position before the tail holds.
        assert line[i] != p[0];
        MismatchAt(line, p, i, 0);
      }
    }
  }
}
