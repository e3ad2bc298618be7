/**
 * The CLI allowlist (harness/cli_allowlist.rs): a run may be given a private bin directory that
 * exposes only named commands, either as one shim per command or as a single wrapper that
 * dispatches on its first argument. The model covers the name checks, the quoting used in the
 * generated scripts, the commands exposed, the cleanup list and the PATH entry; writing the
 * scripts and setting their permissions are file-system effects outside it.
 */
module CliAllowlist {
  import opened Wrappers
  import opened Errors
  import opened Text
  import opened Models

  /** A character of `^[A-Za-z0-9_-]+$`. */
  predicate IsSafeCommandChar(c: char)
  {
    IsAsciiAlphanumeric(c) || c == '_' || c == '-'
  }

  /** The whole text matches `^[A-Za-z0-9_-]+$`. */
  predicate IsSafeCommandName(s: string)
  {
    s != [] && forall i :: 0 <= i < |s| ==> IsSafeCommandChar(s[i])
  }

  /** `normalize_name`: the trimmed name when it is a safe command name, a policy error otherwise. */
  function NormalizeName(value: string, what: string): (r: AppResult<string>)
    ensures r.Ok? <==> IsSafeCommandName(Trim(value))
    ensures r.Ok? ==> r.value == Trim(value)
    ensures r.Err? ==> r.error.Policy?
    ensures IsBlank(value) ==> r == Err(Policy(what + " cannot be empty"))
  {
    var trimmed := Trim(value);
    if trimmed == [] then Err(Policy(what + " cannot be empty"))
    else if !IsSafeCommandName(trimmed) then Err(Policy(what + " '" + value + "' contains invalid characters"))
    else Ok(trimmed)
  }

  /** A safe name is its own normal form. */
  lemma NormalizeNameIsIdempotent(value: string, what: string)
    requires NormalizeName(value, what).Ok?
    ensures NormalizeName(NormalizeName(value, what).value, what) == NormalizeName(value, what)
  {
    var t := Trim(value);
    assert IsSafeCommandName(t);
    assert Trim(t) == t by {
      assert !IsWhitespace(t[0]) && !IsWhitespace(t[|t| - 1]);
    }
  }

  // ----- Quoting -----

  /** The replacement of one single quote inside a single-quoted shell word: `'"'"'`. */
  const QUOTE_ESCAPE: string := "'\"'\"'"

  /** `shell_quote`: a single-quoted POSIX word in which each `'` is closed, double-quoted and reopened. */
  function ShellQuote(value: string): (r: string)
    ensures |r| >= 2 && r[0] == '\'' && r[|r| - 1] == '\''
  {
    "'" + ReplaceChar(value, '\'', QUOTE_ESCAPE) + "'"
  }

  /** `cmd_quote`: a double-quoted cmd.exe word in which each `"` is doubled. */
  function CmdQuote(value: string): (r: string)
    ensures |r| >= 2 && r[0] == '"' && r[|r| - 1] == '"'
  {
    "\"" + ReplaceChar(value, '"', "\"\"") + "\""
  }

  /**
   * The quote removal a POSIX shell applies to one word: outside quotes a backslash keeps the
   * next character; single quotes keep everything up to the next single quote; double quotes
   * keep everything up to the next double quote except that a backslash escapes `$`, a
   * backquote, `"`, a backslash or a newline.
   */
  function PosixUnquote(s: string): string
    decreases |s|, 0
  {
    if s == [] then []
    else if s[0] == '\'' then InSingleQuotes(s[1..])
    else if s[0] == '"' then InDoubleQuotes(s[1..])
    else if s[0] == '\\' && |s| > 1 then [s[1]] + PosixUnquote(s[2..])
    else [s[0]] + PosixUnquote(s[1..])
  }

  function InSingleQuotes(s: string): string
    decreases |s|, 1
  {
    if s == [] then []
    else if s[0] == '\'' then PosixUnquote(s[1..])
    else [s[0]] + InSingleQuotes(s[1..])
  }

  predicate EscapableInDoubleQuotes(c: char)
  {
    c == '$' || c == '`' || c == '"' || c == '\\' || c == '\n'
  }

  function InDoubleQuotes(s: string): string
    decreases |s|, 1
  {
    if s == [] then []
    else if s[0] == '"' then PosixUnquote(s[1..])
    else if s[0] == '\\' && |s| > 1 && EscapableInDoubleQuotes(s[1]) then [s[1]] + InDoubleQuotes(s[2..])
    else [s[0]] + InDoubleQuotes(s[1..])
  }

  /** The escape closes the quotes, yields one quote from a double-quoted word, and reopens them. */
  lemma EscapeReadsBack(rest: string)
    ensures InSingleQuotes(QUOTE_ESCAPE + rest) == "'" + InSingleQuotes(rest)
  {
    var s := QUOTE_ESCAPE + rest;
    var a, b, c := "\"'\"'" + rest, "'\"'" + rest, "\"'" + rest;
    assert s[0] == '\'' && s[1..] == a;
    assert a[0] == '"' && a[1..] == b;
    assert b[0] == '\'' && b[1..] == c;
    assert c[0] == '"' && c[1..] == "'" + rest;
    assert ("'" + rest)[0] == '\'' && ("'" + rest)[1..] == rest;
    calc {
      InSingleQuotes(s);
      PosixUnquote(a);
      InDoubleQuotes(b);
      "'" + InDoubleQuotes(c);
      "'" + PosixUnquote("'" + rest);
      "'" + InSingleQuotes(rest);
    }
  }

  /** Inside the opening quote, the quoted body reads back as the value. */
  lemma {:induction false} SingleQuotedBodyReadsBack(value: string)
    ensures InSingleQuotes(ReplaceChar(value, '\'', QUOTE_ESCAPE) + "'") == value
    decreases |value|
  {
    if value == [] {
      assert ReplaceChar(value, '\'', QUOTE_ESCAPE) + "'" == "'";
    } else {
      var rest := ReplaceChar(value[1..], '\'', QUOTE_ESCAPE) + "'";
      SingleQuotedBodyReadsBack(value[1..]);
      assert value == [value[0]] + value[1..];
      if value[0] == '\'' {
        assert ReplaceChar(value, '\'', QUOTE_ESCAPE) + "'" == QUOTE_ESCAPE + rest;
        EscapeReadsBack(rest);
      } else {
        var s := [value[0]] + rest;
        assert ReplaceChar(value, '\'', QUOTE_ESCAPE) + "'" == s;
        assert s[1..] == rest;
      }
    }
  }

  /** A POSIX shell reads back exactly the quoted value, whatever characters it holds. */
  lemma ShellQuoteRoundTrip(value: string)
    ensures PosixUnquote(ShellQuote(value)) == value
  {
    var body := ReplaceChar(value, '\'', QUOTE_ESCAPE) + "'";
    assert ShellQuote(value) == "'" + body;
    assert ("'" + body)[1..] == body;
    SingleQuotedBodyReadsBack(value);
  }

  /**
   * The quote removal cmd.exe applies inside a double-quoted argument: a doubled `"` stands for
   * one `"`, a single `"` ends the argument.
   */
  function CmdInQuotes(s: string): string
    decreases |s|
  {
    if s == [] then []
    else if s[0] == '"' then
      if |s| > 1 && s[1] == '"' then "\"" + CmdInQuotes(s[2..]) else []
    else [s[0]] + CmdInQuotes(s[1..])
  }

  /** cmd.exe reads back exactly the quoted value. */
  lemma {:induction false} CmdQuoteRoundTrip(value: string)
    ensures CmdInQuotes(CmdQuote(value)[1..]) == value
    decreases |value|
  {
    var body := ReplaceChar(value, '"', "\"\"") + "\"";
    assert CmdQuote(value)[1..] == body;
    if value == [] {
      assert body == "\"";
    } else {
      var rest := ReplaceChar(value[1..], '"', "\"\"") + "\"";
      CmdQuoteRoundTrip(value[1..]);
      assert CmdQuote(value[1..])[1..] == rest;
      if value[0] == '"' {
        assert body == "\"\"" + rest;
        assert body[2..] == rest;
      } else {
        assert body == [value[0]] + rest;
        assert body[1..] == rest;
      }
      assert value == [value[0]] + value[1..];
    }
  }

  // ----- PATH -----

  /** The key of the first environment variable named PATH in any case, or "PATH". */
  function PathKey(vars: seq<(string, string)>): (r: string)
    ensures Lower(r) == "path"
    ensures (forall i :: 0 <= i < |vars| ==> Lower(vars[i].0) != "path") ==> r == "PATH"
    ensures r == "PATH" || exists i :: 0 <= i < |vars| && vars[i].0 == r
  {
    if vars == [] then
      assert Lower("PATH") == "path";
      "PATH"
    else if Lower(vars[0].0) == "path" then vars[0].0
    else
      var r := PathKey(vars[1..]);
      assert forall i :: 1 <= i < |vars| ==> vars[i] == vars[1..][i - 1];
      r
  }

  /** `std::env::var(key)`, empty when unset: the first variable with exactly that name. */
  function VarOrEmpty(vars: seq<(string, string)>, key: string): (r: string)
    ensures (forall i :: 0 <= i < |vars| ==> vars[i].0 != key) ==> r == []
  {
    if vars == [] then []
    else if vars[0].0 == key then vars[0].1
    else VarOrEmpty(vars[1..], key)
  }

  /** The separator of PATH entries: ';' on Windows, ':' elsewhere. */
  function PathDelimiter(windows: bool): char
  {
    if windows then ';' else ':'
  }

  /**
   * `path_env_with_prepend`: one variable, the PATH key as the process spells it, whose value
   * puts the bin directory first.
   */
  function PathEnvWithPrepend(binDir: string, vars: seq<(string, string)>, windows: bool): (env: map<string, string>)
    ensures |env.Keys| == 1 && PathKey(vars) in env
    ensures var current := VarOrEmpty(vars, PathKey(vars));
            && (current == [] ==> env[PathKey(vars)] == binDir)
            && (current != [] ==> env[PathKey(vars)] == binDir + [PathDelimiter(windows)] + current)
  {
    var key := PathKey(vars);
    var current := VarOrEmpty(vars, key);
    var next := if current == [] then binDir else binDir + [PathDelimiter(windows)] + current;
    var env := map[key := next];
    assert env.Keys == {key};
    env
  }

  /** The bin directory comes first on the new PATH and the old PATH follows it unchanged. */
  lemma BinDirComesFirst(binDir: string, vars: seq<(string, string)>, windows: bool)
    ensures var env := PathEnvWithPrepend(binDir, vars, windows);
            var current := VarOrEmpty(vars, PathKey(vars));
            var value := env[PathKey(vars)];
            && StartsWith(value, binDir)
            && (current != [] ==> EndsWith(value, current) && value[|binDir|] == PathDelimiter(windows))
  {
    var env := PathEnvWithPrepend(binDir, vars, windows);
    var current := VarOrEmpty(vars, PathKey(vars));
    var value := env[PathKey(vars)];
    if current != [] {
      assert value == binDir + [PathDelimiter(windows)] + current;
      assert value[..|binDir|] == binDir;
      assert value[|value| - |current|..] == current;
    } else {
      assert value[..|binDir|] == binDir;
    }
  }

  // ----- Preparation -----

  /** What `prepare_cli_allowlist` hands back. */
  datatype PreparedCliAllowlist = PreparedCliAllowlist(
    binDir: string,
    env: map<string, string>,
    cleanupPaths: seq<string>,
    exposedCommands: seq<string>)

  const DEFAULT_WRAPPER_NAME := "kiingo-cli"

  /** The names a shims allowlist exposes, or the first entry's error, checking entries in order. */
  function ShimNames(entries: seq<CliAllowlistEntry>, seen: seq<string>): (r: AppResult<seq<string>>)
    decreases |entries|
  {
    if entries == [] then Ok(seen)
    else
      match NormalizeName(entries[0].name, "CLI name")
      case Err(e) => Err(e)
      case Ok(name) =>
        if name in seen then Err(Policy("Duplicate allowed CLI name: " + name))
        else if IsBlank(entries[0].path) then Err(Policy("CLI path is required for " + name))
        else ShimNames(entries[1..], seen + [name])
  }

  /** Every entry has a safe name, no two names agree once trimmed, and every path is given. */
  predicate ShimEntriesValid(entries: seq<CliAllowlistEntry>)
  {
    && (forall i :: 0 <= i < |entries| ==> IsSafeCommandName(Trim(entries[i].name)) && !IsBlank(entries[i].path))
    && (forall i, j :: 0 <= i < j < |entries| ==> Trim(entries[i].name) != Trim(entries[j].name))
  }

  /** The trimmed names, in entry order. */
  function TrimmedNames(entries: seq<CliAllowlistEntry>): (r: seq<string>)
    ensures |r| == |entries| && forall i :: 0 <= i < |entries| ==> r[i] == Trim(entries[i].name)
  {
    if entries == [] then []
    else
      var rest := TrimmedNames(entries[1..]);
      assert forall i :: 1 <= i < |entries| ==> entries[i] == entries[1..][i - 1];
      [Trim(entries[0].name)] + rest
  }

  /** The entries are valid and fresh: valid, and none of their names is already taken. */
  predicate FreshShimEntries(entries: seq<CliAllowlistEntry>, seen: seq<string>)
  {
    ShimEntriesValid(entries) && forall i :: 0 <= i < |entries| ==> Trim(entries[i].name) !in seen
  }

  /** Validity and freshness of a list, split into its first entry and the rest. */
  lemma FreshShimEntriesCons(entries: seq<CliAllowlistEntry>, seen: seq<string>)
    requires entries != []
    ensures var name := Trim(entries[0].name);
            FreshShimEntries(entries, seen) <==>
              && IsSafeCommandName(name) && !IsBlank(entries[0].path) && name !in seen
              && FreshShimEntries(entries[1..], seen + [name])
  {
    var name := Trim(entries[0].name);
    var rest := entries[1..];
    assert forall i :: 1 <= i < |entries| ==> entries[i] == rest[i - 1];
    if IsSafeCommandName(name) && !IsBlank(entries[0].path) && name !in seen && FreshShimEntries(rest, seen + [name]) {
      forall i, j | 0 <= i < j < |entries| ensures Trim(entries[i].name) != Trim(entries[j].name) {
        if i == 0 {
          assert Trim(rest[j - 1].name) !in seen + [name];
        }
      }
      forall i | 0 <= i < |entries| ensures Trim(entries[i].name) !in seen {
        if i > 0 {
          assert Trim(rest[i - 1].name) !in seen + [name];
        }
      }
    }
    if FreshShimEntries(entries, seen) {
      forall i | 0 <= i < |rest| ensures Trim(rest[i].name) !in seen + [name] {
        assert Trim(entries[0].name) != Trim(entries[i + 1].name);
      }
    }
  }

  /** The shim names are accepted exactly when the entries are valid and fresh. */
  lemma {:induction false} ShimNamesAccepted(entries: seq<CliAllowlistEntry>, seen: seq<string>)
    ensures ShimNames(entries, seen).Ok? <==> FreshShimEntries(entries, seen)
    decreases |entries|
  {
    if entries != [] {
      FreshShimEntriesCons(entries, seen);
      match NormalizeName(entries[0].name, "CLI name")
      case Err(_) =>
      case Ok(name) =>
        if name !in seen && !IsBlank(entries[0].path) {
          ShimNamesAccepted(entries[1..], seen + [name]);
        }
    }
  }

  /** One step of the shims check: a good first entry hands on to the rest, a bad one is a policy error. */
  lemma ShimNamesStep(entries: seq<CliAllowlistEntry>, seen: seq<string>)
    requires entries != []
    ensures var name := Trim(entries[0].name);
            if IsSafeCommandName(name) && name !in seen && !IsBlank(entries[0].path)
            then ShimNames(entries, seen) == ShimNames(entries[1..], seen + [name])
            else ShimNames(entries, seen).Err? && ShimNames(entries, seen).error.Policy?
  {
  }

  /**
   * Accepted shim names are the taken names followed by the trimmed names in entry order; an
   * error is always a policy denial.
   */
  lemma {:induction false} ShimNamesInOrder(entries: seq<CliAllowlistEntry>, seen: seq<string>)
    ensures var r := ShimNames(entries, seen);
            && (r.Ok? ==> r.value == seen + TrimmedNames(entries))
            && (r.Err? ==> r.error.Policy?)
    decreases |entries|
  {
    if entries != [] {
      var rest := entries[1..];
      var name := Trim(entries[0].name);
      ShimNamesStep(entries, seen);
      if IsSafeCommandName(name) && name !in seen && !IsBlank(entries[0].path) {
        ShimNamesInOrder(rest, seen + [name]);
        assert TrimmedNames(entries) == [name] + TrimmedNames(rest);
        assert seen + [name] + TrimmedNames(rest) == seen + TrimmedNames(entries);
      }
    }
  }

  /** The shims loop: each entry's name is checked, deduplicated and given a path, in order. */
  method PrepareShims(entries: seq<CliAllowlistEntry>) returns (r: AppResult<seq<string>>)
    ensures r == ShimNames(entries, [])
  {
    var exposed: seq<string> := [];
    var i := 0;
    while i < |entries|
      invariant 0 <= i <= |entries|
      invariant ShimNames(entries[i..], exposed) == ShimNames(entries, [])
    {
      var entry := entries[i];
      assert entries[i..][0] == entry && entries[i..][1..] == entries[i + 1..];
      var normalized := NormalizeName(entry.name, "CLI name");
      if normalized.Err? {
        return Err(normalized.error);
      }
      var name := normalized.value;
      if name in exposed {
        return Err(Policy("Duplicate allowed CLI name: " + name));
      }
      if Trim(entry.path) == [] {
        return Err(Policy("CLI path is required for " + name));
      }
      exposed := exposed + [name];
      i := i + 1;
    }
    return Ok(exposed);
  }

  /** The first entry name that fails the check, if any. */
  function FirstBadName(entries: seq<CliAllowlistEntry>): (r: Option<AppError>)
    ensures r.None? <==> forall i :: 0 <= i < |entries| ==> IsSafeCommandName(Trim(entries[i].name))
    ensures r.Some? ==> r.value.Policy?
  {
    if entries == [] then None
    else
      match NormalizeName(entries[0].name, "CLI name")
      case Err(e) => Some(e)
      case Ok(_) =>
        var rest := FirstBadName(entries[1..]);
        assert forall i :: 1 <= i < |entries| ==> entries[i] == entries[1..][i - 1];
        rest
  }

  /** The wrapper name check, then the entries' names, in order. */
  function WrapperName(config: CliAllowlistConfig): (r: AppResult<string>)
  {
    var wrapper := NormalizeName(config.wrapperName.UnwrapOr(DEFAULT_WRAPPER_NAME), "Wrapper name");
    if wrapper.Err? then wrapper
    else
      match FirstBadName(config.entries)
      case Some(e) => Err(e)
      case None => wrapper
  }

  /** The bin directory: the configured one, or a fresh `harness-bin-<uuid>` under the temp dir. */
  function BinDir(config: CliAllowlistConfig, tempDir: string, uuid: string): string
  {
    match config.binDir
    case Some(d) => d
    case None => tempDir + "/harness-bin-" + uuid
  }

  /** The bin directory is removed after the run only when it was created for it and not kept. */
  function CleanupPaths(config: CliAllowlistConfig, binDir: string): (r: seq<string>)
    ensures binDir in r <==> config.binDir.None? && config.keepBinDir != Some(true)
    ensures |r| <= 1
  {
    if config.binDir.None? && !config.keepBinDir.UnwrapOr(false) then [binDir] else []
  }

  /**
   * `prepare_cli_allowlist`, given the fresh id and the process environment: the outcome of the
   * checks, and on success the directory, PATH entry, cleanup list and exposed commands.
   */
  method PrepareCliAllowlist(config: CliAllowlistConfig, tempDir: string, uuid: string,
                             vars: seq<(string, string)>, windows: bool)
    returns (r: AppResult<PreparedCliAllowlist>)
    ensures config.entries == [] ==> r == Err(Policy("cliAllowlist.entries is required"))
    ensures r.Err? ==> r.error.Policy?
    ensures r.Ok? ==>
              && config.entries != []
              && r.value.binDir == BinDir(config, tempDir, uuid)
              && r.value.env == PathEnvWithPrepend(r.value.binDir, vars, windows)
              && r.value.cleanupPaths == CleanupPaths(config, r.value.binDir)
    ensures config.entries != [] && config.mode != Some(Wrapper) ==>
              (r.Ok? <==> FreshShimEntries(config.entries, []))
              && (r.Ok? ==> r.value.exposedCommands == TrimmedNames(config.entries))
    ensures config.entries != [] && config.mode == Some(Wrapper) ==>
              (r.Ok? <==> WrapperName(config).Ok?)
              && (r.Ok? ==> r.value.exposedCommands == [WrapperName(config).value])
  {
    if config.entries == [] {
      return Err(Policy("cliAllowlist.entries is required"));
    }
    var binDir := BinDir(config, tempDir, uuid);
    var cleanup := CleanupPaths(config, binDir);
    var exposed: seq<string>;
    if config.mode == Some(Wrapper) {
      var wrapper := WrapperName(config);
      if wrapper.Err? {
        return Err(wrapper.error);
      }
      exposed := [wrapper.value];
    } else {
      var names := PrepareShims(config.entries);
      ShimNamesAccepted(config.entries, []);
      ShimNamesInOrder(config.entries, []);
      if names.Err? {
        return Err(names.error);
      }
      exposed := names.value;
    }
    return Ok(PreparedCliAllowlist(binDir, PathEnvWithPrepend(binDir, vars, windows), cleanup, exposed));
  }

  /** Without a configured wrapper name the wrapper is exposed as `kiingo-cli`. */
  lemma DefaultWrapperName(config: CliAllowlistConfig)
    requires config.wrapperName.None?
    requires forall i :: 0 <= i < |config.entries| ==> IsSafeCommandName(Trim(config.entries[i].name))
    ensures WrapperName(config) == Ok(DEFAULT_WRAPPER_NAME)
  {
    var n := DEFAULT_WRAPPER_NAME;
    assert IsSafeCommandName(n);
    assert Trim(n) == n by {
      assert !IsWhitespace(n[0]) && !IsWhitespace(n[|n| - 1]);
    }
  }
}
