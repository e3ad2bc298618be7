/**
 * CLI compatibility (adapters/compatibility.rs): the version text a CLI prints is reduced to
 * its first run of digits and dots, read as a (major, minor, patch) triple, placed in the
 * provider's tested version range, and turned into a capability profile that the registry
 * caches for sixty seconds per provider and binary. Running the CLI to ask its version is
 * outside the model: its outcome arrives as a parameter, as does the clock.
 */
module Compatibility {
  import opened Wrappers
  import opened Errors
  import opened Text
  import opened Models

  /** A character `extract_semver` keeps: an ASCII digit or a dot. */
  predicate IsSemverChar(c: char)
  {
    IsAsciiDigit(c) || c == '.'
  }

  /**
   * The scan of `extract_semver` from some point on, having collected `current`: semver
   * characters are collected, and the first other character after a non-empty run stops it.
   */
  function Scan(s: string, current: string): string
    decreases |s|
  {
    if s == [] then current
    else if IsSemverChar(s[0]) then Scan(s[1..], current + [s[0]])
    else if current != [] then current
    else Scan(s[1..], current)
  }

  /** The first maximal run of digits and dots in `raw` (empty when there is none). */
  function SemverRun(raw: string): string
  {
    Scan(raw, [])
  }

  /**
   * The run found by the scan from `current` sits at `k` in `s`: it extends `current`, holds
   * only digits and dots, follows only other characters when nothing was being collected, starts
   * at once otherwise, and is maximal.
   */
  predicate FoundRun(s: string, current: string, k: nat)
  {
    var r := Scan(s, current);
    && |current| <= |r| && r[..|current|] == current
    && k + |r| - |current| <= |s| && s[k..k + |r| - |current|] == r[|current|..]
    && (forall i :: 0 <= i < |r| ==> IsSemverChar(r[i]))
    && (current == [] ==> forall i :: 0 <= i < k ==> !IsSemverChar(s[i]))
    && (current != [] ==> k == 0)
    && (k + |r| - |current| == |s| || !IsSemverChar(s[k + |r| - |current|]))
  }

  /** The run found by the scan sits at some `k`, preceded only by other characters and maximal. */
  lemma {:induction false} ScanFindsRun(s: string, current: string) returns (k: nat)
    requires forall i :: 0 <= i < |current| ==> IsSemverChar(current[i])
    ensures var r := Scan(s, current);
            && |current| <= |r| && r[..|current|] == current
            && k + |r| - |current| <= |s| && s[k..k + |r| - |current|] == r[|current|..]
            && (forall i :: 0 <= i < |r| ==> IsSemverChar(r[i]))
            && (current == [] ==> forall i :: 0 <= i < k ==> !IsSemverChar(s[i]))
            && (current != [] ==> k == 0)
            && (k + |r| - |current| == |s| || !IsSemverChar(s[k + |r| - |current|]))
    decreases |s|, 1
  {
    if s == [] {
      k := 0;
    } else if IsSemverChar(s[0]) {
      k := ScanTakesFirst(s, current);
    } else if current != [] {
      k := 0;
    } else {
      k := ScanSkipsFirst(s);
    }
  }

  /** A digit or dot joins the run being collected. */
  lemma {:induction false} ScanTakesFirst(s: string, current: string) returns (k: nat)
    requires s != [] && IsSemverChar(s[0])
    requires forall i :: 0 <= i < |current| ==> IsSemverChar(current[i])
    ensures FoundRun(s, current, k)
    decreases |s|, 0
  {
    var k' := ScanFindsRun(s[1..], current + [s[0]]);
    var r := Scan(s, current);
    assert r == Scan(s[1..], current + [s[0]]);
    k := 0;
    assert r[..|current| + 1] == current + [s[0]];
    assert r[..|current|] == current;
    assert s[1..][..|r| - |current| - 1] == r[|current| + 1..];
    assert s[..|r| - |current|] == [s[0]] + s[1..][..|r| - |current| - 1];
    assert r[|current|..] == [s[0]] + r[|current| + 1..];
  }

  /** Before any run, another character is passed over. */
  lemma {:induction false} ScanSkipsFirst(s: string) returns (k: nat)
    requires s != [] && !IsSemverChar(s[0])
    ensures FoundRun(s, [], k)
    decreases |s|, 0
  {
    var k' := ScanFindsRun(s[1..], []);
    k := k' + 1;
    var r := Scan(s, []);
    assert r == Scan(s[1..], []);
    assert k' + |r| <= |s| - 1;
    var here, there := s[k..k + |r|], s[1..][k'..k' + |r|];
    assert forall t :: 0 <= t < |r| ==> here[t] == there[t];
    assert here == there;
    forall i | 0 <= i < k
      ensures !IsSemverChar(s[i])
    {
      if i > 0 {
        assert s[i] == s[1..][i - 1];
      }
    }
    if k + |r| < |s| {
      assert s[k + |r|] == s[1..][k' + |r|];
    }
  }

  /** The run `SemverRun` returns: digits and dots, found in `raw` after only other characters, and maximal. */
  lemma SemverRunIsFirstMaximalRun(raw: string) returns (k: nat)
    ensures var r := SemverRun(raw);
            && k + |r| <= |raw| && raw[k..k + |r|] == r
            && (forall i :: 0 <= i < |r| ==> IsSemverChar(r[i]))
            && (forall i :: 0 <= i < k ==> !IsSemverChar(raw[i]))
            && (k + |r| == |raw| || !IsSemverChar(raw[k + |r|]))
  {
    k := ScanFindsRun(raw, []);
  }

  /** The two-digit seconds of `%S`. */
  function TwoDigits(n: nat): (r: string)
    requires n < 100
    ensures |r| == 2 && IsAsciiDigit(r[0]) && IsAsciiDigit(r[1])
  {
    [DigitChar(n / 10), DigitChar(n % 10)]
  }

  /** The fallback version `0.0.<seconds of the current minute>` used when the text holds no digits. */
  function FallbackVersion(nowSeconds: nat): string
  {
    "0.0." + TwoDigits(nowSeconds % 60)
  }

  /**
   * `extract_semver`: collects the first run of digits and dots; with none, the version is
   * made up from the clock.
   */
  method ExtractSemver(raw: string, nowSeconds: nat) returns (r: string)
    ensures SemverRun(raw) != [] ==> r == SemverRun(raw)
    ensures SemverRun(raw) == [] ==> r == FallbackVersion(nowSeconds)
  {
    var current := "";
    var i := 0;
    while i < |raw|
      invariant 0 <= i <= |raw|
      invariant Scan(raw[i..], current) == SemverRun(raw)
    {
      var ch := raw[i];
      assert raw[i..][0] == ch && raw[i..][1..] == raw[i + 1..];
      if IsSemverChar(ch) {
        current := current + [ch];
      } else if current != [] {
        break;
      }
      i := i + 1;
    }
    if i == |raw| {
      assert raw[i..] == [];
    }
    if current == [] {
      r := FallbackVersion(nowSeconds);
    } else {
      r := current;
    }
  }

  /** `Scan` only grows what it has collected, so a non-empty start gives a non-empty result. */
  lemma {:induction false} ScanKeepsCurrent(s: string, current: string)
    ensures current != [] ==> Scan(s, current) != []
    decreases |s|
  {
    if s != [] && IsSemverChar(s[0]) {
      ScanKeepsCurrent(s[1..], current + [s[0]]);
    } else if s != [] && current == [] {
    }
  }

  datatype Version = Version(major: nat, minor: nat, patch: nat)

  /** The dot-separated segments that parse as `u64`, in order. */
  function NumericParts(parts: seq<string>): (r: seq<nat>)
    ensures |r| <= |parts|
  {
    if parts == [] then []
    else
      match ParseU64(parts[0])
      case Some(n) => [n] + NumericParts(parts[1..])
      case None => NumericParts(parts[1..])
  }

  function PartOr0(parts: seq<nat>, i: nat): nat
  {
    if i < |parts| then parts[i] else 0
  }

  /** `parse_version`: the first three numeric segments, 0 for those missing. */
  function ParseVersion(version: string): Version
  {
    var parts := NumericParts(Split(version, '.'));
    Version(PartOr0(parts, 0), PartOr0(parts, 1), PartOr0(parts, 2))
  }

  /** The text `major.minor.patch`. */
  function RenderVersion(v: Version): string
  {
    Join([NatToString(v.major), NatToString(v.minor), NatToString(v.patch)], ".")
  }

  /** Each number written in decimal. */
  function Decimals(ns: seq<nat>): (r: seq<string>)
    ensures |r| == |ns|
    ensures forall k :: 0 <= k < |ns| ==> r[k] == NatToString(ns[k])
  {
    seq(|ns|, k requires 0 <= k < |ns| => NatToString(ns[k]))
  }

  /** Decimal segments are all kept, with their values. */
  lemma {:induction false} NumericPartsOfDecimals(ns: seq<nat>)
    requires forall k :: 0 <= k < |ns| ==> ns[k] <= U64_MAX
    ensures NumericParts(Decimals(ns)) == ns
  {
    if ns != [] {
      ParseU64OfNatToString(ns[0]);
      assert Decimals(ns)[1..] == Decimals(ns[1..]);
      NumericPartsOfDecimals(ns[1..]);
      assert ns == [ns[0]] + ns[1..];
    }
  }

  /** A rendered version parses back to itself. */
  lemma ParseRenderedVersion(v: Version)
    requires v.major <= U64_MAX && v.minor <= U64_MAX && v.patch <= U64_MAX
    ensures ParseVersion(RenderVersion(v)) == v
  {
    var ns := [v.major, v.minor, v.patch];
    var parts := Decimals(ns);
    assert parts == [NatToString(v.major), NatToString(v.minor), NatToString(v.patch)];
    DecimalsHaveNoDot(ns);
    JoinSplit(parts, '.');
    NumericPartsOfDecimals(ns);
  }

  /** A number written in decimal has no '.' in it. */
  lemma DecimalsHaveNoDot(ns: seq<nat>)
    ensures forall k :: 0 <= k < |ns| ==> !ContainsChar(Decimals(ns)[k], '.')
  {
    forall k | 0 <= k < |ns| ensures !ContainsChar(Decimals(ns)[k], '.') {
      var d := Decimals(ns)[k];
      assert forall i :: 0 <= i < |d| ==> IsAsciiDigit(d[i]);
    }
  }

  /** The tuple comparison of `(u64, u64, u64)`: lexicographic. */
  predicate VersionLe(a: Version, b: Version)
  {
    a.major < b.major
    || (a.major == b.major && (a.minor < b.minor || (a.minor == b.minor && a.patch <= b.patch)))
  }

  /** The lexicographic order is a total order. */
  lemma VersionLeIsTotalOrder(a: Version, b: Version, c: Version)
    ensures VersionLe(a, a)
    ensures VersionLe(a, b) && VersionLe(b, a) ==> a == b
    ensures VersionLe(a, b) && VersionLe(b, c) ==> VersionLe(a, c)
    ensures VersionLe(a, b) || VersionLe(b, a)
  {
  }

  /** `version_between`: inclusive on both ends. */
  predicate VersionBetween(version: string, minVersion: string, maxVersion: string)
  {
    VersionLe(ParseVersion(minVersion), ParseVersion(version)) && VersionLe(ParseVersion(version), ParseVersion(maxVersion))
  }

  /** A row of a provider's tested matrix. */
  datatype MatrixEntry = MatrixEntry(minVersion: string, maxVersion: string, supportedFlags: seq<string>, supportsInteractive: bool)

  const CODEX_MATRIX: seq<MatrixEntry> := [
    MatrixEntry("0.24.0", "1.99.99",
      ["--model", "--json", "--reasoning-effort", "--ask-for-approval", "--output-schema",
       "--output-last-message", "--sandbox", "--search", "--add-dir", "--image", "--config",
       "--skip-git-repo-check", "--ephemeral"],
      true)
  ]

  const CLAUDE_MATRIX: seq<MatrixEntry> := [
    MatrixEntry("0.20.0", "99.99.99",
      ["--output-format", "--input-format", "--json-schema", "--model", "--fallback-model",
       "--max-budget-usd", "--no-session-persistence", "--max-turns", "--tools", "--allowedTools",
       "--permission-mode", "--system-prompt", "--append-system-prompt", "--include-partial-messages",
       "--continue", "--agent", "--agents", "--resume", "--verbose", "--mcp-config", "--strict-mcp-config"],
      true)
  ]

  function Matrix(provider: Provider): seq<MatrixEntry>
  {
    match provider
    case Codex => CODEX_MATRIX
    case Claude => CLAUDE_MATRIX
  }

  /** The first matrix row whose range holds the version. */
  function FindEntry(matrix: seq<MatrixEntry>, version: string): (r: Option<MatrixEntry>)
    ensures r.Some? ==> r.value in matrix && VersionBetween(version, r.value.minVersion, r.value.maxVersion)
    ensures r.None? <==> forall i :: 0 <= i < |matrix| ==> !VersionBetween(version, matrix[i].minVersion, matrix[i].maxVersion)
  {
    if matrix == [] then None
    else if VersionBetween(version, matrix[0].minVersion, matrix[0].maxVersion) then Some(matrix[0])
    else
      var rest := FindEntry(matrix[1..], version);
      assert forall i :: 1 <= i < |matrix| ==> matrix[i] == matrix[1..][i - 1];
      rest
  }

  const OUTSIDE_MATRIX_REASON := "Detected version is outside tested matrix; advanced and interactive features may be gated"

  /**
   * The profile `detect_profile_uncached` builds from the outcome of asking the CLI for its
   * version: blocked when that failed, supported with the row's flags inside the matrix,
   * degraded and non-interactive outside it.
   */
  function ClassifyProfile(provider: Provider, detected: AppResult<string>): (p: CapabilityProfile)
    ensures p.provider == provider
    ensures detected.Err? ==>
              && p.blocked && !p.supported && !p.degraded && p.cliVersion == "unknown"
              && p.supportedFlags == [] && p.supportedModes == [NonInteractive]
              && p.disabledReasons == ["Unable to detect CLI version: " + detected.error.ToString()]
    ensures detected.Ok? ==> p.cliVersion == detected.value && !p.blocked
    ensures detected.Ok? && FindEntry(Matrix(provider), detected.value).Some? ==>
              var entry := FindEntry(Matrix(provider), detected.value).value;
              && p.supported && !p.degraded && p.supportedFlags == entry.supportedFlags
              && NonInteractive in p.supportedModes
              && (Interactive in p.supportedModes <==> entry.supportsInteractive)
              && p.disabledReasons == []
    ensures detected.Ok? && FindEntry(Matrix(provider), detected.value).None? ==>
              && !p.supported && p.degraded && p.supportedFlags == [] && p.supportedModes == [NonInteractive]
              && p.disabledReasons == [OUTSIDE_MATRIX_REASON]
  {
    match detected
    case Err(e) =>
      CapabilityProfile(provider, "unknown", false, false, true, [], [NonInteractive],
                        ["Unable to detect CLI version: " + e.ToString()])
    case Ok(version) =>
      match FindEntry(Matrix(provider), version)
      case Some(entry) =>
        var modes := if entry.supportsInteractive then [NonInteractive, Interactive] else [NonInteractive];
        CapabilityProfile(provider, version, true, false, false, entry.supportedFlags, modes, [])
      case None =>
        CapabilityProfile(provider, version, false, true, false, [], [NonInteractive], [OUTSIDE_MATRIX_REASON])
  }

  lemma RenderedCodexBounds()
    ensures RenderVersion(Version(0, 24, 0)) == "0.24.0"
    ensures RenderVersion(Version(1, 99, 99)) == "1.99.99"
  {
    assert NatToString(24) == "24" by {
      assert NatToString(24) == NatToString(2) + [DigitChar(4)];
    }
    assert NatToString(99) == "99" by {
      assert NatToString(99) == NatToString(9) + [DigitChar(9)];
    }
    assert NatToString(0) == "0" && NatToString(1) == "1";
    JoinThree(NatToString(0), NatToString(24), NatToString(0));
    JoinThree(NatToString(1), NatToString(99), NatToString(99));
  }

  /** Three parts joined with dots. */
  lemma JoinThree(a: string, b: string, c: string)
    ensures Join([a, b, c], ".") == a + "." + b + "." + c
  {
    assert [a, b, c][1..] == [b, c] && [b, c][1..] == [c];
  }

  /** The parsed ends of the Codex range: 0.24.0 through 1.99.99. */
  lemma CodexRange()
    ensures ParseVersion(CODEX_MATRIX[0].minVersion) == Version(0, 24, 0)
    ensures ParseVersion(CODEX_MATRIX[0].maxVersion) == Version(1, 99, 99)
  {
    RenderedCodexBounds();
    ParseRenderedVersion(Version(0, 24, 0));
    ParseRenderedVersion(Version(1, 99, 99));
  }

  /** The Codex matrix has one row, so the lookup is that row exactly when its range holds. */
  lemma CodexLookup(version: string)
    ensures VersionBetween(version, CODEX_MATRIX[0].minVersion, CODEX_MATRIX[0].maxVersion) ==>
              FindEntry(Matrix(Codex), version) == Some(CODEX_MATRIX[0])
    ensures !VersionBetween(version, CODEX_MATRIX[0].minVersion, CODEX_MATRIX[0].maxVersion) ==>
              FindEntry(Matrix(Codex), version) == None
  {
  }

  /** The Codex row lists the structured output flag. */
  lemma CodexOutputSchemaFlag()
    ensures "--output-schema" in CODEX_MATRIX[0].supportedFlags
  {
    assert CODEX_MATRIX[0].supportedFlags[4] == "--output-schema";
  }

  /** Every Codex version from 0.24.0 through 1.99.99 is supported, with interactive mode. */
  lemma CodexVersionInRangeIsSupported(v: Version)
    requires VersionLe(Version(0, 24, 0), v) && VersionLe(v, Version(1, 99, 99))
    requires v.minor <= U64_MAX && v.patch <= U64_MAX
    ensures var p := ClassifyProfile(Codex, Ok(RenderVersion(v)));
            p.supported && !p.blocked && Interactive in p.supportedModes && "--output-schema" in p.supportedFlags
  {
    var version := RenderVersion(v);
    CodexRange();
    ParseRenderedVersion(v);
    assert VersionBetween(version, CODEX_MATRIX[0].minVersion, CODEX_MATRIX[0].maxVersion);
    CodexLookup(version);
    CodexOutputSchemaFlag();
  }

  /** A Codex version below 0.24.0 is degraded and non-interactive. */
  lemma OldCodexIsDegraded(v: Version)
    requires VersionLe(v, Version(0, 23, U64_MAX)) && v.patch <= U64_MAX
    ensures var p := ClassifyProfile(Codex, Ok(RenderVersion(v)));
            !p.supported && p.degraded && p.supportedModes == [NonInteractive]
  {
    var version := RenderVersion(v);
    assert v.major == 0 && v.minor <= 23;
    CodexRange();
    ParseRenderedVersion(v);
    assert !VersionBetween(version, CODEX_MATRIX[0].minVersion, CODEX_MATRIX[0].maxVersion);
    CodexLookup(version);
  }

  const CACHE_TTL_MS: nat := 60000

  datatype CachedProfile = CachedProfile(profile: CapabilityProfile, detectedAtMs: int)

  /** The cache key `<provider>::<binary path>`. */
  function CacheKey(provider: Provider, binaryPath: string): string
  {
    provider.Name() + "::" + binaryPath
  }

  /** A cached profile no older than the cache lifetime (an instant in the future counts as age 0). */
  predicate IsFresh(entry: CachedProfile, nowMs: int)
  {
    nowMs - entry.detectedAtMs <= CACHE_TTL_MS
  }

  /** The capability registry: detected profiles by provider and binary. */
  class CompatibilityRegistry {
    var cache: map<string, CachedProfile>

    constructor ()
      ensures cache == map[]
    {
      cache := map[];
    }

    /**
     * `detect_profile`: a fresh cached profile is returned as it is; otherwise the profile is
     * recomputed from `detected` (the version probe, which only runs on this path) and the
     * entry is overwritten with the current time.
     */
    method DetectProfile(provider: Provider, binaryPath: string, nowMs: int, detected: AppResult<string>)
      returns (profile: CapabilityProfile)
      modifies this
      ensures var key := CacheKey(provider, binaryPath);
              key in old(cache) && IsFresh(old(cache)[key], nowMs) ==>
                profile == old(cache)[key].profile && cache == old(cache)
      ensures var key := CacheKey(provider, binaryPath);
              !(key in old(cache) && IsFresh(old(cache)[key], nowMs)) ==>
                profile == ClassifyProfile(provider, detected)
                && cache == old(cache)[key := CachedProfile(profile, nowMs)]
    {
      var key := CacheKey(provider, binaryPath);
      if key in cache && IsFresh(cache[key], nowMs) {
        return cache[key].profile;
      }
      profile := ClassifyProfile(provider, detected);
      cache := cache[key := CachedProfile(profile, nowMs)];
    }
  }

  /** Once stored, a profile is served from the cache for the next sixty seconds, and stale afterwards. */
  lemma StoredProfileIsFreshForTtl(cache: map<string, CachedProfile>, key: string, profile: CapabilityProfile,
                                   storedMs: int, laterMs: int)
    ensures var updated := cache[key := CachedProfile(profile, storedMs)];
            key in updated && (IsFresh(updated[key], laterMs) <==> laterMs <= storedMs + CACHE_TTL_MS)
  {
  }

  /** Different providers, or different binaries of one provider, never share a cache entry. */
  lemma CacheKeysSeparateProviders(binaryPath: string, otherPath: string, provider: Provider)
    ensures CacheKey(Codex, binaryPath) != CacheKey(Claude, otherPath)
    ensures CacheKey(provider, binaryPath) == CacheKey(provider, otherPath) ==> binaryPath == otherPath
  {
    var prefix := provider.Name() + "::";
    if CacheKey(provider, binaryPath) == CacheKey(provider, otherPath) {
      assert binaryPath == CacheKey(provider, binaryPath)[|prefix|..];
    }
    assert CacheKey(Codex, binaryPath)[0] == 'c' && CacheKey(Codex, binaryPath)[1] == 'o';
    assert CacheKey(Claude, otherPath)[1] == 'l';
  }
}
