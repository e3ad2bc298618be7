/**
 * Byte-level string helpers shared by every module: the parts of Rust's `str` API the backend
 * relies on (trim, starts_with, contains, find, split, lines, split_whitespace, ASCII case
 * folding, integer formatting and parsing). Text is ASCII, so one char is one byte.
 */
module Text {
  import opened Wrappers

  /** `char::is_whitespace` restricted to ASCII. */
  predicate IsWhitespace(c: char)
  {
    c == ' ' || c == '\t' || c == '\n' || c == '\r' || c == '\U{000B}' || c == '\U{000C}'
  }

  predicate IsAsciiDigit(c: char) { '0' <= c <= '9' }

  predicate IsAsciiAlphanumeric(c: char)
  {
    IsAsciiDigit(c) || 'a' <= c <= 'z' || 'A' <= c <= 'Z'
  }

  /** `char::is_control` restricted to ASCII: C0 controls and DEL. */
  predicate IsControl(c: char) { c < ' ' || c == '\U{007F}' }

  /** `char::to_ascii_lowercase`. */
  function ToLowerChar(c: char): (r: char)
    ensures 'A' <= c <= 'Z' ==> 'a' <= r <= 'z'
    ensures !('A' <= c <= 'Z') ==> r == c
  {
    if 'A' <= c <= 'Z' then (c as int + 32) as char else c
  }

  /** `str::to_ascii_lowercase`. */
  function Lower(s: string): (r: string)
    ensures |r| == |s|
    ensures forall i :: 0 <= i < |s| ==> r[i] == ToLowerChar(s[i])
  {
    seq(|s|, i requires 0 <= i < |s| => ToLowerChar(s[i]))
  }

  predicate IsBlank(s: string)
  {
    forall i :: 0 <= i < |s| ==> IsWhitespace(s[i])
  }

  /** `str::trim_start`. */
  function TrimStart(s: string): (r: string)
    ensures |r| <= |s| && r == s[|s| - |r|..]
    ensures r == [] || !IsWhitespace(r[0])
    ensures forall i :: 0 <= i < |s| - |r| ==> IsWhitespace(s[i])
  {
    if |s| > 0 && IsWhitespace(s[0]) then TrimStart(s[1..]) else s
  }

  /** `str::trim`: drops leading and trailing whitespace. */
  function Trim(s: string): (r: string)
    ensures |r| <= |s|
    ensures r == [] || (!IsWhitespace(r[0]) && !IsWhitespace(r[|r| - 1]))
    ensures r == [] <==> IsBlank(s)
    decreases |s|
  {
    if |s| > 0 && IsWhitespace(s[0]) then
      BlankCons(s);
      Trim(s[1..])
    else if |s| > 0 && IsWhitespace(s[|s| - 1]) then
      BlankSnoc(s);
      Trim(s[..|s| - 1])
    else
      s
  }

  /** The trimmed text is a contiguous piece of the original, starting at `k`. */
  lemma TrimIsInfix(s: string) returns (k: nat)
    ensures k + |Trim(s)| <= |s| && Trim(s) == s[k..k + |Trim(s)|]
  {
    var lead, tail := TrimParts(s);
    k := |lead|;
    InfixOfParts(s, lead, Trim(s), tail);
  }

  lemma InfixOfParts(s: string, a: string, t: string, b: string)
    requires s == a + t + b
    ensures |a| + |t| <= |s| && t == s[|a|..|a| + |t|]
  {
    assert (a + t + b)[|a|..|a| + |t|] == t;
  }

  /** A text is its blank lead, its trim and its blank tail. */
  lemma {:induction false} TrimParts(s: string) returns (lead: string, tail: string)
    ensures s == lead + Trim(s) + tail && IsBlank(lead) && IsBlank(tail)
    decreases |s|
  {
    if |s| > 0 && IsWhitespace(s[0]) {
      var a, b := TrimParts(s[1..]);
      TrimDropFirst(s);
      lead, tail := [s[0]] + a, b;
      ConsParts(s, a, Trim(s), b);
    } else if |s| > 0 && IsWhitespace(s[|s| - 1]) {
      var a, b := TrimParts(s[..|s| - 1]);
      TrimDropLast(s);
      lead, tail := a, b + [s[|s| - 1]];
      SnocParts(s, a, Trim(s), b);
    } else {
      TrimKeepsTrimmed(s);
      lead, tail := [], [];
      assert s == [] + s + [];
    }
  }

  lemma TrimDropFirst(s: string)
    requires |s| > 0 && IsWhitespace(s[0])
    ensures Trim(s) == Trim(s[1..])
  {
  }

  lemma TrimDropLast(s: string)
    requires |s| > 0 && !IsWhitespace(s[0]) && IsWhitespace(s[|s| - 1])
    ensures Trim(s) == Trim(s[..|s| - 1])
  {
  }

  lemma TrimKeepsTrimmed(s: string)
    requires !(|s| > 0 && IsWhitespace(s[0])) && !(|s| > 0 && IsWhitespace(s[|s| - 1]))
    ensures Trim(s) == s
  {
  }

  lemma ConsParts(s: string, a: string, t: string, b: string)
    requires |s| > 0 && IsWhitespace(s[0]) && s[1..] == a + t + b && IsBlank(a)
    ensures s == ([s[0]] + a) + t + b && IsBlank([s[0]] + a)
  {
    assert s == [s[0]] + s[1..];
    var t := [s[0]] + a;
    forall i | 0 <= i < |t| ensures IsWhitespace(t[i]) {
      if i > 0 { assert t[i] == a[i - 1]; }
    }
  }

  lemma SnocParts(s: string, a: string, t: string, b: string)
    requires |s| > 0 && IsWhitespace(s[|s| - 1]) && s[..|s| - 1] == a + t + b && IsBlank(b)
    ensures s == a + t + (b + [s[|s| - 1]]) && IsBlank(b + [s[|s| - 1]])
  {
    assert s == s[..|s| - 1] + [s[|s| - 1]];
    var t := b + [s[|s| - 1]];
    forall i | 0 <= i < |t| ensures IsWhitespace(t[i]) {
      if i < |b| { assert t[i] == b[i]; }
    }
  }

  /** Trimming cannot bring in a character the text did not have. */
  lemma TrimKeepsAbsentChar(s: string, c: char)
    requires !ContainsChar(s, c)
    ensures !ContainsChar(Trim(s), c)
  {
    var k := TrimIsInfix(s);
    forall i | 0 <= i < |Trim(s)| ensures Trim(s)[i] != c {
      assert Trim(s)[i] == s[k + i];
    }
  }

  /** Trimming twice is trimming once. */
  lemma TrimTwice(s: string)
    ensures Trim(Trim(s)) == Trim(s)
  {
  }

  lemma BlankCons(s: string)
    requires |s| > 0 && IsWhitespace(s[0])
    ensures IsBlank(s) <==> IsBlank(s[1..])
  {
    if IsBlank(s[1..]) {
      forall i | 0 <= i < |s| ensures IsWhitespace(s[i]) {
        if i > 0 { assert s[i] == s[1..][i - 1]; }
      }
    }
  }

  lemma BlankSnoc(s: string)
    requires |s| > 0 && IsWhitespace(s[|s| - 1])
    ensures IsBlank(s) <==> IsBlank(s[..|s| - 1])
  {
    if IsBlank(s[..|s| - 1]) {
      forall i | 0 <= i < |s| ensures IsWhitespace(s[i]) {
        if i < |s| - 1 { assert s[i] == s[..|s| - 1][i]; }
      }
    }
  }

  predicate StartsWith(s: string, prefix: string)
  {
    |prefix| <= |s| && s[..|prefix|] == prefix
  }

  predicate EndsWith(s: string, suffix: string)
  {
    |suffix| <= |s| && s[|s| - |suffix|..] == suffix
  }

  /** `pattern` occurs in `s` starting at index `i`. */
  predicate MatchesAt(s: string, pattern: string, i: int)
  {
    0 <= i && i + |pattern| <= |s| && s[i..i + |pattern|] == pattern
  }

  /** `str::contains` for a string pattern. */
  predicate Contains(s: string, pattern: string)
  {
    exists i :: 0 <= i <= |s| && MatchesAt(s, pattern, i)
  }

  predicate ContainsChar(s: string, c: char)
  {
    exists i :: 0 <= i < |s| && s[i] == c
  }

  /** `str::find(char)` from position `from`: the first index at or after `from` holding `c`. */
  function FindCharFrom(s: string, c: char, from: nat): (r: Option<nat>)
    requires from <= |s|
    ensures r.Some? ==> from <= r.value < |s| && s[r.value] == c
    ensures r.Some? ==> forall j :: from <= j < r.value ==> s[j] != c
    ensures r.None? ==> forall j :: from <= j < |s| ==> s[j] != c
    decreases |s| - from
  {
    if from == |s| then None
    else if s[from] == c then Some(from)
    else FindCharFrom(s, c, from + 1)
  }

  /** `str::find(char)`. */
  function FindChar(s: string, c: char): (r: Option<nat>)
    ensures r.Some? ==> r.value < |s| && s[r.value] == c
    ensures r.Some? ==> forall j :: 0 <= j < r.value ==> s[j] != c
    ensures r.None? <==> !ContainsChar(s, c)
  {
    FindCharFrom(s, c, 0)
  }

  /** `str::find(&str)` from position `from`. */
  function FindFrom(s: string, pattern: string, from: nat): (r: Option<nat>)
    requires from <= |s|
    ensures r.Some? ==> from <= r.value && MatchesAt(s, pattern, r.value)
    ensures r.Some? ==> forall j :: from <= j < r.value ==> !MatchesAt(s, pattern, j)
    ensures r.None? ==> forall j :: from <= j ==> !MatchesAt(s, pattern, j)
    decreases |s| - from
  {
    if from + |pattern| > |s| then None
    else if MatchesAt(s, pattern, from) then Some(from)
    else FindFrom(s, pattern, from + 1)
  }

  /** `str::find(&str)`. */
  function Find(s: string, pattern: string): (r: Option<nat>)
    ensures r.Some? ==> MatchesAt(s, pattern, r.value)
    ensures r.Some? ==> forall j :: 0 <= j < r.value ==> !MatchesAt(s, pattern, j)
    ensures r.None? <==> !Contains(s, pattern)
  {
    FindFrom(s, pattern, 0)
  }

  /** A match with no earlier match is the one `Find` reports. */
  lemma FindFirst(s: string, pattern: string, k: nat)
    requires MatchesAt(s, pattern, k) && forall j :: 0 <= j < k ==> !MatchesAt(s, pattern, j)
    ensures Find(s, pattern) == Some(k)
  {
    assert Contains(s, pattern);
  }

  /** `parts.join(sep)`. */
  function Join(parts: seq<string>, sep: string): (r: string)
    ensures |parts| == 1 ==> r == parts[0]
  {
    if |parts| == 0 then []
    else if |parts| == 1 then parts[0]
    else parts[0] + sep + Join(parts[1..], sep)
  }

  /** `str::split(char)`: always at least one piece. */
  function Split(s: string, c: char): (r: seq<string>)
    ensures |r| >= 1
    ensures forall k :: 0 <= k < |r| ==> !ContainsChar(r[k], c)
    decreases |s|
  {
    match FindChar(s, c)
    case None => [s]
    case Some(k) => [s[..k]] + Split(s[k + 1..], c)
  }

  /** Splitting on `c` and joining with `c` gives the input back. */
  lemma {:induction false} SplitJoin(s: string, c: char)
    ensures Join(Split(s, c), [c]) == s
    decreases |s|
  {
    match FindChar(s, c)
    case None =>
    case Some(k) =>
      var rest := Split(s[k + 1..], c);
      SplitJoin(s[k + 1..], c);
      assert ([s[..k]] + rest)[1..] == rest;
      assert Join([s[..k]] + rest, [c]) == s[..k] + [c] + Join(rest, [c]);
      assert s == s[..k] + [c] + s[k + 1..];
  }

  /** The first `c` of `s` is at `k` when `s[k] == c` and no earlier char is `c`. */
  lemma FindCharAt(s: string, c: char, k: nat)
    requires k < |s| && s[k] == c
    requires forall j :: 0 <= j < k ==> s[j] != c
    ensures FindChar(s, c) == Some(k)
  {
    assert ContainsChar(s, c);
  }

  /** The join of the first `k` pieces is a prefix of the whole join, followed by `c`. */
  lemma JoinPrefixBeforeSeparator(parts: seq<string>, c: char, k: nat)
    requires 0 < k < |parts|
    ensures var p := Join(parts[..k], [c]);
            |p| < |Join(parts, [c])| && Join(parts, [c])[..|p|] == p && Join(parts, [c])[|p|] == c
  {
    JoinSplitAt(parts, [c], k);
  }

  /** One step of Split at the first `c`. */
  lemma SplitAt(s: string, c: char, k: nat)
    requires FindChar(s, c) == Some(k)
    ensures Split(s, c) == [s[..k]] + Split(s[k + 1..], c)
  {
  }

  /** Joining pieces free of `c` with `c` and splitting on `c` gives the pieces back. */
  lemma {:induction false} JoinSplit(parts: seq<string>, c: char)
    requires |parts| >= 1
    requires forall k :: 0 <= k < |parts| ==> !ContainsChar(parts[k], c)
    ensures Split(Join(parts, [c]), c) == parts
    decreases |parts|
  {
    if |parts| > 1 {
      var head := parts[0];
      var tail := Join(parts[1..], [c]);
      var s := Join(parts, [c]);
      assert s == head + [c] + tail;
      FindCharAt(s, c, |head|);
      SplitAt(s, c, |head|);
      assert s[..|head|] == head;
      assert s[|head| + 1..] == tail;
      JoinSplit(parts[1..], c);
      assert [head] + parts[1..] == parts;
    }
  }

  /** Drops one trailing '\r' (the CRLF half of `str::lines`). */
  function StripCr(line: string): (r: string)
  {
    if |line| > 0 && line[|line| - 1] == '\r' then line[..|line| - 1] else line
  }

  /**
   * `str::lines`: split after each '\n', drop that '\n' and a '\r' just before it; a final
   * line without '\n' is kept as is, and no empty line follows a trailing '\n'.
   */
  function Lines(s: string): (r: seq<string>)
    ensures s == [] <==> r == []
    ensures forall k :: 0 <= k < |r| ==> !ContainsChar(r[k], '\n')
    decreases |s|
  {
    if s == [] then []
    else
      match FindChar(s, '\n')
      case None => [s]
      case Some(k) =>
        assert !ContainsChar(StripCr(s[..k]), '\n') by {
          forall j | 0 <= j < |StripCr(s[..k])| ensures StripCr(s[..k])[j] != '\n' {
            assert StripCr(s[..k])[j] == s[j];
          }
        }
        [StripCr(s[..k])] + Lines(s[k + 1..])
  }

  predicate ContainsWhitespace(s: string)
  {
    exists i :: 0 <= i < |s| && IsWhitespace(s[i])
  }

  /** The longest prefix of `s` holding no whitespace. */
  function TakeWord(s: string): (r: string)
    ensures |r| <= |s| && r == s[..|r|]
    ensures !ContainsWhitespace(r)
    ensures |r| == |s| || IsWhitespace(s[|r|])
  {
    if |s| > 0 && !IsWhitespace(s[0]) then [s[0]] + TakeWord(s[1..]) else []
  }

  /** `str::split_whitespace`: the maximal runs of non-whitespace, in order. */
  function Words(s: string): (r: seq<string>)
    decreases |s|
  {
    var t := TrimStart(s);
    if t == [] then []
    else
      var w := TakeWord(t);
      assert w != [] by { assert !IsWhitespace(t[0]); }
      [w] + Words(t[|w|..])
  }

  /** Only a blank string has no words. */
  lemma WordsEmptyIffBlank(s: string)
    ensures IsBlank(s) <==> Words(s) == []
  {
    var t := TrimStart(s);
    if t == [] {
      assert s[..|s| - |t|] == s;
    } else {
      assert s[|s| - |t|] == t[0];
    }
  }

  /** A non-empty run without whitespace. */
  predicate IsWord(w: string)
  {
    w != [] && !ContainsWhitespace(w)
  }

  /** Every word is a non-empty run without whitespace. */
  lemma {:induction false} WordsAreWords(s: string)
    ensures forall k :: 0 <= k < |Words(s)| ==> IsWord(Words(s)[k])
    decreases |s|
  {
    var t := TrimStart(s);
    if t != [] {
      var w := TakeWord(t);
      assert IsWord(w);
      var rest := Words(t[|w|..]);
      WordsAreWords(t[|w|..]);
      assert Words(s) == [w] + rest;
      forall k | 0 <= k < |[w] + rest| ensures IsWord(([w] + rest)[k]) {
        if k > 0 { assert ([w] + rest)[k] == rest[k - 1]; }
      }
    }
  }

  /** ASCII decimal digit for 0 <= d < 10. */
  function DigitChar(d: nat): (c: char)
    requires d < 10
    ensures IsAsciiDigit(c)
  {
    ('0' as int + d) as char
  }

  function DigitValue(c: char): (d: nat)
    requires IsAsciiDigit(c)
    ensures d < 10
  {
    c as int - '0' as int
  }

  /** Decimal rendering of a natural number (`usize::to_string`). */
  function NatToString(n: nat): (r: string)
    ensures |r| >= 1
    ensures forall i :: 0 <= i < |r| ==> IsAsciiDigit(r[i])
    decreases n
  {
    if n < 10 then [DigitChar(n)] else NatToString(n / 10) + [DigitChar(n % 10)]
  }

  /** Decimal rendering of an integer, with a leading '-' when negative. */
  function IntToString(n: int): (r: string)
  {
    if n < 0 then "-" + NatToString(-n) else NatToString(n)
  }

  /** The value of a non-empty run of decimal digits. */
  function DigitsValue(s: string): (n: nat)
    requires forall i :: 0 <= i < |s| ==> IsAsciiDigit(s[i])
    decreases |s|
  {
    if s == [] then 0 else DigitsValue(s[..|s| - 1]) * 10 + DigitValue(s[|s| - 1])
  }

  predicate AllDigits(s: string)
  {
    forall i :: 0 <= i < |s| ==> IsAsciiDigit(s[i])
  }

  /** Reading back what NatToString wrote gives the number. */
  lemma {:induction false} NatToStringValue(n: nat)
    ensures AllDigits(NatToString(n)) && DigitsValue(NatToString(n)) == n
    decreases n
  {
    if n >= 10 {
      NatToStringValue(n / 10);
      var s := NatToString(n);
      assert s[..|s| - 1] == NatToString(n / 10);
    }
  }

  const U64_MAX: nat := 0xFFFF_FFFF_FFFF_FFFF

  /**
   * `str::parse::<u64>` (and `usize` on a 64-bit target): an optional '+' then one or more
   * ASCII digits, with a value that fits in 64 bits.
   */
  function ParseU64(s: string): (r: Option<nat>)
    ensures r.Some? ==> r.value <= U64_MAX
  {
    var digits := if |s| > 0 && s[0] == '+' then s[1..] else s;
    if digits == [] || !AllDigits(digits) then None
    else
      var v := DigitsValue(digits);
      if v > U64_MAX then None else Some(v)
  }

  /** Every number up to 2^64 - 1 parses back from its decimal rendering. */
  lemma ParseU64OfNatToString(n: nat)
    requires n <= U64_MAX
    ensures ParseU64(NatToString(n)) == Some(n)
  {
    NatToStringValue(n);
  }

  /** Replaces every occurrence of char `c` by the string `rep` (`str::replace(char, &str)`). */
  function ReplaceChar(s: string, c: char, rep: string): (r: string)
    ensures !ContainsChar(rep, c) ==> !ContainsChar(r, c)
    decreases |s|
  {
    if s == [] then []
    else
      var head := if s[0] == c then rep else [s[0]];
      var rest := ReplaceChar(s[1..], c, rep);
      assert !ContainsChar(rep, c) ==> !ContainsChar(head + rest, c) by {
        if !ContainsChar(rep, c) {
          forall i | 0 <= i < |head + rest| ensures (head + rest)[i] != c {
            if i >= |head| { assert (head + rest)[i] == rest[i - |head|]; }
          }
        }
      }
      head + rest
  }

  /** Removes every leading occurrence of `prefix` (`str::trim_start_matches(&str)`). */
  function TrimStartMatches(s: string, prefix: string): (r: string)
    ensures |r| <= |s| && r == s[|s| - |r|..]
    ensures prefix != [] ==> !StartsWith(r, prefix)
    decreases |s|
  {
    if prefix != [] && StartsWith(s, prefix) then TrimStartMatches(s[|prefix|..], prefix) else s
  }

  /** Removes every leading `c` (`str::trim_start_matches(char)`). */
  function TrimCharStart(s: string, c: char): (r: string)
    ensures |r| <= |s| && r == s[|s| - |r|..]
    ensures r == [] || r[0] != c
    ensures forall i :: 0 <= i < |s| - |r| ==> s[i] == c
    decreases |s|
  {
    if |s| > 0 && s[0] == c then TrimCharStart(s[1..], c) else s
  }

  /** Removes every trailing `c` (`str::trim_end_matches(char)`). */
  function TrimCharEnd(s: string, c: char): (r: string)
    ensures |r| <= |s| && r == s[..|r|]
    ensures r == [] || r[|r| - 1] != c
    ensures forall i :: |r| <= i < |s| ==> s[i] == c
    decreases |s|
  {
    if |s| > 0 && s[|s| - 1] == c then TrimCharEnd(s[..|s| - 1], c) else s
  }

  /** `str::trim_matches(char)`: strips `c` from both ends. */
  function TrimChar(s: string, c: char): (r: string)
    ensures |r| <= |s|
    ensures r == [] || (r[0] != c && r[|r| - 1] != c)
    ensures (s == [] || (s[0] != c && s[|s| - 1] != c)) ==> r == s
  {
    var front := TrimCharStart(s, c);
    var r := TrimCharEnd(front, c);
    assert r != [] ==> r[0] == front[0];
    r
  }

  /** Every character of `TrimChar(s, c)` is a character of `s`. */
  lemma TrimCharFrom(s: string, c: char)
    ensures var r := TrimChar(s, c);
            forall i :: 0 <= i < |r| ==> r[i] == s[|s| - |TrimCharStart(s, c)| + i]
  {
  }

  /** `TrimChar(s, c)` is a slice of `s`, starting at `k`. */
  lemma TrimCharSlice(s: string, c: char) returns (k: nat)
    ensures k + |TrimChar(s, c)| <= |s| && TrimChar(s, c) == s[k..k + |TrimChar(s, c)|]
  {
    k := |s| - |TrimCharStart(s, c)|;
  }

  /** Trimming keeps any property that every character of the text has. */
  lemma TrimCharKeeps(s: string, c: char, p: char -> bool)
    requires forall i :: 0 <= i < |s| ==> p(s[i])
    ensures var r := TrimChar(s, c); forall i :: 0 <= i < |r| ==> p(r[i])
  {
    var r := TrimChar(s, c);
    var k := TrimCharSlice(s, c);
    forall i | 0 <= i < |r| ensures p(r[i]) {
      assert r[i] == s[k + i];
    }
  }

  /** A text contains each of its infixes. */
  lemma ContainsInfix(a: string, b: string, c: string)
    ensures Contains(a + b + c, b)
  {
    assert (a + b + c)[|a|..|a| + |b|] == b;
    assert MatchesAt(a + b + c, b, |a|);
  }

  /** A text containing `p`, where `p` contains `q`, contains `q`. */
  lemma ContainsTransitive(s: string, p: string, q: string)
    requires Contains(s, p) && Contains(p, q)
    ensures Contains(s, q)
  {
    var i :| 0 <= i <= |s| && MatchesAt(s, p, i);
    var j :| 0 <= j <= |p| && MatchesAt(p, q, j);
    assert s[i..i + |p|] == p;
    forall k | 0 <= k < |q|
      ensures s[i + j + k] == q[k]
    {
      assert s[i + j + k] == s[i..i + |p|][j + k];
      assert q[k] == p[j..j + |q|][k];
    }
    assert s[i + j..i + j + |q|] == q;
    assert MatchesAt(s, q, i + j);
  }

  /** Joining splits at any inner boundary into the join of both halves. */
  lemma {:induction false} JoinSplitAt(parts: seq<string>, sep: string, k: nat)
    requires 0 < k < |parts|
    ensures Join(parts, sep) == Join(parts[..k], sep) + sep + Join(parts[k..], sep)
    decreases k
  {
    if k > 1 {
      JoinSplitAt(parts[1..], sep, k - 1);
      assert parts[1..][..k - 1] == parts[1..k];
      assert parts[1..][k - 1..] == parts[k..];
      assert parts[..k][1..] == parts[1..k];
    }
  }
}
