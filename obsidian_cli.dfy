/**
 * The content encoding and the write check of the Obsidian command-line fallback in
 * workspace.rs (`normalize_newlines`, `encode_obsidian_cli_content`,
 * `obsidian_cli_write_applied`). The note's content is passed to the Obsidian binary as one
 * `content=` argument, so newlines and tabs are written as backslash escapes.
 */
module ObsidianCli {
  import opened Wrappers
  import opened Text

  /** `str::replace("\r\n", "\n")`: each carriage-return/line-feed pair becomes one line feed. */
  function ReplaceCrLf(s: string): (r: string)
    decreases |s|
  {
    if s == [] then []
    else if |s| >= 2 && s[0] == '\r' && s[1] == '\n' then "\n" + ReplaceCrLf(s[2..])
    else [s[0]] + ReplaceCrLf(s[1..])
  }

  /** `normalize_newlines`: CRLF pairs, then lone carriage returns, become line feeds. */
  function NormalizeNewlines(s: string): (r: string)
    ensures !ContainsChar(r, '\r')
  {
    ReplaceChar(ReplaceCrLf(s), '\r', "\n")
  }

  /**
   * `encode_obsidian_cli_content`: backslashes doubled, then newlines and tabs escaped. The
   * three chained replacements escape the normalised text one character at a time, reading the
   * argument back gives the normalised text, and the argument holds no line break or tab.
   */
  function EncodeContent(content: string): (r: string)
    ensures r == Escape(NormalizeNewlines(content))
    ensures Unescape(r) == NormalizeNewlines(content)
    ensures !ContainsChar(r, '\n') && !ContainsChar(r, '\t') && !ContainsChar(r, '\r')
  {
    var normal := NormalizeNewlines(content);
    ChainIsEscape(normal);
    UnescapeEscape(normal);
    EscapeHasNoBreaks(normal);
    ReplaceChar(ReplaceChar(ReplaceChar(normal, '\\', "\\\\"), '\n', "\\n"), '\t', "\\t")
  }

  /** The escape one character of normalised content is written as. */
  function EscapeChar(c: char): (r: string)
    ensures |r| >= 1 && (r[0] == '\\' <==> c in "\\\n\t")
  {
    if c == '\\' then "\\\\" else if c == '\n' then "\\n" else if c == '\t' then "\\t" else [c]
  }

  /** The encoding character by character, in one pass. */
  function Escape(s: string): (r: string)
    decreases |s|
  {
    if s == [] then [] else EscapeChar(s[0]) + Escape(s[1..])
  }

  /** Reading the argument back: a backslash escapes the next character, `n` and `t` standing for a newline and a tab. */
  function Unescape(s: string): (r: string)
    decreases |s|
  {
    if s == [] then []
    else if s[0] == '\\' && |s| >= 2 then
      [if s[1] == 'n' then '\n' else if s[1] == 't' then '\t' else s[1]] + Unescape(s[2..])
    else [s[0]] + Unescape(s[1..])
  }

  /**
   * `obsidian_cli_write_applied`: `actual` is the note read back after the command (None when it
   * cannot be read). The write counts when the note now holds the expected content, or, when
   * the previous content is known, when the note changed and ends with the expected content.
   */
  function WriteApplied(actual: Option<string>, expected: string, previous: Option<string>): (r: bool)
    ensures r ==> actual.Some? && EndsWith(NormalizeNewlines(actual.value), NormalizeNewlines(expected))
  {
    actual.Some? &&
    var current := NormalizeNewlines(actual.value);
    current == NormalizeNewlines(expected)
    || (previous.Some? && NormalizeNewlines(previous.value) != current && EndsWith(current, NormalizeNewlines(expected)))
  }

  // ---------------------------------------------------------------- properties

  /** Replacing a character is done piece by piece. */
  lemma {:induction false} ReplaceCharAppend(a: string, b: string, c: char, rep: string)
    ensures ReplaceChar(a + b, c, rep) == ReplaceChar(a, c, rep) + ReplaceChar(b, c, rep)
    decreases |a|
  {
    if a == [] {
      assert a + b == b;
    } else {
      assert (a + b)[0] == a[0] && (a + b)[1..] == a[1..] + b;
      ReplaceCharAppend(a[1..], b, c, rep);
    }
  }

  /** A string without the character is left alone. */
  lemma {:induction false} ReplaceCharAbsent(s: string, c: char, rep: string)
    requires !ContainsChar(s, c)
    ensures ReplaceChar(s, c, rep) == s
    decreases |s|
  {
    if s != [] {
      assert !ContainsChar(s[1..], c) by {
        forall i | 0 <= i < |s[1..]| ensures s[1..][i] != c {
          assert s[1..][i] == s[i + 1];
        }
      }
      ReplaceCharAbsent(s[1..], c, rep);
    }
  }

  /** A string without carriage returns has no CRLF pair to replace. */
  lemma {:induction false} ReplaceCrLfAbsent(s: string)
    requires !ContainsChar(s, '\r')
    ensures ReplaceCrLf(s) == s
    decreases |s|
  {
    if s != [] {
      assert s[0] != '\r';
      assert !ContainsChar(s[1..], '\r') by {
        forall i | 0 <= i < |s[1..]| ensures s[1..][i] != '\r' {
          assert s[1..][i] == s[i + 1];
        }
      }
      ReplaceCrLfAbsent(s[1..]);
    }
  }

  /** Normalising twice is normalising once; text without carriage returns is already normal. */
  lemma NormalizeNewlinesIdempotent(s: string)
    ensures NormalizeNewlines(NormalizeNewlines(s)) == NormalizeNewlines(s)
    ensures !ContainsChar(s, '\r') ==> NormalizeNewlines(s) == s
  {
    var once := NormalizeNewlines(s);
    ReplaceCrLfAbsent(once);
    ReplaceCharAbsent(once, '\r', "\n");
    if !ContainsChar(s, '\r') {
      ReplaceCrLfAbsent(s);
      ReplaceCharAbsent(s, '\r', "\n");
    }
  }

  /** A CRLF line ending normalises to a line feed. */
  lemma CrLfEnding(a: string, b: string)
    requires !ContainsChar(a, '\r') && !ContainsChar(b, '\r')
    ensures NormalizeNewlines(a + "\r\n" + b) == a + "\n" + b
  {
    ReplaceCrLfAbsent(b);
    assert a + "\r\n" + b == a + ("\r\n" + b);
    CrLfInside(a, "\r\n" + b);
    var tail := "\r\n" + b;
    assert tail[0] == '\r' && tail[1] == '\n' && tail[2..] == b;
    assert ReplaceCrLf(tail) == "\n" + b;
    var joined := a + "\n" + b;
    assert ReplaceCrLf(a + "\r\n" + b) == joined;
    assert !ContainsChar(joined, '\r') by {
      forall i | 0 <= i < |joined| ensures joined[i] != '\r' {
        if i > |a| { assert joined[i] == b[i - |a| - 1]; }
      }
    }
    ReplaceCharAbsent(joined, '\r', "\n");
  }

  /** A carriage return not followed by a line feed normalises to a line feed too. */
  lemma LoneCrEnding(a: string, b: string)
    requires !ContainsChar(a, '\r') && !ContainsChar(b, '\r')
    requires b == [] || b[0] != '\n'
    ensures NormalizeNewlines(a + "\r" + b) == a + "\n" + b
  {
    var tail := "\r" + b;
    assert a + "\r" + b == a + tail;
    CrLfInside(a, tail);
    LoneCrKept(b);
    ReplaceCharAppend(a, tail, '\r', "\n");
    ReplaceCharAbsent(a, '\r', "\n");
    LoneCrReplaced(b);
  }

  /** The CRLF replacement leaves a carriage return that no line feed follows. */
  lemma LoneCrKept(b: string)
    requires !ContainsChar(b, '\r')
    requires b == [] || b[0] != '\n'
    ensures ReplaceCrLf("\r" + b) == "\r" + b
  {
    var tail := "\r" + b;
    assert tail[1..] == b;
    ReplaceCrLfAbsent(b);
  }

  /** The character pass turns the leading carriage return into a line feed. */
  lemma LoneCrReplaced(b: string)
    requires !ContainsChar(b, '\r')
    ensures ReplaceChar("\r" + b, '\r', "\n") == "\n" + b
  {
    var tail := "\r" + b;
    assert tail[0] == '\r' && tail[1..] == b;
    ReplaceCharAbsent(b, '\r', "\n");
  }

  /** How the CRLF replacement treats a string after a prefix that ends without a lone `\r`. */
  lemma {:induction false} CrLfInside(a: string, b: string)
    requires !ContainsChar(a, '\r')
    ensures ReplaceCrLf(a + b) == a + ReplaceCrLf(b)
    decreases |a|
  {
    if a == [] {
      assert a + b == b;
    } else {
      assert (a + b)[0] == a[0] && (a + b)[1..] == a[1..] + b;
      assert !ContainsChar(a[1..], '\r') by {
        forall i | 0 <= i < |a[1..]| ensures a[1..][i] != '\r' {
          assert a[1..][i] == a[i + 1];
        }
      }
      CrLfInside(a[1..], b);
    }
  }

  /** Encoding is the one-pass escape of the normalised content. */
  lemma {:induction false} ChainIsEscape(s: string)
    ensures ReplaceChar(ReplaceChar(ReplaceChar(s, '\\', "\\\\"), '\n', "\\n"), '\t', "\\t") == Escape(s)
    decreases |s|
  {
    if s != [] {
      var c := s[0];
      var rest := s[1..];
      ChainIsEscape(rest);
      var one := if c == '\\' then "\\\\" else [c];
      assert ReplaceChar(s, '\\', "\\\\") == one + ReplaceChar(rest, '\\', "\\\\");
      ReplaceCharAppend(one, ReplaceChar(rest, '\\', "\\\\"), '\n', "\\n");
      var two := ReplaceChar(one, '\n', "\\n");
      ReplaceCharAppend(two, ReplaceChar(ReplaceChar(rest, '\\', "\\\\"), '\n', "\\n"), '\t', "\\t");
      assert ReplaceChar(two, '\t', "\\t") == EscapeChar(c) by {
        if c == '\\' {
          assert two == "\\\\" by { ReplaceCharAbsent(one, '\n', "\\n"); }
          ReplaceCharAbsent(two, '\t', "\\t");
        } else if c == '\n' {
          assert two == "\\n";
          ReplaceCharAbsent(two, '\t', "\\t");
        } else if c == '\t' {
          assert two == "\t";
        } else {
          assert two == [c];
        }
      }
    }
  }

  /** Reading an escaped string back gives the string. */
  lemma {:induction false} UnescapeEscape(s: string)
    ensures Unescape(Escape(s)) == s
    decreases |s|
  {
    if s != [] {
      UnescapeEscape(s[1..]);
      UnescapeEscapedChar(s[0], Escape(s[1..]));
    }
  }

  /** Unescaping reads one escaped character back and continues after it. */
  lemma UnescapeEscapedChar(c: char, rest: string)
    ensures Unescape(EscapeChar(c) + rest) == [c] + Unescape(rest)
  {
    var e := EscapeChar(c);
    if c == '\\' || c == '\n' || c == '\t' {
      assert |e| == 2 && (e + rest)[0] == '\\' && (e + rest)[1] == e[1] && (e + rest)[2..] == rest;
    } else {
      assert e == [c] && (e + rest)[0] == c && (e + rest)[1..] == rest;
    }
  }

  /**
   * The encoded argument is one line without tabs, and reading it back gives the content with
   * its line endings normalised.
   */
  lemma {:induction false} EscapeHasNoBreaks(s: string)
    requires !ContainsChar(s, '\r')
    ensures !ContainsChar(Escape(s), '\n') && !ContainsChar(Escape(s), '\t') && !ContainsChar(Escape(s), '\r')
    decreases |s|
  {
    if s != [] {
      assert !ContainsChar(s[1..], '\r') by {
        forall i | 0 <= i < |s[1..]| ensures s[1..][i] != '\r' {
          assert s[1..][i] == s[i + 1];
        }
      }
      EscapeHasNoBreaks(s[1..]);
      var e := EscapeChar(s[0]);
      var rest := Escape(s[1..]);
      forall i | 0 <= i < |e + rest| ensures (e + rest)[i] !in "\n\t\r" {
        if i >= |e| {
          assert (e + rest)[i] == rest[i - |e|];
        }
      }
    }
  }

  /** A note that cannot be read back never counts as written. */
  /**
   * A note holding the expected content, up to line endings, counts whatever it held before;
   * an unchanged note counts only if it already held the expected content.
   */
  lemma WriteAppliedCases(actual: string, expected: string, previous: Option<string>)
    ensures NormalizeNewlines(actual) == NormalizeNewlines(expected) ==> WriteApplied(Some(actual), expected, previous)
    ensures previous.Some? && NormalizeNewlines(previous.value) == NormalizeNewlines(actual)
            ==> (WriteApplied(Some(actual), expected, previous) <==> NormalizeNewlines(actual) == NormalizeNewlines(expected))
    ensures previous.None? ==> (WriteApplied(Some(actual), expected, previous) <==> NormalizeNewlines(actual) == NormalizeNewlines(expected))
  {
  }

  /** A changed note that ends with the expected content counts as written. */
  lemma AppendedCounts(before: string, prefix: string, expected: string)
    requires !ContainsChar(before, '\r') && !ContainsChar(prefix, '\r') && !ContainsChar(expected, '\r')
    requires before != prefix + expected
    ensures WriteApplied(Some(prefix + expected), expected, Some(before))
  {
    NormalizeNewlinesIdempotent(before);
    NormalizeNewlinesIdempotent(expected);
    var actual := prefix + expected;
    assert !ContainsChar(actual, '\r') by {
      forall i | 0 <= i < |actual| ensures actual[i] != '\r' {
        if i >= |prefix| { assert actual[i] == expected[i - |prefix|]; }
      }
    }
    NormalizeNewlinesIdempotent(actual);
    assert actual[|actual| - |expected|..] == expected;
  }
}
