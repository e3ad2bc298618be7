/**
 * Redaction (redaction.rs): text about to be stored is scrubbed of secrets. In aggressive mode
 * every long token of key-like characters is replaced first (and the whitespace between tokens
 * collapses to single spaces); then each secret pattern replaces its matches. The regular
 * expressions are outside the model: a pattern is given as the segmentation of a text into
 * plain stretches and matches, each match with its first capture group.
 */
module Redaction {
  import opened Wrappers
  import opened Text

  // ----- Long tokens -----

  const LONG_TOKEN_MARK := "[REDACTED_LONG_TOKEN]"
  const LONG_TOKEN_MIN_EXCLUSIVE: nat := 48

  predicate IsTokenChar(c: char)
  {
    IsAsciiAlphanumeric(c) || c == '-' || c == '_'
  }

  /** A token the aggressive pass hides: more than 48 characters, all alphanumeric, '-' or '_'. */
  predicate IsLongToken(t: string)
  {
    |t| > LONG_TOKEN_MIN_EXCLUSIVE && forall i :: 0 <= i < |t| ==> IsTokenChar(t[i])
  }

  function RedactToken(t: string): string
  {
    if IsLongToken(t) then LONG_TOKEN_MARK else t
  }

  /** Each token, redacted when long. */
  function RedactTokens(tokens: seq<string>): (r: seq<string>)
    ensures |r| == |tokens|
    ensures forall i :: 0 <= i < |tokens| ==> r[i] == RedactToken(tokens[i])
  {
    if tokens == [] then [] else RedactTokens(tokens[..|tokens| - 1]) + [RedactToken(tokens[|tokens| - 1])]
  }

  /** How many of the tokens are long. */
  function LongTokenCount(tokens: seq<string>): (n: nat)
    ensures n <= |tokens|
  {
    if tokens == [] then 0
    else LongTokenCount(tokens[..|tokens| - 1]) + (if IsLongToken(tokens[|tokens| - 1]) then 1 else 0)
  }

  /** The aggressive pass as a value: the redacted tokens joined by single spaces, and how many were hidden. */
  function LongTokenPassOf(input: string): (string, nat)
  {
    (Join(RedactTokens(Words(input)), " "), LongTokenCount(Words(input)))
  }

  /** One more word extends the redacted prefix and its count by that word alone. */
  lemma RedactPrefixStep(words: seq<string>, i: nat)
    requires i < |words|
    ensures RedactTokens(words[..i + 1]) == RedactTokens(words[..i]) + [RedactToken(words[i])]
    ensures LongTokenCount(words[..i + 1]) == LongTokenCount(words[..i]) + (if IsLongToken(words[i]) then 1 else 0)
  {
    var prefix := words[..i + 1];
    assert prefix[..i] == words[..i] && prefix[i] == words[i];
  }

  /** Hides one word when it is long, counting it. */
  method RedactOne(tokens: seq<string>, count: nat, word: string) returns (tokens': seq<string>, count': nat)
    ensures tokens' == tokens + [RedactToken(word)]
    ensures count' == count + (if IsLongToken(word) then 1 else 0)
  {
    if IsLongToken(word) {
      count' := count + 1;
      tokens' := tokens + [LONG_TOKEN_MARK];
    } else {
      count' := count;
      tokens' := tokens + [word];
    }
  }

  /** The aggressive pass: split on whitespace, hide each long token, rejoin with single spaces. */
  method LongTokenPass(input: string) returns (normalized: string, count: nat)
    ensures (normalized, count) == LongTokenPassOf(input)
  {
    var words := Words(input);
    var tokens: seq<string> := [];
    count := 0;
    var i := 0;
    while i < |words|
      invariant 0 <= i <= |words|
      invariant tokens == RedactTokens(words[..i])
      invariant count == LongTokenCount(words[..i])
    {
      RedactPrefixStep(words, i);
      tokens, count := RedactOne(tokens, count, words[i]);
      i := i + 1;
    }
    assert words[..i] == words;
    normalized := Join(tokens, " ");
  }

  /** The longest whitespace-free prefix of a word followed by whitespace (or nothing) is that word. */
  lemma {:induction false} TakeWordOfWord(w: string, t: string)
    requires !ContainsWhitespace(w)
    requires t == [] || IsWhitespace(t[0])
    ensures TakeWord(w + t) == w
    decreases |w|
  {
    if w != [] {
      assert !IsWhitespace(w[0]);
      assert !ContainsWhitespace(w[1..]) by {
        forall i | 0 <= i < |w[1..]| ensures !IsWhitespace(w[1..][i]) {
          assert w[1..][i] == w[i + 1];
        }
      }
      TakeWordOfWord(w[1..], t);
      assert (w + t)[1..] == w[1..] + t;
    } else {
      assert w + t == t;
    }
  }

  /** A word followed by whitespace (or nothing) is the first word, and the rest follows. */
  lemma WordsOfWordThen(w: string, t: string)
    requires IsWord(w)
    requires t == [] || IsWhitespace(t[0])
    ensures Words(w + t) == [w] + Words(t)
  {
    var s := w + t;
    assert s[0] == w[0] && !IsWhitespace(w[0]);
    assert TrimStart(s) == s;
    TakeWordOfWord(w, t);
    assert s[|w|..] == t;
  }

  /** Leading whitespace does not change the words. */
  lemma WordsAfterSpace(rest: string)
    ensures Words(" " + rest) == Words(rest)
  {
    assert (" " + rest)[1..] == rest;
    assert TrimStart(" " + rest) == TrimStart(rest);
  }

  /** A single word reads back as itself. */
  lemma WordsOfOneWord(w: string)
    requires IsWord(w)
    ensures Words(w) == [w]
  {
    WordsOfWordThen(w, []);
    assert w + [] == w;
    assert TrimStart([]) == [];
  }

  /** Splitting words joined by single spaces on whitespace gives the words back. */
  lemma {:induction false} WordsOfJoin(ws: seq<string>)
    requires forall i :: 0 <= i < |ws| ==> IsWord(ws[i])
    ensures Words(Join(ws, " ")) == ws
    decreases |ws|
  {
    if |ws| == 1 {
      WordsOfOneWord(ws[0]);
    } else if |ws| > 1 {
      var tail := ws[1..];
      var rest := Join(tail, " ");
      JoinStep(ws);
      WordsOfWordThen(ws[0], " " + rest);
      WordsAfterSpace(rest);
      assert forall i :: 0 <= i < |tail| ==> IsWord(tail[i]) by {
        forall i | 0 <= i < |tail| ensures IsWord(tail[i]) { assert tail[i] == ws[i + 1]; }
      }
      WordsOfJoin(tail);
      calc {
        Words(Join(ws, " "));
        Words(ws[0] + (" " + rest));
        [ws[0]] + Words(" " + rest);
        [ws[0]] + Words(rest);
        [ws[0]] + tail;
        { HeadTail(ws); }
        ws;
      }
    }
  }

  /** A non-empty sequence is its head followed by its tail. */
  lemma HeadTail<T>(s: seq<T>)
    requires |s| > 0
    ensures [s[0]] + s[1..] == s
  {
  }

  /** Joining with a space, one word at a time. */
  lemma JoinStep(ws: seq<string>)
    requires |ws| > 1
    ensures Join(ws, " ") == ws[0] + (" " + Join(ws[1..], " "))
  {
  }

  /** The marker is a word that is not itself a long token. */
  lemma MarkIsShortWord()
    ensures IsWord(LONG_TOKEN_MARK) && !IsLongToken(LONG_TOKEN_MARK)
  {
    var m := LONG_TOKEN_MARK;
    assert forall i :: 0 <= i < |m| ==> !IsWhitespace(m[i]);
  }

  /** The number of long tokens is the number of long words read from left to right. */
  lemma {:induction false} LongTokenCountNone(tokens: seq<string>)
    requires forall i :: 0 <= i < |tokens| ==> !IsLongToken(tokens[i])
    ensures LongTokenCount(tokens) == 0
    decreases |tokens|
  {
    if tokens != [] {
      LongTokenCountNone(tokens[..|tokens| - 1]);
    }
  }

  /**
   * The aggressive pass keeps one token per word and leaves nothing for a second pass: run again
   * on its own output it hides nothing and changes nothing.
   */
  lemma LongTokenPassIsIdempotent(input: string)
    ensures var (out, _) := LongTokenPassOf(input);
            && |Words(out)| == |Words(input)|
            && LongTokenPassOf(out) == (out, 0)
  {
    var words := Words(input);
    var tokens := RedactTokens(words);
    WordsAreWords(input);
    MarkIsShortWord();
    assert forall i :: 0 <= i < |tokens| ==> IsWord(tokens[i]) && !IsLongToken(tokens[i]);
    WordsOfJoin(tokens);
    LongTokenCountNone(tokens);
    assert RedactTokens(tokens) == tokens;
  }

  // ----- Secret patterns -----

  /** A stretch of text a pattern leaves alone, or one of its matches with capture group 1. */
  datatype Piece = Plain(text: string) | Found(text: string, group1: Option<string>)

  /**
   * A secret pattern: how it cuts a text into pieces (what `find_iter` and `replace_all` both
   * walk through), and whether its group 1 names the key (`api_key=...`) rather than holding
   * the secret itself (`sk-...`, `AKIA...`, long hex).
   */
  datatype SecretPattern = SecretPattern(segment: string -> seq<Piece>, groupIsKey: bool)

  /** How many matches the pieces hold (`find_iter(..).count()`). */
  function MatchCount(pieces: seq<Piece>): (n: nat)
    ensures n <= |pieces|
  {
    if pieces == [] then 0 else (if pieces[0].Found? then 1 else 0) + MatchCount(pieces[1..])
  }

  const REDACTED_SUFFIX := "=[REDACTED]"

  /** The replacement the source writes for a match: group 1 lower-cased (or "secret") + "=[REDACTED]". */
  function ReplacementAsWritten(group1: Option<string>): string
  {
    Lower(group1.UnwrapOr("secret")) + REDACTED_SUFFIX
  }

  /** The replacement intended: the key when group 1 names it, else "secret"; never the secret. */
  function Replacement(group1: Option<string>, groupIsKey: bool): string
  {
    if groupIsKey then ReplacementAsWritten(group1) else "secret" + REDACTED_SUFFIX
  }

  /** `replace_all` with the replacement as the source writes it. */
  function RenderedAsWritten(pieces: seq<Piece>): string
  {
    if pieces == [] then []
    else
      match pieces[0]
      case Plain(t) => t + RenderedAsWritten(pieces[1..])
      case Found(_, g) => ReplacementAsWritten(g) + RenderedAsWritten(pieces[1..])
  }

  /** `replace_all` with the intended replacement. */
  function Rendered(pieces: seq<Piece>, groupIsKey: bool): string
  {
    if pieces == [] then []
    else
      match pieces[0]
      case Plain(t) => t + Rendered(pieces[1..], groupIsKey)
      case Found(_, g) => Replacement(g, groupIsKey) + Rendered(pieces[1..], groupIsKey)
  }

  /** What of a piece the intended replacement may depend on: plain text, and the key when there is one. */
  function Shape(p: Piece, groupIsKey: bool): Piece
  {
    match p
    case Plain(t) => Plain(t)
    case Found(_, g) => Found([], if groupIsKey then g else None)
  }

  function Shapes(pieces: seq<Piece>, groupIsKey: bool): (r: seq<Piece>)
    ensures |r| == |pieces|
  {
    seq(|pieces|, i requires 0 <= i < |pieces| => Shape(pieces[i], groupIsKey))
  }

  /**
   * The intended replacement hides what it matched: two texts cut into pieces of the same shape
   * (same plain stretches, same keys) are rendered alike, whatever secrets they held.
   */
  lemma {:induction false} RenderedHidesSecrets(a: seq<Piece>, b: seq<Piece>, groupIsKey: bool)
    requires Shapes(a, groupIsKey) == Shapes(b, groupIsKey)
    ensures Rendered(a, groupIsKey) == Rendered(b, groupIsKey)
    decreases |a|
  {
    if a != [] {
      assert Shape(a[0], groupIsKey) == Shapes(a, groupIsKey)[0] == Shapes(b, groupIsKey)[0] == Shape(b[0], groupIsKey);
      assert Shapes(a[1..], groupIsKey) == Shapes(a, groupIsKey)[1..];
      assert Shapes(b[1..], groupIsKey) == Shapes(b, groupIsKey)[1..];
      RenderedHidesSecrets(a[1..], b[1..], groupIsKey);
    }
  }

  /** Where group 1 names the key, the intended replacement is the source's. */
  lemma {:induction false} KeyedPatternsAreUnchanged(pieces: seq<Piece>)
    ensures Rendered(pieces, true) == RenderedAsWritten(pieces)
    decreases |pieces|
  {
    if pieces != [] {
      KeyedPatternsAreUnchanged(pieces[1..]);
    }
  }

  /** A long lower-case hex key, which `\b([A-Fa-f0-9]{32,})\b` matches whole with group 1 = the key. */
  const HEX_SECRET := "0123456789abcdef" + "0123456789abcdef"

  /**
   * As written, a secret-only pattern writes its match back: the hex key above is "redacted"
   * into itself followed by "=[REDACTED]", and two different keys leave different output.
   */
  lemma SecretSurvivesAsWritten()
    ensures StartsWith(RenderedAsWritten([Found(HEX_SECRET, Some(HEX_SECRET))]), HEX_SECRET)
    ensures RenderedAsWritten([Found("sk-" + HEX_SECRET, Some("sk-" + HEX_SECRET))])
            != RenderedAsWritten([Found("sk-" + HEX_SECRET + "0", Some("sk-" + HEX_SECRET + "0"))])
    ensures Rendered([Found(HEX_SECRET, Some(HEX_SECRET))], false) == "secret" + REDACTED_SUFFIX
  {
    var a, b := "0123456789", "abcdef";
    assert Lower(a) == a && Lower(b) == b;
    assert HEX_SECRET == (a + b) + (a + b);
    assert Lower(a + b) == Lower(a) + Lower(b);
    assert Lower((a + b) + (a + b)) == Lower(a + b) + Lower(a + b);
    assert Lower(HEX_SECRET) == HEX_SECRET;
    RenderOneMatch(HEX_SECRET, Some(HEX_SECRET));
    var out := RenderedAsWritten([Found(HEX_SECRET, Some(HEX_SECRET))]);
    assert out == HEX_SECRET + REDACTED_SUFFIX;
    assert out[..|HEX_SECRET|] == HEX_SECRET;
    var s1, s2 := "sk-" + HEX_SECRET, "sk-" + HEX_SECRET + "0";
    RenderOneMatch(s1, Some(s1));
    RenderOneMatch(s2, Some(s2));
    assert |s1| != |s2|;
  }

  /** A text that is one match becomes that match's replacement. */
  lemma RenderOneMatch(text: string, group1: Option<string>)
    ensures RenderedAsWritten([Found(text, group1)]) == ReplacementAsWritten(group1)
    ensures Rendered([Found(text, group1)], false) == "secret" + REDACTED_SUFFIX
  {
    assert [Found(text, group1)][1..] == [];
  }

  /** One pattern's pass: nothing happens without a match; otherwise every match is replaced. */
  function SecretPass(text: string, pattern: SecretPattern): (r: (string, nat))
    ensures r.1 == MatchCount(pattern.segment(text))
    ensures r.1 == 0 ==> r.0 == text
  {
    var pieces := pattern.segment(text);
    var n := MatchCount(pieces);
    if n == 0 then (text, 0) else (Rendered(pieces, pattern.groupIsKey), n)
  }

  /** The patterns applied in order, each to the previous one's output, counting every match. */
  function SecretPasses(text: string, patterns: seq<SecretPattern>): (string, nat)
    decreases |patterns|
  {
    if patterns == [] then (text, 0)
    else
      var (next, n) := SecretPass(text, patterns[0]);
      var (out, m) := SecretPasses(next, patterns[1..]);
      (out, n + m)
  }

  /** When no pattern matches anything along the way, the text and the count are untouched. */
  lemma {:induction false} NoMatchesKeepText(text: string, patterns: seq<SecretPattern>)
    requires forall i :: 0 <= i < |patterns| ==> MatchCount(patterns[i].segment(text)) == 0
    ensures SecretPasses(text, patterns) == (text, 0)
    decreases |patterns|
  {
    if patterns != [] {
      assert SecretPass(text, patterns[0]) == (text, 0);
      NoMatchesKeepText(text, patterns[1..]);
    }
  }

  /** `RedactionResult`. */
  datatype RedactionResult = RedactionResult(content: string, redactionCount: nat)

  /** `Redactor`: whether the long-token pass runs. */
  datatype Redactor = Redactor(aggressive: bool)

  /** What `redact` computes, as a value. */
  function RedactOf(redactor: Redactor, input: string, patterns: seq<SecretPattern>): RedactionResult
  {
    if input == [] then RedactionResult([], 0)
    else
      var (start, longCount) := if redactor.aggressive then LongTokenPassOf(input) else (input, 0);
      var (out, matches) := SecretPasses(start, patterns);
      RedactionResult(out, longCount + matches)
  }

  /** `Redactor::redact`: the long-token pass when aggressive, then each secret pattern in turn. */
  method Redact(redactor: Redactor, input: string, patterns: seq<SecretPattern>) returns (r: RedactionResult)
    ensures r == RedactOf(redactor, input, patterns)
    ensures input == [] ==> r == RedactionResult([], 0)
  {
    if input == [] {
      return RedactionResult([], 0);
    }
    var start := input;
    var longCount := 0;
    if redactor.aggressive {
      start, longCount := LongTokenPass(input);
    }
    var result, matches := ApplyPatterns(start, patterns);
    r := RedactionResult(result, longCount + matches);
  }

  /** The secret patterns in turn, each rewriting the text when it matches, counting the matches. */
  method ApplyPatterns(text: string, patterns: seq<SecretPattern>) returns (result: string, count: nat)
    ensures (result, count) == SecretPasses(text, patterns)
  {
    result, count := text, 0;
    var i := 0;
    while i < |patterns|
      invariant 0 <= i <= |patterns|
      invariant SecretPasses(text, patterns)
                == (SecretPasses(result, patterns[i..]).0, count + SecretPasses(result, patterns[i..]).1)
    {
      SecretPassesUnfold(result, patterns, i);
      var pieces := patterns[i].segment(result);
      var matches := MatchCount(pieces);
      if matches != 0 {
        count := count + matches;
        result := Rendered(pieces, patterns[i].groupIsKey);
      }
      i := i + 1;
    }
  }

  /** The passes from pattern `i` on: pattern `i`'s pass, then the passes after it. */
  lemma SecretPassesUnfold(text: string, patterns: seq<SecretPattern>, i: nat)
    requires i < |patterns|
    ensures var (next, n) := SecretPass(text, patterns[i]);
            SecretPasses(text, patterns[i..]) == (SecretPasses(next, patterns[i + 1..]).0, n + SecretPasses(next, patterns[i + 1..]).1)
  {
    assert patterns[i..][0] == patterns[i] && patterns[i..][1..] == patterns[i + 1..];
  }

  /**
   * Without the aggressive pass and without matches the content is the input itself; the count
   * is always the long tokens plus the matches.
   */
  lemma PlainTextPassesThrough(input: string, patterns: seq<SecretPattern>)
    requires forall i :: 0 <= i < |patterns| ==> MatchCount(patterns[i].segment(input)) == 0
    ensures RedactOf(Redactor(false), input, patterns) == RedactionResult(input, 0)
  {
    NoMatchesKeepText(input, patterns);
  }
}
