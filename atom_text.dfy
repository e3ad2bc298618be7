/**
 * Text helpers of the atom store (workspace.rs): the title derived from an atom's raw text,
 * the heuristic classification of captured text, and body patches.
 */
module AtomText {
  import opened Wrappers
  import opened Text

  // ---------------------------------------------------------------- derive_title

  /** The longest title `derive_title` keeps, in characters. */
  const MaxTitleLength: nat := 120

  const UntitledTask: string := "Untitled task"

  /** The first line that is not blank, if any (`lines().find(|l| !l.trim().is_empty())`). */
  function FirstNonBlank(lines: seq<string>): (r: Option<string>)
    ensures r.Some? ==> r.value in lines && !IsBlank(r.value)
    ensures r.None? <==> forall k :: 0 <= k < |lines| ==> IsBlank(lines[k])
  {
    if lines == [] then None
    else if !IsBlank(lines[0]) then Some(lines[0])
    else FirstNonBlank(lines[1..])
  }

  /** `trim_start_matches(['-', '*'])`: drops every leading '-' and '*'. */
  function TrimBullets(s: string): (r: string)
    ensures |r| <= |s| && r == s[|s| - |r|..]
    ensures r == [] || (r[0] != '-' && r[0] != '*')
    decreases |s|
  {
    if |s| > 0 && (s[0] == '-' || s[0] == '*') then TrimBullets(s[1..]) else s
  }

  /** `chars().take(n)`. */
  function Take(s: string, n: nat): (r: string)
    ensures |r| <= n && |r| <= |s| && r == s[..|r|]
    ensures |s| <= n ==> r == s
  {
    if |s| <= n then s else s[..n]
  }

  /**
   * `derive_title`: the first non-blank line ("Untitled task" when there is none), trimmed,
   * stripped of leading "- [ ]" and "- [x]" markers and bullets, trimmed again, and cut to
   * 120 characters.
   */
  function DeriveTitle(rawText: string): (r: string)
    ensures |r| <= MaxTitleLength
  {
    var first := Trim(FirstNonBlank(Lines(rawText)).UnwrapOr(UntitledTask));
    var stripped := TrimBullets(TrimStartMatches(TrimStartMatches(first, "- [ ]"), "- [x]"));
    Take(Trim(stripped), MaxTitleLength)
  }

  /** A text with no whitespace at either end is its own trim. */
  lemma TrimOfTrimmed(s: string)
    requires s == [] || (!IsWhitespace(s[0]) && !IsWhitespace(s[|s| - 1]))
    ensures Trim(s) == s
  {
  }

  /** A trimmed text (no whitespace at either end). */
  predicate IsTrimmed(s: string)
  {
    s == [] || (!IsWhitespace(s[0]) && !IsWhitespace(s[|s| - 1]))
  }

  /** The checkbox an imported task line is rewritten with. */
  function TaskMarker(done: bool): (r: string)
    ensures |r| == 6 && r[0] == '-' && r[5] == ' '
  {
    if done then "- [x] " else "- [ ] "
  }

  /**
   * The title of a rewritten task line is its trimmed text, cut to 120 characters: the
   * checkbox is stripped and the space after it stops the bullet stripping.
   */
  lemma TitleOfTaskLine(done: bool, text: string)
    requires text != [] && IsTrimmed(text) && !ContainsChar(text, '\n')
    ensures DeriveTitle(TaskMarker(done) + text) == Take(text, MaxTitleLength)
  {
    TaskLineIsFirstLine(done, text);
    TaskLineMarkerStripped(done, text);
    SpacedTextTitle(text);
  }

  /** What is left after the checkbox, a space then the trimmed text, titles as the text. */
  lemma SpacedTextTitle(text: string)
    requires IsTrimmed(text)
    ensures Take(Trim(TrimBullets(" " + text)), MaxTitleLength) == Take(text, MaxTitleLength)
  {
    var rest := " " + text;
    NoBulletNoStrip(rest);
    TrimLeadingWhitespace(rest);
    assert rest[1..] == text;
    TrimOfTrimmed(text);
  }

  lemma TrimLeadingWhitespace(s: string)
    requires |s| > 0 && IsWhitespace(s[0])
    ensures Trim(s) == Trim(s[1..])
  {
  }

  lemma NoBulletNoStrip(s: string)
    requires |s| > 0 && s[0] == ' '
    ensures TrimBullets(s) == s
  {
  }

  /** A rewritten task line is a single non-blank line that trims to itself. */
  lemma TaskLineIsFirstLine(done: bool, text: string)
    requires text != [] && IsTrimmed(text) && !ContainsChar(text, '\n')
    ensures var raw := TaskMarker(done) + text;
            Trim(FirstNonBlank(Lines(raw)).UnwrapOr(UntitledTask)) == raw
  {
    var raw := TaskMarker(done) + text;
    assert !ContainsChar(raw, '\n') by {
      forall i | 0 <= i < |raw| ensures raw[i] != '\n' {
        if i >= 6 { assert raw[i] == text[i - 6]; }
      }
    }
    assert FindChar(raw, '\n').None?;
    assert Lines(raw) == [raw];
    assert !IsBlank(raw) by { assert raw[0] == '-'; }
    assert FirstNonBlank(Lines(raw)) == Some(raw);
    TrimOfTrimmed(raw);
  }

  /** Stripping the checkbox of a rewritten task line leaves the space and the text. */
  lemma TaskLineMarkerStripped(done: bool, text: string)
    ensures TrimStartMatches(TrimStartMatches(TaskMarker(done) + text, "- [ ]"), "- [x]") == " " + text
  {
    var raw := TaskMarker(done) + text;
    var rest := " " + text;
    assert raw[5..] == rest;
    assert !StartsWith(rest, "- [x]") && !StartsWith(rest, "- [ ]") by { assert rest[0] == ' '; }
    if done {
      assert !StartsWith(raw, "- [ ]") by { assert raw[3] == 'x'; }
      assert StartsWith(raw, "- [x]") by { assert raw[..5] == "- [x]"; }
    } else {
      assert StartsWith(raw, "- [ ]") by { assert raw[..5] == "- [ ]"; }
    }
  }

  /** A raw text with no non-blank line gets the placeholder title. */
  lemma BlankTextIsUntitled(rawText: string)
    requires IsBlank(rawText)
    ensures DeriveTitle(rawText) == UntitledTask
  {
    LinesOfBlankAreBlank(rawText);
    assert FirstNonBlank(Lines(rawText)).UnwrapOr(UntitledTask) == UntitledTask;
    var t := UntitledTask;
    assert t[0] == 'U' && t[|t| - 1] == 'k';
    PlainLineIsItsOwnTitle(t);
  }

  /**
   * A short line without surrounding whitespace that starts with neither a bullet nor a
   * marker passes through every step of `DeriveTitle` unchanged.
   */
  lemma PlainLineIsItsOwnTitle(t: string)
    requires t != [] && |t| <= MaxTitleLength && !IsWhitespace(t[0]) && !IsWhitespace(t[|t| - 1])
    requires t[0] != '-' && t[0] != '*'
    ensures var stripped := TrimBullets(TrimStartMatches(TrimStartMatches(Trim(t), "- [ ]"), "- [x]"));
            Take(Trim(stripped), MaxTitleLength) == t
  {
    TrimOfTrimmed(t);
    NoLeadingMatch(t, "- [ ]");
    NoLeadingMatch(t, "- [x]");
    NoLeadingBullet(t);
  }

  lemma NoLeadingBullet(s: string)
    requires s != [] && s[0] != '-' && s[0] != '*'
    ensures TrimBullets(s) == s
  {
  }

  /** A text that does not start with the prefix loses nothing to `trim_start_matches`. */
  lemma NoLeadingMatch(s: string, prefix: string)
    requires s != [] && prefix != [] && s[0] != prefix[0]
    ensures TrimStartMatches(s, prefix) == s
  {
    assert !StartsWith(s, prefix) by {
      if |prefix| <= |s| { assert s[..|prefix|][0] == s[0]; }
    }
  }

  /** Every line of a blank text is blank. */
  lemma {:induction false} LinesOfBlankAreBlank(s: string)
    requires IsBlank(s)
    ensures forall k :: 0 <= k < |Lines(s)| ==> IsBlank(Lines(s)[k])
    decreases |s|
  {
    if s != [] {
      match FindChar(s, '\n')
      case None =>
      case Some(k) =>
        var tail := s[k + 1..];
        assert IsBlank(tail) by {
          forall i | 0 <= i < |tail| ensures IsWhitespace(tail[i]) {
            assert tail[i] == s[k + 1 + i];
          }
        }
        LinesOfBlankAreBlank(s[k + 1..]);
        var head := StripCr(s[..k]);
        assert IsBlank(head) by {
          forall i | 0 <= i < |head| ensures IsWhitespace(head[i]) {
            assert head[i] == s[i];
          }
        }
        var rest := Lines(s[k + 1..]);
        assert Lines(s) == [head] + rest;
        forall j | 0 <= j < |[head] + rest| ensures IsBlank(([head] + rest)[j]) {
          if j > 0 { assert ([head] + rest)[j] == rest[j - 1]; }
        }
    }
  }

  // ---------------------------------------------------------------- classify_text

  datatype ClassificationSource = Heuristic

  /**
   * A classification: the primary facet name, the confidence in hundredths (0.88, 0.72 and
   * 0.55 in the source), where it came from and why.
   */
  datatype Classification = Classification(
    primaryFacet: string,
    confidencePercent: nat,
    source: ClassificationSource,
    reasoning: Option<string>)

  /** The markers `classify_text` takes as a task: "- ", "* ", "- [ ]" and "- [x]". */
  predicate TaskLike(trimmed: string)
  {
    StartsWith(trimmed, "- ") || StartsWith(trimmed, "* ")
    || StartsWith(trimmed, "- [ ]") || StartsWith(trimmed, "- [x]")
  }

  predicate NoteLike(trimmed: string)
  {
    StartsWith(trimmed, "#") || StartsWith(trimmed, ">")
  }

  /** `classify_text`: task markers first, then headings and quotes as notes, else meta. */
  function ClassifyText(rawText: string): (r: Classification)
    ensures r.source == Heuristic && r.reasoning.Some?
    ensures r.primaryFacet == "task" <==> TaskLike(Trim(rawText))
    ensures r.primaryFacet == "note" <==> !TaskLike(Trim(rawText)) && NoteLike(Trim(rawText))
    ensures r.primaryFacet == "meta" <==> !TaskLike(Trim(rawText)) && !NoteLike(Trim(rawText))
    ensures r.primaryFacet == "task" ==> r.confidencePercent == 88
    ensures r.primaryFacet == "note" ==> r.confidencePercent == 72
    ensures r.primaryFacet == "meta" ==> r.confidencePercent == 55
  {
    var trimmed := Trim(rawText);
    if TaskLike(trimmed) then
      Classification("task", 88, Heuristic, Some("task marker prefix detected"))
    else if NoteLike(trimmed) then
      Classification("note", 72, Heuristic, Some("note-like structure detected"))
    else
      Classification("meta", 55, Heuristic, Some("default freeform classification"))
  }

  /**
   * The two checkbox markers add nothing: every text starting with "- [ ]" or "- [x]" already
   * starts with "- ", so a text is task-like exactly when it starts with "- " or "* ".
   */
  lemma TaskLikeIsBulletLike(trimmed: string)
    ensures TaskLike(trimmed) <==> StartsWith(trimmed, "- ") || StartsWith(trimmed, "* ")
  {
    if StartsWith(trimmed, "- [ ]") {
      assert trimmed[..2] == trimmed[..5][..2];
    }
    if StartsWith(trimmed, "- [x]") {
      assert trimmed[..2] == trimmed[..5][..2];
    }
  }

  // ---------------------------------------------------------------- apply_body_patch

  datatype BodyPatch = BodyPatch(mode: string, value: string)

  /** The newline `append` and `prepend` put between two parts when the first is non-empty. */
  function JoinedBody(first: string, second: string): (r: string)
    ensures first == [] ==> r == second
    ensures first != [] ==> |r| == |first| + 1 + |second| && r[|first|] == '\n'
  {
    if first == [] then second else first + "\n" + second
  }

  /**
   * `apply_body_patch`: "replace" sets the body, "append" adds after the current body (none is
   * empty), "prepend" adds before it, and any other mode leaves the body alone.
   */
  function ApplyBodyPatch(existing: Option<string>, patch: BodyPatch): (r: Option<string>)
    ensures patch.mode == "replace" ==> r == Some(patch.value)
    ensures patch.mode !in {"replace", "append", "prepend"} ==> r == existing
    ensures patch.mode in {"append", "prepend"} && existing.None? ==> r == Some(patch.value)
    ensures patch.mode == "append" && existing.Some? ==>
              r.Some? && EndsWith(r.value, patch.value) && StartsWith(r.value, existing.value)
    ensures patch.mode == "prepend" && existing.Some? ==>
              r.Some? && StartsWith(r.value, patch.value) && EndsWith(r.value, existing.value)
  {
    match patch.mode
    case "replace" => Some(patch.value)
    case "append" => Some(JoinedBody(existing.UnwrapOr([]), patch.value))
    case "prepend" =>
      if existing.None? then Some(patch.value) else Some(JoinedBody(patch.value, existing.value))
    case _ => existing
  }

  /** Appending `b` to a body `a` gives what prepending `a` to a body `b` gives. */
  lemma AppendMirrorsPrepend(a: string, b: string)
    ensures ApplyBodyPatch(Some(a), BodyPatch("append", b)) == ApplyBodyPatch(Some(b), BodyPatch("prepend", a))
  {
  }

  /** Replacing is idempotent; appending to a missing body and to an empty one agree. */
  lemma BodyPatchEdgeCases(existing: Option<string>, value: string)
    ensures var once := ApplyBodyPatch(existing, BodyPatch("replace", value));
            ApplyBodyPatch(once, BodyPatch("replace", value)) == once
    ensures ApplyBodyPatch(None, BodyPatch("append", value)) == ApplyBodyPatch(Some(""), BodyPatch("append", value))
  {
  }
}
