/**
 * One Markdown task line (workspace.rs): the pattern `^\s*[-*]\s+\[( |x|X)\]\s+(.+?)\s*$`
 * matched by hand, with the lemmas that tie a parsed line to the pattern's shape.
 */
module TaskLines {
  import opened Wrappers
  import opened Text
  import opened AtomText

  // ---------------------------------------------------------------- one task line

  /** What a task line holds: whether the box is ticked, and the trimmed task text. */
  datatype TaskLine = TaskLine(done: bool, text: string)

  predicate IsBullet(c: char) { c == '-' || c == '*' }

  predicate IsMarker(c: char) { c == ' ' || c == 'x' || c == 'X' }

  /**
   * A task-line pattern, matched by hand: optional whitespace, a '-' or '*' bullet,
   * whitespace, a `[ ]`, `[x]` or `[X]` box, whitespace, then the text; the text is trimmed
   * and an empty one is no task. The lazy group followed by `\s*$` captures the rest of the
   * line without its trailing whitespace, so the trimmed capture is the trimmed rest of the
   * line; a line whose rest is blank yields no task either way.
   */
  function ParseTaskLine(line: string): (r: Option<TaskLine>)
    ensures r.Some? ==> r.value.text != [] && IsTrimmed(r.value.text)
    ensures r.Some? && !ContainsChar(line, '\n') ==> !ContainsChar(r.value.text, '\n')
  {
    var t := TrimStart(line);
    SuffixKeepsAbsentChar(line, |line| - |t|, '\n');
    ParseBulleted(t)
  }

  /** The pattern from the bullet on: the bullet, whitespace, then the box. */
  function ParseBulleted(t: string): (r: Option<TaskLine>)
    ensures r.Some? ==> r.value.text != [] && IsTrimmed(r.value.text)
    ensures r.Some? && !ContainsChar(t, '\n') ==> !ContainsChar(r.value.text, '\n')
  {
    if |t| < 2 || !IsBullet(t[0]) || !IsWhitespace(t[1]) then None
    else
      var u := TrimStart(t[1..]);
      SuffixKeepsAbsentChar(t, 1, '\n');
      SuffixKeepsAbsentChar(t[1..], |t[1..]| - |u|, '\n');
      ParseBoxed(u)
  }

  /** The pattern from the box on: the box, whitespace, then the non-blank text. */
  function ParseBoxed(u: string): (r: Option<TaskLine>)
    ensures r.Some? ==> r.value.text != [] && IsTrimmed(r.value.text)
    ensures r.Some? && !ContainsChar(u, '\n') ==> !ContainsChar(r.value.text, '\n')
  {
    if |u| < 4 || u[0] != '[' || !IsMarker(u[1]) || u[2] != ']' || !IsWhitespace(u[3]) then None
    else
      var text := Trim(u[3..]);
      SuffixKeepsAbsentChar(u, 3, '\n');
      assert !ContainsChar(u, '\n') ==> !ContainsChar(text, '\n') by {
        if !ContainsChar(u, '\n') { TrimKeepsAbsentChar(u[3..], '\n'); }
      }
      if text == [] then None else Some(TaskLine(u[1] != ' ', text))
  }

  lemma SuffixKeepsAbsentChar(s: string, k: nat, c: char)
    requires k <= |s|
    ensures !ContainsChar(s, c) ==> !ContainsChar(s[k..], c)
  {
    if !ContainsChar(s, c) {
      forall i | 0 <= i < |s[k..]| ensures s[k..][i] != c {
        assert s[k..][i] == s[k + i];
      }
    }
  }

  /** Whitespace before a non-whitespace start is all `trim_start` removes. */
  lemma {:induction false} TrimStartPastBlank(a: string, b: string)
    requires IsBlank(a) && (b == [] || !IsWhitespace(b[0]))
    ensures TrimStart(a + b) == b
    decreases |a|
  {
    if a != [] {
      assert (a + b)[1..] == a[1..] + b;
      TrimStartPastBlank(a[1..], b);
    }
  }

  /** Trimming blank margins off a trimmed text gives the text. */
  lemma {:induction false} TrimMargins(a: string, t: string, b: string)
    requires IsBlank(a) && IsBlank(b) && t != [] && IsTrimmed(t)
    ensures Trim(a + t + b) == t
    decreases |a| + |b|
  {
    var s := a + t + b;
    if a != [] {
      assert s[0] == a[0];
      TrimLeadingWhitespace(s);
      assert s[1..] == a[1..] + t + b;
      TrimMargins(a[1..], t, b);
    } else if b != [] {
      assert s[0] == t[0];
      assert s[|s| - 1] == b[|b| - 1];
      assert s[..|s| - 1] == a + t + b[..|b| - 1];
      TrimMargins(a, t, b[..|b| - 1]);
    } else {
      assert s == t;
      TrimOfTrimmed(t);
    }
  }

  /** A box, a non-empty blank gap, a trimmed text and a blank tail parse to that text. */
  lemma BoxedWellFormed(marker: char, space: string, text: string, tail: string)
    requires IsMarker(marker) && space != [] && IsBlank(space) && text != [] && IsTrimmed(text)
    requires IsBlank(tail)
    ensures ParseBoxed(['[', marker, ']'] + (space + text + tail)) == Some(TaskLine(marker != ' ', text))
  {
    var u := ['[', marker, ']'] + (space + text + tail);
    assert u[3..] == space + text + tail;
    TrimMargins(space, text, tail);
  }

  /** A bullet and a non-empty blank gap hand the rest over to the box. */
  lemma BulletedWellFormed(bullet: char, gap: string, box: string)
    requires IsBullet(bullet) && gap != [] && IsBlank(gap) && box != [] && box[0] == '['
    ensures ParseBulleted([bullet] + (gap + box)) == ParseBoxed(box)
  {
    var t := [bullet] + (gap + box);
    assert TrimStart(t[1..]) == box by {
      assert t[1..] == gap + box;
      TrimStartPastBlank(gap, box);
    }
    assert t[0] == bullet && t[1] == gap[0];
  }

  /**
   * Every line of the pattern's shape parses to its box and its text: the blank lead, the
   * bullet, a non-empty gap, the box, a non-empty gap, a trimmed text and a blank tail.
   */
  lemma ParseWellFormedLine(lead: string, bullet: char, gap: string, marker: char, space: string,
                            text: string, tail: string)
    requires IsBlank(lead) && IsBullet(bullet) && gap != [] && IsBlank(gap) && IsMarker(marker)
    requires space != [] && IsBlank(space) && text != [] && IsTrimmed(text) && IsBlank(tail)
    ensures ParseTaskLine(TaskLineOf(lead, bullet, gap, marker, space, text, tail))
            == Some(TaskLine(marker != ' ', text))
  {
    var box := ['[', marker, ']'] + (space + text + tail);
    var t := [bullet] + (gap + box);
    calc {
      ParseTaskLine(TaskLineOf(lead, bullet, gap, marker, space, text, tail));
      { BlankLeadIgnored(lead, t); }
      ParseBulleted(t);
      { BulletedWellFormed(bullet, gap, box); }
      ParseBoxed(box);
      { BoxedWellFormed(marker, space, text, tail); }
      Some(TaskLine(marker != ' ', text));
    }
  }

  /** Blank space before a bullet is skipped. */
  lemma BlankLeadIgnored(lead: string, t: string)
    requires IsBlank(lead) && t != [] && IsBullet(t[0])
    ensures ParseTaskLine(lead + t) == ParseBulleted(t)
  {
    TrimStartPastBlank(lead, t);
  }

  /** The line the pattern's pieces spell. */
  function TaskLineOf(lead: string, bullet: char, gap: string, marker: char, space: string,
                      text: string, tail: string): string
  {
    lead + ([bullet] + (gap + (['[', marker, ']'] + (space + text + tail))))
  }

  /** A text whose trim starts at non-whitespace splits into its blank lead and that trim. */
  lemma TrimStartSplit(s: string)
    ensures s == s[..|s| - |TrimStart(s)|] + TrimStart(s) && IsBlank(s[..|s| - |TrimStart(s)|])
  {
    var k := |s| - |TrimStart(s)|;
    assert s == s[..k] + s[k..];
  }

  /** A box that parses is a box, a non-empty blank gap, the text and a blank tail. */
  lemma BoxedShape(u: string) returns (marker: char, space: string, tail: string)
    requires ParseBoxed(u).Some?
    ensures var p := ParseBoxed(u).value;
            u == ['[', marker, ']'] + (space + p.text + tail) && IsMarker(marker)
            && space != [] && IsBlank(space) && IsBlank(tail) && p.done == (marker != ' ')
  {
    marker := u[1];
    var after := u[3..];
    space, tail := TrimParts(after);
    assert space != [] by {
      assert after[0] == u[3];
    }
    assert u == ['[', marker, ']'] + after;
  }

  /** A bulleted text that parses is the bullet, a non-empty blank gap and a box. */
  lemma BulletedShape(t: string) returns (bullet: char, gap: string, box: string)
    requires ParseBulleted(t).Some?
    ensures t == [bullet] + (gap + box) && IsBullet(bullet) && gap != [] && IsBlank(gap)
    ensures ParseBoxed(box) == ParseBulleted(t)
  {
    BulletedGuard(t);
    bullet := t[0];
    gap, box := BlankGapShape(t);
  }

  /** What a bulleted text that parses starts with, and what is left to parse. */
  lemma BulletedGuard(t: string)
    requires ParseBulleted(t).Some?
    ensures |t| >= 2 && IsBullet(t[0]) && IsWhitespace(t[1])
    ensures ParseBulleted(t) == ParseBoxed(TrimStart(t[1..]))
  {
  }

  /** After its first character, a text whose second character is whitespace is a blank gap and the rest. */
  lemma BlankGapShape(t: string) returns (gap: string, box: string)
    requires |t| >= 2 && IsWhitespace(t[1])
    ensures t == [t[0]] + (gap + box) && gap != [] && IsBlank(gap) && box == TrimStart(t[1..])
  {
    var rest := t[1..];
    box := TrimStart(rest);
    assert |box| < |rest| by {
      assert IsWhitespace(rest[0]);
      assert box == TrimStart(rest[1..]);
    }
    gap := rest[..|rest| - |box|];
    assert rest == gap + box && IsBlank(gap) by {
      TrimStartSplit(rest);
    }
    assert t == [t[0]] + rest;
  }

  /** Conversely, every line that parses has the pattern's shape around the parsed text. */
  lemma ParsedLineShape(line: string)
      returns (lead: string, bullet: char, gap: string, marker: char, space: string, tail: string)
    requires ParseTaskLine(line).Some?
    ensures var p := ParseTaskLine(line).value;
            line == TaskLineOf(lead, bullet, gap, marker, space, p.text, tail)
            && IsBlank(lead) && IsBullet(bullet) && gap != [] && IsBlank(gap) && IsMarker(marker)
            && space != [] && IsBlank(space) && IsBlank(tail) && p.done == (marker != ' ')
  {
    var t := TrimStart(line);
    TrimStartSplit(line);
    lead := line[..|line| - |t|];
    var box;
    bullet, gap, box := BulletedShape(t);
    marker, space, tail := BoxedShape(box);
  }
}
