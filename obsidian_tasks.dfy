/**
 * Markdown task import (workspace.rs): task lines of an Obsidian note are recognised by the
 * pattern `^\s*[-*]\s+\[( |x|X)\]\s+(.+?)\s*$`, a leading frontmatter block is skipped, each
 * task becomes an import candidate, and a candidate is applied to the atom it maps to.
 */
module ObsidianTasks {
  import opened Wrappers
  import opened Text
  import opened AtomModels
  import opened AtomText
  import opened TaskLines

  // ---------------------------------------------------------------- candidates of one note

  /** An import candidate (`ImportedObsidianTask`). */
  datatype ImportedTask = ImportedTask(sourceRef: string, rawText: string, title: string, status: TaskStatus)

  /** `obsidian:<path>#L<line>`. */
  function SourceRef(relPath: string, lineNo: nat): (r: string)
  {
    "obsidian:" + relPath + "#L" + NatToString(lineNo)
  }

  /** `parse_importable_task_line`: the candidate of line `lineNo`, if it is a task line. */
  function TaskOf(relPath: string, lineNo: nat, line: string): (r: Option<ImportedTask>)
    ensures r.Some? <==> ParseTaskLine(line).Some?
    ensures r.Some? ==>
              var p := ParseTaskLine(line).value;
              r.value.sourceRef == SourceRef(relPath, lineNo)
              && r.value.rawText == TaskMarker(p.done) + p.text
              && (r.value.status == Done <==> p.done)
              && (r.value.status == Todo <==> !p.done)
    ensures r.Some? && !ContainsChar(line, '\n') ==>
              r.value.title == Take(ParseTaskLine(line).value.text, MaxTitleLength)
  {
    match ParseTaskLine(line)
    case None => None
    case Some(p) =>
      var raw := TaskMarker(p.done) + p.text;
      var task := ImportedTask(SourceRef(relPath, lineNo), raw, DeriveTitle(raw), if p.done then Done else Todo);
      if ContainsChar(line, '\n') then Some(task)
      else
        TitleOfTaskLine(p.done, p.text);
        Some(task)
  }

  function OptionToSeq<T>(o: Option<T>): (r: seq<T>)
    ensures o.None? ==> r == []
    ensures o.Some? ==> r == [o.value]
  {
    if o.Some? then [o.value] else []
  }

  /**
   * What `f` gives for the lines of `lines[lo..hi]`, in order and with the empty results
   * dropped; line `i` of the note is numbered `i + 1`. Generic in `f` so that the facts about
   * line ranges hold whatever the per-line parse is.
   */
  function Numbered<T>(f: (nat, string) -> Option<T>, lines: seq<string>, lo: nat, hi: nat): (r: seq<T>)
    requires lo <= hi <= |lines|
    ensures |r| <= hi - lo
    decreases hi - lo
  {
    if hi == lo then []
    else Numbered(f, lines, lo, hi - 1) + OptionToSeq(f(hi, lines[hi - 1]))
  }

  /** Every result comes from one line of the range, and carries that line's number. */
  lemma {:induction false} NumberedSources<T>(f: (nat, string) -> Option<T>, lines: seq<string>, lo: nat, hi: nat)
    requires lo <= hi <= |lines|
    ensures forall x :: x in Numbered(f, lines, lo, hi) ==>
              (exists i :: lo <= i < hi && f(i + 1, lines[i]) == Some(x))
    decreases hi - lo
  {
    if hi > lo {
      NumberedSources(f, lines, lo, hi - 1);
      forall x | x in Numbered(f, lines, lo, hi)
        ensures exists i :: lo <= i < hi && f(i + 1, lines[i]) == Some(x)
      {
        if x !in Numbered(f, lines, lo, hi - 1) {
          var i := hi - 1;
          assert f(i + 1, lines[i]) == Some(x);
        }
      }
    }
  }

  /** Every line of the range with a result contributes it. */
  lemma {:induction false} NumberedComplete<T>(f: (nat, string) -> Option<T>, lines: seq<string>, lo: nat, hi: nat, i: nat)
    requires lo <= i < hi <= |lines| && f(i + 1, lines[i]).Some?
    ensures f(i + 1, lines[i]).value in Numbered(f, lines, lo, hi)
    decreases hi - lo
  {
    if i < hi - 1 {
      NumberedComplete(f, lines, lo, hi - 1, i);
    }
  }

  /** A range splits at any line in between. */
  lemma {:induction false} NumberedSplit<T>(f: (nat, string) -> Option<T>, lines: seq<string>, lo: nat, mid: nat, hi: nat)
    requires lo <= mid <= hi <= |lines|
    ensures Numbered(f, lines, lo, hi) == Numbered(f, lines, lo, mid) + Numbered(f, lines, mid, hi)
    decreases hi - mid
  {
    if hi > mid {
      NumberedSplit(f, lines, lo, mid, hi - 1);
    }
  }

  /** The candidate parse of one numbered line, as a function of the number and the line. */
  function TaskParser(relPath: string): (nat, string) -> Option<ImportedTask>
  {
    (lineNo: nat, line: string) => TaskOf(relPath, lineNo, line)
  }

  /** A line that closes a frontmatter block. */
  predicate IsFrontmatterClose(line: string)
  {
    Trim(line) == "---" || Trim(line) == "..."
  }

  /** The first closing line at or after `lo`. */
  function FrontmatterClose(lines: seq<string>, lo: nat): (r: Option<nat>)
    ensures r.Some? ==> lo <= r.value < |lines| && IsFrontmatterClose(lines[r.value])
                        && forall j :: lo <= j < r.value ==> !IsFrontmatterClose(lines[j])
    ensures r.None? ==> forall j :: lo <= j < |lines| ==> !IsFrontmatterClose(lines[j])
    decreases |lines| - lo
  {
    if lo >= |lines| then None
    else if IsFrontmatterClose(lines[lo]) then Some(lo)
    else FrontmatterClose(lines, lo + 1)
  }

  /** A line that opens a frontmatter block (only the first line can). */
  predicate IsFrontmatterOpen(line: string)
  {
    Trim(line) == "---"
  }

  /**
   * The candidates of a note: when the first line trims to "---", every line up to and
   * including the first later "---" or "..." line is frontmatter (all of the note when there is
   * no such line); the other lines are numbered from 1.
   */
  function ImportableTasks(relPath: string, content: string): (r: seq<ImportedTask>)
  {
    BodyResults(TaskParser(relPath), Lines(content))
  }

  /** What `parse` gives for the lines of a note outside its frontmatter. */
  function BodyResults<T>(parse: (nat, string) -> Option<T>, lines: seq<string>): (r: seq<T>)
  {
    if lines == [] then []
    else if IsFrontmatterOpen(lines[0]) then
      match FrontmatterClose(lines, 1)
      case None => []
      case Some(k) => Numbered(parse, lines, k + 1, |lines|)
    else Numbered(parse, lines, 0, |lines|)
  }

  /** Line `i` lies in the leading frontmatter block (its delimiters included). */
  predicate InFrontmatter(lines: seq<string>, i: nat)
    requires i < |lines|
  {
    IsFrontmatterOpen(lines[0])
    && (i == 0 || FrontmatterClose(lines, 1).None? || i <= FrontmatterClose(lines, 1).value)
  }

  /** Every result of a note comes from a line outside its frontmatter, with that line's number. */
  lemma BodyResultsSources<T>(parse: (nat, string) -> Option<T>, lines: seq<string>)
    ensures forall x :: x in BodyResults(parse, lines) ==>
              (exists i :: 0 <= i < |lines| && !InFrontmatter(lines, i) && parse(i + 1, lines[i]) == Some(x))
  {
    if lines != [] {
      var lo := if !IsFrontmatterOpen(lines[0]) then 0
                else if FrontmatterClose(lines, 1).None? then |lines|
                else FrontmatterClose(lines, 1).value + 1;
      assert BodyResults(parse, lines) == Numbered(parse, lines, lo, |lines|);
      NumberedSources(parse, lines, lo, |lines|);
    }
  }

  /** Every line outside the frontmatter that parses contributes its result. */
  lemma BodyResultsComplete<T>(parse: (nat, string) -> Option<T>, lines: seq<string>, i: nat)
    requires i < |lines| && !InFrontmatter(lines, i) && parse(i + 1, lines[i]).Some?
    ensures parse(i + 1, lines[i]).value in BodyResults(parse, lines)
  {
    var lo := if !IsFrontmatterOpen(lines[0]) then 0 else FrontmatterClose(lines, 1).value + 1;
    NumberedComplete(parse, lines, lo, |lines|, i);
  }

  /** `parse_importable_tasks_from_markdown`: split the note into lines and scan them. */
  method ParseImportableTasks(relPath: string, content: string) returns (out: seq<ImportedTask>)
    ensures out == ImportableTasks(relPath, content)
  {
    var lines := Lines(content);
    out := ScanLines(TaskParser(relPath), lines);
  }

  /**
   * The line loop of `parse_importable_tasks_from_markdown`, with its frontmatter flag;
   * `parse` is the per-line parse (`parse_importable_task_line`).
   */
  method ScanLines<T>(parse: (nat, string) -> Option<T>, lines: seq<string>) returns (out: seq<T>)
    ensures out == BodyResults(parse, lines)
  {
    out := [];
    if |lines| == 0 {
      return;
    }
    var inFrontmatter := false;
    ghost var opens := IsFrontmatterOpen(lines[0]);
    if IsFrontmatterOpen(lines[0]) {
      inFrontmatter := true;
    } else {
      out := out + OptionToSeq(parse(1, lines[0]));
    }
    ghost var close := FrontmatterClose(lines, 1);
    var i := 1;
    while i < |lines|
      invariant 1 <= i <= |lines|
      invariant !opens ==> !inFrontmatter && out == Numbered(parse, lines, 0, i)
      invariant opens ==> (inFrontmatter <==> close.None? || close.value >= i)
      invariant opens && inFrontmatter ==> out == []
      invariant opens && !inFrontmatter ==> out == Numbered(parse, lines, close.value + 1, i)
    {
      var lineNo := i + 1;
      if inFrontmatter {
        if IsFrontmatterClose(lines[i]) {
          inFrontmatter := false;
          assert close == Some(i);
        } else {
          assert close.None? || close.value > i;
        }
      } else {
        out := out + OptionToSeq(parse(lineNo, lines[i]));
        ghost var lo := if opens then close.value + 1 else 0;
        assert Numbered(parse, lines, lo, i + 1) == Numbered(parse, lines, lo, i) + OptionToSeq(parse(i + 1, lines[i]));
      }
      i := i + 1;
    }
  }

  /** `lines()` splits off a first line that has no '\n' and does not end in '\r'. */
  lemma LinesCons(line: string, rest: string)
    requires !ContainsChar(line, '\n') && (line == [] || line[|line| - 1] != '\r')
    ensures Lines(line + "\n" + rest) == [line] + Lines(rest)
  {
    var s := line + "\n" + rest;
    FindCharAt(s, '\n', |line|);
    assert s[..|line|] == line;
    assert s[|line| + 1..] == rest;
  }

  /** The note of the import test: frontmatter, a blank line, then one open and one ticked task. */
  const InboxNote: string :=
    "---" + "\n" + ("title: Inbox" + "\n" + ("---" + "\n" + ("" + "\n" + ("- [ ] call client" + "\n"
    + ("- [x] shipped release" + "\n" + "")))))

  const InboxLines: seq<string> := ["---", "title: Inbox", "---", "", "- [ ] call client", "- [x] shipped release"]

  /** A line `lines()` gives back unchanged: no '\n' in it and no '\r' at its end. */
  predicate IsPlainLine(line: string)
  {
    !ContainsChar(line, '\n') && (line == [] || line[|line| - 1] != '\r')
  }

  /** The text of `lines`, each line ended by '\n'. */
  function JoinLines(lines: seq<string>): (r: string)
  {
    if lines == [] then "" else lines[0] + "\n" + JoinLines(lines[1..])
  }

  /** `lines()` takes apart what `JoinLines` put together. */
  lemma {:induction false} LinesOfJoinLines(lines: seq<string>)
    requires forall k :: 0 <= k < |lines| ==> IsPlainLine(lines[k])
    ensures Lines(JoinLines(lines)) == lines
  {
    if lines != [] {
      LinesOfJoinLines(lines[1..]);
      LinesCons(lines[0], JoinLines(lines[1..]));
    }
  }

  lemma InboxNoteJoined()
    ensures InboxNote == JoinLines(InboxLines)
  {
    var ls := InboxLines;
    assert JoinLines(ls[5..]) == "- [x] shipped release" + "\n" + "" by { assert ls[5..][1..] == []; }
    assert JoinLines(ls[4..]) == "- [ ] call client" + "\n" + JoinLines(ls[5..]) by { assert ls[4..][1..] == ls[5..]; }
    assert JoinLines(ls[3..]) == "" + "\n" + JoinLines(ls[4..]) by { assert ls[3..][1..] == ls[4..]; }
    assert JoinLines(ls[2..]) == "---" + "\n" + JoinLines(ls[3..]) by { assert ls[2..][1..] == ls[3..]; }
    assert JoinLines(ls[1..]) == "title: Inbox" + "\n" + JoinLines(ls[2..]) by { assert ls[1..][1..] == ls[2..]; }
  }

  lemma InboxLinesPlain()
    ensures forall k :: 0 <= k < |InboxLines| ==> IsPlainLine(InboxLines[k])
  {
    forall k | 0 <= k < |InboxLines| ensures IsPlainLine(InboxLines[k]) {
      var line := InboxLines[k];
      forall i | 0 <= i < |line| ensures line[i] != '\n' && line[i] != '\r' {
        assert line[i] in "-[]x :Iabcdehilnoprst";
      }
    }
  }

  /** The inbox note splits into its six lines. */
  lemma InboxNoteLines()
    ensures Lines(InboxNote) == InboxLines
  {
    InboxNoteJoined();
    InboxLinesPlain();
    LinesOfJoinLines(InboxLines);
  }

  lemma MarkerHasNoNewline(done: bool)
    ensures !ContainsChar(TaskMarker(done), '\n')
  {
    var m := TaskMarker(done);
    forall i | 0 <= i < |m| ensures m[i] != '\n' {
      if done {
        assert m == "- [x] ";
      } else {
        assert m == "- [ ] ";
      }
    }
  }

  lemma ConcatKeepsAbsentChar(a: string, b: string, c: char)
    requires !ContainsChar(a, c) && !ContainsChar(b, c)
    ensures !ContainsChar(a + b, c)
  {
    forall i | 0 <= i < |a + b| ensures (a + b)[i] != c {
      if i >= |a| { assert (a + b)[i] == b[i - |a|]; }
    }
  }

  /** The candidate of a well-formed task line with a short text. */
  lemma ShortTaskOf(relPath: string, lineNo: nat, done: bool, text: string)
    requires text != [] && IsTrimmed(text) && !ContainsChar(text, '\n') && |text| <= MaxTitleLength
    ensures TaskOf(relPath, lineNo, TaskMarker(done) + text)
            == Some(ImportedTask(SourceRef(relPath, lineNo), TaskMarker(done) + text, text, if done then Done else Todo))
  {
    var raw := TaskMarker(done) + text;
    assert ParseTaskLine(raw) == Some(TaskLine(done, text)) by {
      var marker := if done then 'x' else ' ';
      assert raw == TaskLineOf("", '-', " ", marker, " ", text, "");
      ParseWellFormedLine("", '-', " ", marker, " ", text, "");
    }
    assert !ContainsChar(raw, '\n') by {
      MarkerHasNoNewline(done);
      ConcatKeepsAbsentChar(TaskMarker(done), text, '\n');
    }
    var r := TaskOf(relPath, lineNo, raw);
    assert r.Some? && r.value.title == text;
  }

  /** Lines 1 to 3 of the inbox note are its frontmatter, whatever the per-line parse. */
  lemma InboxFrontmatter<T>(parse: (nat, string) -> Option<T>)
    ensures BodyResults(parse, InboxLines) == Numbered(parse, InboxLines, 3, 6)
  {
    var lines := InboxLines;
    assert IsFrontmatterOpen(lines[0]) && IsFrontmatterClose(lines[2]) by {
      assert lines[0] == lines[2] == "---";
      TrimOfTrimmed("---");
    }
    assert !IsFrontmatterClose(lines[1]) by {
      assert lines[1] == "title: Inbox";
      TrimOfTrimmed("title: Inbox");
    }
    assert FrontmatterClose(lines, 1) == Some(2);
  }

  /** The three body lines of the inbox note, one after the other. */
  lemma InboxBody<T>(parse: (nat, string) -> Option<T>)
    ensures Numbered(parse, InboxLines, 3, 6)
            == OptionToSeq(parse(4, InboxLines[3])) + OptionToSeq(parse(5, InboxLines[4]))
               + OptionToSeq(parse(6, InboxLines[5]))
  {
    var lines := InboxLines;
    assert Numbered(parse, lines, 3, 4) == OptionToSeq(parse(4, lines[3]));
    assert Numbered(parse, lines, 3, 5) == Numbered(parse, lines, 3, 4) + OptionToSeq(parse(5, lines[4]));
    assert Numbered(parse, lines, 3, 6) == Numbered(parse, lines, 3, 5) + OptionToSeq(parse(6, lines[5]));
  }

  /** The inbox note yields its two tasks, on lines 5 and 6, open and done. */
  lemma InboxNoteTasks(relPath: string)
    ensures ImportableTasks(relPath, InboxNote) == [
              ImportedTask(SourceRef(relPath, 5), "- [ ] call client", "call client", Todo),
              ImportedTask(SourceRef(relPath, 6), "- [x] shipped release", "shipped release", Done)]
  {
    var parse := TaskParser(relPath);
    calc {
      ImportableTasks(relPath, InboxNote);
      BodyResults(parse, Lines(InboxNote));
      { InboxNoteLines(); }
      BodyResults(parse, InboxLines);
      { InboxFrontmatter(parse); }
      Numbered(parse, InboxLines, 3, 6);
      { InboxBodyTasks(relPath); }
      [ImportedTask(SourceRef(relPath, 5), "- [ ] call client", "call client", Todo),
       ImportedTask(SourceRef(relPath, 6), "- [x] shipped release", "shipped release", Done)];
    }
  }

  lemma InboxBodyTasks(relPath: string)
    ensures Numbered(TaskParser(relPath), InboxLines, 3, 6) == [
              ImportedTask(SourceRef(relPath, 5), "- [ ] call client", "call client", Todo),
              ImportedTask(SourceRef(relPath, 6), "- [x] shipped release", "shipped release", Done)]
  {
    var parse := TaskParser(relPath);
    var open := ImportedTask(SourceRef(relPath, 5), "- [ ] call client", "call client", Todo);
    var done := ImportedTask(SourceRef(relPath, 6), "- [x] shipped release", "shipped release", Done);
    calc {
      Numbered(parse, InboxLines, 3, 6);
      { InboxBody(parse); }
      OptionToSeq(parse(4, InboxLines[3])) + OptionToSeq(parse(5, InboxLines[4]))
        + OptionToSeq(parse(6, InboxLines[5]));
      { assert parse(4, InboxLines[3]) == None by { InboxBlankLine(relPath); }
        assert parse(5, InboxLines[4]) == Some(open) by { InboxOpenTask(relPath); }
        assert parse(6, InboxLines[5]) == Some(done) by { InboxDoneTask(relPath); } }
      OptionToSeq<ImportedTask>(None) + OptionToSeq(Some(open)) + OptionToSeq(Some(done));
      [open, done];
    }
  }

  lemma InboxBlankLine(relPath: string)
    ensures TaskOf(relPath, 4, InboxLines[3]) == None
  {
    assert InboxLines[3] == "";
  }

  lemma InboxOpenTask(relPath: string)
    ensures TaskOf(relPath, 5, InboxLines[4])
            == Some(ImportedTask(SourceRef(relPath, 5), "- [ ] call client", "call client", Todo))
  {
    var text := "call client";
    assert !ContainsChar(text, '\n') by {
      forall i | 0 <= i < |text| ensures text[i] != '\n' { assert text[i] in "aceilnt "; }
    }
    assert TaskMarker(false) + text == "- [ ] call client" == InboxLines[4];
    ShortTaskOf(relPath, 5, false, text);
  }

  lemma InboxDoneTask(relPath: string)
    ensures TaskOf(relPath, 6, InboxLines[5])
            == Some(ImportedTask(SourceRef(relPath, 6), "- [x] shipped release", "shipped release", Done))
  {
    var text := "shipped release";
    assert !ContainsChar(text, '\n') by {
      forall i | 0 <= i < |text| ensures text[i] != '\n' { assert text[i] in "adehilprs "; }
    }
    assert TaskMarker(true) + text == "- [x] shipped release" == InboxLines[5];
    ShortTaskOf(relPath, 6, true, text);
  }
}
