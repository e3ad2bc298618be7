/**
 * harness/line_buffer.rs: turns a chunked output stream into lines.
 * "\n", "\r" and "\r\n" each end a line; an optional cap drops the oldest
 * buffered bytes and counts them.
 */
module LineBuffering {
  import opened Wrappers
  import Text
  import Machine

  predicate IsTerminator(c: char) { c == '\n' || c == '\r' }

  /** A text holding neither '\n' nor '\r'. */
  predicate NoTerminator(s: string)
  {
    forall i :: 0 <= i < |s| ==> !IsTerminator(s[i])
  }

  /** The three line endings the buffer recognises. */
  predicate IsLineEnding(t: string) { t == "\n" || t == "\r" || t == "\r\n" }

  /** Index of the first '\n' or '\r', found as the smaller of the two searches. */
  function FirstTerminator(s: string): (r: Option<nat>)
    ensures r.Some? ==> r.value < |s| && IsTerminator(s[r.value])
    ensures r.Some? ==> NoTerminator(s[..r.value])
    ensures r.None? ==> NoTerminator(s)
  {
    match (Text.FindChar(s, '\n'), Text.FindChar(s, '\r'))
    case (None, None) => None
    case (Some(n), None) => Some(n)
    case (None, Some(r)) => Some(r)
    case (Some(n), Some(r)) => Some(if n < r then n else r)
  }

  /** The first terminator is the one with none before it. */
  lemma FirstTerminatorAt(s: string, i: nat)
    requires i < |s| && IsTerminator(s[i]) && NoTerminator(s[..i])
    ensures FirstTerminator(s) == Some(i)
  {
    assert forall k :: i < k <= |s| ==> s[..k][i] == s[i];
    assert forall k :: 0 <= k < i ==> s[..i][k] == s[k];
  }

  /** How many characters the terminator at `idx` takes: 2 for "\r\n", else 1. */
  function EndingLength(s: string, idx: nat): (n: nat)
    requires idx < |s|
    ensures 1 <= n <= 2 && idx + n <= |s|
  {
    if s[idx] == '\r' && idx + 1 < |s| && s[idx + 1] == '\n' then 2 else 1
  }

  /** The lines cut from a buffer, the ending that closed each, and what is left over. */
  datatype Split = Split(lines: seq<string>, endings: seq<string>, rest: string)

  /** Repeatedly cuts the buffer at its first terminator, as the loop in `push` does. */
  function SplitLines(s: string): (r: Split)
    ensures |r.lines| == |r.endings|
    ensures |r.rest| <= |s|
    decreases |s|
  {
    match FirstTerminator(s)
    case None => Split([], [], s)
    case Some(i) =>
      var n := EndingLength(s, i);
      var tail := SplitLines(s[i + n..]);
      Split([s[..i]] + tail.lines, [s[i..i + n]] + tail.endings, tail.rest)
  }

  /** Each line followed by its ending, all concatenated. */
  function Interleave(lines: seq<string>, endings: seq<string>): (r: string)
    requires |lines| == |endings|
  {
    if lines == [] then [] else lines[0] + endings[0] + Interleave(lines[1..], endings[1..])
  }

  lemma InterleaveCons(line: string, ending: string, lines: seq<string>, endings: seq<string>)
    requires |lines| == |endings|
    ensures Interleave([line] + lines, [ending] + endings) == line + ending + Interleave(lines, endings)
  {
    assert ([line] + lines)[1..] == lines;
    assert ([ending] + endings)[1..] == endings;
  }

  /** A buffer with no terminator yields no line and is kept whole. */
  lemma NoSplitWithoutTerminator(s: string)
    requires NoTerminator(s)
    ensures SplitLines(s) == Split([], [], s)
  {
  }

  /** One step of `SplitLines`: the first line, its ending, then the split of what follows. */
  lemma SplitLinesStep(s: string, i: nat)
    requires FirstTerminator(s) == Some(i)
    ensures var n := EndingLength(s, i);
            var tail := SplitLines(s[i + n..]);
            SplitLines(s) == Split([s[..i]] + tail.lines, [s[i..i + n]] + tail.endings, tail.rest)
  {
  }

  lemma ThreeParts(s: string, i: nat, j: nat)
    requires i <= j <= |s|
    ensures s == s[..i] + s[i..j] + s[j..]
  {
  }

  /** One turn of the loop in `push` keeps the lines found so far in step with `SplitLines`. */
  lemma DrainStep(kept: string, buffer: string, lines: seq<string>, idx: nat)
    requires FirstTerminator(buffer) == Some(idx)
    requires SplitLines(kept).lines == lines + SplitLines(buffer).lines
    requires SplitLines(kept).rest == SplitLines(buffer).rest
    ensures var next := buffer[idx + EndingLength(buffer, idx)..];
            && SplitLines(kept).lines == (lines + [buffer[..idx]]) + SplitLines(next).lines
            && SplitLines(kept).rest == SplitLines(next).rest
  {
    var next := buffer[idx + EndingLength(buffer, idx)..];
    var tail := SplitLines(next);
    SplitLinesStep(buffer, idx);
    assert SplitLines(buffer).lines == [buffer[..idx]] + tail.lines;
    LinesRegroup(lines, buffer[..idx], tail.lines);
  }

  /** Lines found, one more line, then the lines after it. */
  lemma LinesRegroup(lines: seq<string>, line: string, more: seq<string>)
    ensures lines + ([line] + more) == (lines + [line]) + more
  {
  }

  /** The text a split stands for. */
  function Reassembled(r: Split): string
    requires |r.lines| == |r.endings|
  {
    Interleave(r.lines, r.endings) + r.rest
  }

  /** The inductive step of `SplitLinesReassembles`. */
  lemma ReassembleStep(s: string, i: nat)
    requires FirstTerminator(s) == Some(i)
    requires Reassembled(SplitLines(s[i + EndingLength(s, i)..])) == s[i + EndingLength(s, i)..]
    ensures Reassembled(SplitLines(s)) == s
  {
    var n := EndingLength(s, i);
    var tail := SplitLines(s[i + n..]);
    SplitLinesStep(s, i);
    ReassembleCons(s[..i], s[i..i + n], tail);
    ThreeParts(s, i, i + n);
  }

  /** A split with one more line in front stands for that line, its ending, then the rest. */
  lemma ReassembleCons(line: string, ending: string, tail: Split)
    requires |tail.lines| == |tail.endings|
    ensures Reassembled(Split([line] + tail.lines, [ending] + tail.endings, tail.rest))
            == line + ending + Reassembled(tail)
  {
    InterleaveCons(line, ending, tail.lines, tail.endings);
  }

  /** Splitting loses nothing: lines, their endings and the rest give back the input. */
  lemma {:induction false} SplitLinesReassembles(s: string)
    ensures Reassembled(SplitLines(s)) == s
    decreases |s|
  {
    var f := FirstTerminator(s);
    if f.Some? {
      SplitLinesReassembles(s[f.value + EndingLength(s, f.value)..]);
      ReassembleStep(s, f.value);
    }
  }

  /** The ending found at a terminator is one of the three recognised endings. */
  lemma EndingAt(s: string, i: nat)
    requires i < |s| && IsTerminator(s[i])
    ensures IsLineEnding(s[i..i + EndingLength(s, i)])
  {
    if EndingLength(s, i) == 2 {
      assert s[i..i + 2] == [s[i], s[i + 1]];
    } else {
      assert s[i..i + 1] == [s[i]];
    }
  }

  /** Every line and the leftover are free of terminators, and every ending is a recognised one. */
  predicate Clean(r: Split)
  {
    && |r.lines| == |r.endings|
    && (forall k :: 0 <= k < |r.lines| ==> NoTerminator(r.lines[k]))
    && (forall k :: 0 <= k < |r.endings| ==> IsLineEnding(r.endings[k]))
    && NoTerminator(r.rest)
  }

  lemma CleanCons(line: string, ending: string, t: Split)
    requires NoTerminator(line) && IsLineEnding(ending) && Clean(t)
    ensures Clean(Split([line] + t.lines, [ending] + t.endings, t.rest))
  {
    var r := Split([line] + t.lines, [ending] + t.endings, t.rest);
    forall k | 0 <= k < |r.lines|
      ensures NoTerminator(r.lines[k]) && IsLineEnding(r.endings[k])
    {
      if k > 0 { assert r.lines[k] == t.lines[k - 1] && r.endings[k] == t.endings[k - 1]; }
    }
  }

  /** The inductive step of `SplitLinesClean`. */
  lemma CleanStep(s: string, i: nat)
    requires FirstTerminator(s) == Some(i)
    requires Clean(SplitLines(s[i + EndingLength(s, i)..]))
    ensures Clean(SplitLines(s))
  {
    SplitLinesStep(s, i);
    EndingAt(s, i);
    CleanCons(s[..i], s[i..i + EndingLength(s, i)], SplitLines(s[i + EndingLength(s, i)..]));
  }

  /** No returned line and no leftover holds a terminator, and every ending is one of the three. */
  lemma {:induction false} SplitLinesClean(s: string)
    ensures Clean(SplitLines(s))
    decreases |s|
  {
    var f := FirstTerminator(s);
    if f.Some? {
      SplitLinesClean(s[f.value + EndingLength(s, f.value)..]);
      CleanStep(s, f.value);
    }
  }

  /**
   * A line, one ending and whatever follows split as that line followed by
   * the split of the rest; a lone '\r' counts only when no '\n' follows it,
   * so "\r\n" is one ending, never two.
   */
  lemma SplitLinesCons(line: string, ending: string, tail: string)
    requires NoTerminator(line) && IsLineEnding(ending)
    requires ending == "\r" ==> tail == [] || tail[0] != '\n'
    ensures var t := SplitLines(tail);
            SplitLines(line + ending + tail) == Split([line] + t.lines, [ending] + t.endings, t.rest)
  {
    var s := line + ending + tail;
    assert s[|line|] == ending[0];
    assert s[..|line|] == line;
    FirstTerminatorAt(s, |line|);
    assert EndingLength(s, |line|) == |ending|;
    assert s[|line|..|line| + |ending|] == ending;
    assert s[|line| + |ending|..] == tail;
    SplitLinesStep(s, |line|);
  }

  /** How many bytes the cap drops from a buffer of `len` bytes. */
  function Excess(len: nat, max: Option<nat>): (e: nat)
    ensures e <= len
    ensures max.None? ==> e == 0
    ensures max.Some? ==> len - e <= max.value
    ensures max.Some? && len > max.value ==> len - e == max.value
  {
    if max.Some? && len > max.value then len - max.value else 0
  }

  /**
   * The split loop of `push`: cuts complete lines off the front of `text`
   * until no terminator is left, and returns them with the unterminated rest.
   */
  method DrainLines(text: string) returns (lines: seq<string>, rest: string)
    ensures lines == SplitLines(text).lines && rest == SplitLines(text).rest
  {
    rest := text;
    lines := [];
    var found := FirstTerminator(rest);
    while found.Some?
      invariant found == FirstTerminator(rest)
      invariant SplitLines(text).lines == lines + SplitLines(rest).lines
      invariant SplitLines(text).rest == SplitLines(rest).rest
      decreases |rest|
    {
      var next := rest[found.value + EndingLength(rest, found.value)..];
      DrainStep(text, rest, lines, found.value);
      lines, rest := CutLine(lines, rest, found.value);
      assert rest == next;
      found := FirstTerminator(rest);
    }
    NoSplitWithoutTerminator(rest);
  }

  /** Moves the line before the terminator at `idx` onto `lines` and skips its ending. */
  method CutLine(lines: seq<string>, rest: string, idx: nat) returns (lines': seq<string>, rest': string)
    requires idx < |rest|
    ensures lines' == lines + [rest[..idx]]
    ensures rest' == rest[idx + EndingLength(rest, idx)..]
  {
    var advance := 1;
    if rest[idx] == '\r' && idx + 1 < |rest| && rest[idx + 1] == '\n' {
      advance := 2;
    }
    lines' := lines + [rest[..idx]];
    rest' := rest[idx + advance..];
  }

  class LineBuffer {
    var buffer: string
    const maxBufferBytes: Option<nat>
    var overflowedBytes: nat

    /** The buffer never holds a complete line and never exceeds its cap. */
    ghost predicate Valid()
      reads this
    {
      && overflowedBytes <= Machine.USIZE_MAX
      && NoTerminator(buffer)
      && (maxBufferBytes.Some? ==> |buffer| <= maxBufferBytes.value)
    }

    constructor (maxBufferBytes: Option<nat>)
      ensures Valid()
      ensures buffer == [] && overflowedBytes == 0 && this.maxBufferBytes == maxBufferBytes
    {
      buffer := [];
      this.maxBufferBytes := maxBufferBytes;
      overflowedBytes := 0;
    }

    /**
     * Appends a chunk, drops the oldest bytes beyond the cap, and returns every
     * complete line; the unterminated tail stays buffered.
     */
    method Push(chunk: string) returns (lines: seq<string>)
      requires Valid()
      modifies this
      ensures Valid()
      ensures var joined := old(buffer) + chunk;
              var excess := Excess(|joined|, maxBufferBytes);
              && lines == SplitLines(joined[excess..]).lines
              && buffer == SplitLines(joined[excess..]).rest
              && overflowedBytes == Machine.SaturatingAdd(old(overflowedBytes), excess)
    {
      buffer := buffer + chunk;
      if maxBufferBytes.Some? && |buffer| > maxBufferBytes.value {
        var excess := |buffer| - maxBufferBytes.value;
        buffer := buffer[excess..];
        overflowedBytes := Machine.SaturatingAdd(overflowedBytes, excess);
      }
      ghost var kept := buffer;
      assert kept == (old(buffer) + chunk)[Excess(|old(buffer) + chunk|, maxBufferBytes)..];
      lines, buffer := DrainLines(buffer);
      SplitLinesClean(kept);
    }

    /** Returns the bytes dropped so far and resets the count. */
    method ConsumeOverflowedBytes() returns (value: nat)
      requires Valid()
      modifies this
      ensures Valid()
      ensures value == old(overflowedBytes) && overflowedBytes == 0
      ensures buffer == old(buffer)
    {
      value := overflowedBytes;
      overflowedBytes := 0;
    }

    /** Hands back the unterminated tail and empties the buffer. */
    method Flush() returns (rest: string)
      requires Valid()
      modifies this
      ensures Valid()
      ensures rest == old(buffer) && buffer == []
      ensures overflowedBytes == old(overflowedBytes)
    {
      rest := buffer;
      buffer := [];
    }
  }

  /**
   * The tail of the mixed-endings case: "b\r\nc\rd" gives b and c with d left
   * over, "\r\n" counting once and a lone '\r' ending a line.
   */
  lemma CrLfThenCrSplit(b: char, c: char, d: char)
    requires !IsTerminator(b) && !IsTerminator(c) && !IsTerminator(d)
    ensures SplitLines([b] + "\r\n" + ([c] + "\r" + [d])) == Split([[b], [c]], ["\r\n", "\r"], [d])
  {
    var tail := [c] + "\r" + [d];
    calc {
      SplitLines([b] + "\r\n" + tail);
    == { SplitLinesCons([b], "\r\n", tail); }
      Split([[b]] + SplitLines(tail).lines, ["\r\n"] + SplitLines(tail).endings, SplitLines(tail).rest);
    == { LoneCrSplit(c, d); }
      Split([[b]] + [[c]], ["\r\n"] + ["\r"], [d]);
    == { assert [[b]] + [[c]] == [[b], [c]] && ["\r\n"] + ["\r"] == ["\r\n", "\r"]; }
      Split([[b], [c]], ["\r\n", "\r"], [d]);
    }
  }

  /** "c\rd" gives the line c, ended by a lone '\r', with d left over. */
  lemma LoneCrSplit(c: char, d: char)
    requires !IsTerminator(c) && !IsTerminator(d)
    ensures SplitLines([c] + "\r" + [d]) == Split([[c]], ["\r"], [d])
  {
    NoSplitWithoutTerminator([d]);
    SplitLinesCons([c], "\r", [d]);
  }

  /** Pushing "abcdef" into an empty buffer capped at 4 drops two bytes and leaves "cdef" without a line. */
  lemma CapOfFourKeepsTail()
    ensures var joined := [] + "abcdef";
            && Excess(|joined|, Some(4)) == 2
            && SplitLines(joined[2..]) == Split([], [], "cdef")
  {
    assert ([] + "abcdef")[2..] == "cdef";
    NoSplitWithoutTerminator("cdef");
  }

  /** A cap of 4 on "abcdef" drops two bytes and keeps "cdef". */
  method TrimsWhenOverLimit()
  {
    var b := new LineBuffer(Some(4));
    CapOfFourKeepsTail();
    var _ := b.Push("abcdef");
    var dropped := b.ConsumeOverflowedBytes();
    assert dropped == 2;
    var rest := b.Flush();
    assert rest == "cdef";
    var again := b.ConsumeOverflowedBytes();
    assert again == 0;
  }
}
