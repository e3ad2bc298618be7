/**
 * `chunk_text` (workspace.rs): greedy packing of an input's words into space-joined chunks
 * of about `target_size` bytes, used to split atom text for the search index.
 */
module Chunking {
  import opened Text

  /** The state of the packing loop: the finished chunks and the chunk being filled. */
  datatype ChunkState = ChunkState(chunks: seq<string>, current: string)

  /**
   * One word: when it would take the current chunk past the target, the current chunk is
   * finished first; then the word is appended, after a space unless the chunk is empty.
   */
  function Step(s: ChunkState, word: string, target: nat): ChunkState
  {
    var flush := |s.current| + |word| + 1 > target && s.current != [];
    var chunks := if flush then s.chunks + [s.current] else s.chunks;
    var current := if flush then [] else s.current;
    ChunkState(chunks, if current != [] then current + " " + word else word)
  }

  /** After the last word: a non-empty current chunk is finished; no chunk at all gives one empty chunk. */
  function Finish(s: ChunkState): seq<string>
  {
    var chunks := if s.current != [] then s.chunks + [s.current] else s.chunks;
    if chunks == [] then [""] else chunks
  }

  function ChunkFold(words: seq<string>, target: nat, s: ChunkState): seq<string>
    decreases |words|
  {
    if words == [] then Finish(s) else ChunkFold(words[1..], target, Step(s, words[0], target))
  }

  /** What `chunk_text` returns. */
  function ChunkTextOf(input: string, target: nat): seq<string>
  {
    ChunkFold(Words(input), target, ChunkState([], ""))
  }

  /** `chunk_text`. */
  method ChunkText(input: string, target: nat) returns (chunks: seq<string>)
    ensures chunks == ChunkTextOf(input, target)
  {
    var words := Words(input);
    chunks := [];
    var current := "";
    for i := 0 to |words|
      invariant ChunkFold(words[i..], target, ChunkState(chunks, current)) == ChunkTextOf(input, target)
    {
      FoldAt(words, i, target, ChunkState(chunks, current));
      chunks, current := PackWord(chunks, current, words[i], target);
    }
    assert words[|words|..] == [];
    if current != [] {
      chunks := chunks + [current];
    }
    if chunks == [] {
      chunks := [""];
    }
  }

  /** The body of the packing loop for one word. */
  method PackWord(chunks: seq<string>, current: string, word: string, target: nat)
    returns (chunks': seq<string>, current': string)
    ensures ChunkState(chunks', current') == Step(ChunkState(chunks, current), word, target)
  {
    chunks', current' := chunks, current;
    if |current'| + |word| + 1 > target && current' != [] {
      chunks' := chunks' + [current'];
      current' := "";
    }
    if current' != [] {
      current' := current' + " ";
    }
    current' := current' + word;
  }

  /** The fold from word `i` is one step, then the fold from word `i + 1`. */
  lemma FoldAt(words: seq<string>, i: nat, target: nat, s: ChunkState)
    requires i < |words|
    ensures ChunkFold(words[i..], target, s) == ChunkFold(words[i + 1..], target, Step(s, words[i], target))
  {
    assert words[i..][1..] == words[i + 1..];
  }

  // ---------------------------------------------------------------- properties

  /** `a` and `b` joined by a space, where an empty side contributes nothing. */
  function Glue(a: string, b: string): string
  {
    if a == [] then b else if b == [] then a else a + " " + b
  }

  /** The text a loop state stands for: its chunks, and the current one if any, joined by spaces. */
  function Flat(s: ChunkState): string
  {
    Join(s.chunks + (if s.current == [] then [] else [s.current]), " ")
  }

  /** No finished chunk is empty, and any chunk holding a space (two or more words) fits the target. */
  predicate StateOk(s: ChunkState, target: nat)
  {
    (forall k :: 0 <= k < |s.chunks| ==> s.chunks[k] != [] && (ContainsChar(s.chunks[k], ' ') ==> |s.chunks[k]| <= target))
    && (ContainsChar(s.current, ' ') ==> |s.current| <= target)
  }

  /** Every chunk holding a space fits the target. */
  predicate MultiWordChunksFit(chunks: seq<string>, target: nat)
  {
    forall k :: 0 <= k < |chunks| ==> (ContainsChar(chunks[k], ' ') ==> |chunks[k]| <= target)
  }

  /** Joining with one more part appends a space and the part, unless there was nothing before. */
  lemma JoinSnoc(parts: seq<string>, last: string)
    ensures parts == [] ==> Join(parts + [last], " ") == last
    ensures parts != [] ==> Join(parts + [last], " ") == Join(parts, " ") + " " + last
  {
    if parts == [] {
      assert parts + [last] == [last];
    } else {
      JoinSplitAt(parts + [last], " ", |parts|);
      assert (parts + [last])[..|parts|] == parts && (parts + [last])[|parts|..] == [last];
    }
  }

  /** Parts that are not all empty-first join to a non-empty text. */
  lemma JoinNonEmpty(parts: seq<string>)
    requires parts != [] && parts[0] != []
    ensures Join(parts, " ") != []
  {
  }

  /** Joining non-empty parts, one more appended, is gluing that part on. */
  lemma JoinSnocGlue(parts: seq<string>, last: string)
    requires forall k :: 0 <= k < |parts| ==> parts[k] != []
    requires last != []
    ensures Join(parts + [last], " ") == Glue(Join(parts, " "), last)
  {
    JoinSnoc(parts, last);
    if parts != [] {
      JoinNonEmpty(parts);
    }
  }

  /** A word holds no space. */
  lemma WordHasNoSpace(word: string)
    requires IsWord(word)
    ensures !ContainsChar(word, ' ')
  {
    assert IsWhitespace(' ');
  }

  /** The step that finishes the current chunk and starts a new one with the word. */
  lemma StepFlush(s: ChunkState, word: string, target: nat)
    requires StateOk(s, target) && IsWord(word)
    requires |s.current| + |word| + 1 > target && s.current != []
    ensures StateOk(Step(s, word, target), target)
    ensures Flat(Step(s, word, target)) == Glue(Flat(s), word)
  {
    var chunks := s.chunks + [s.current];
    assert Step(s, word, target) == ChunkState(chunks, word);
    WordHasNoSpace(word);
    calc {
      Flat(ChunkState(chunks, word));
      Join(chunks + [word], " ");
      { JoinSnocGlue(chunks, word); }
      Glue(Join(chunks, " "), word);
    }
  }

  /** The step that appends the word to a non-empty current chunk after a space. */
  lemma StepAppend(s: ChunkState, word: string, target: nat)
    requires StateOk(s, target) && IsWord(word)
    requires !(|s.current| + |word| + 1 > target) && s.current != []
    ensures StateOk(Step(s, word, target), target)
    ensures Flat(Step(s, word, target)) == Glue(Flat(s), word)
  {
    var current := s.current + " " + word;
    assert Step(s, word, target) == ChunkState(s.chunks, current);
    assert |current| <= target;
    calc {
      Flat(ChunkState(s.chunks, current));
      Join(s.chunks + [current], " ");
      { JoinSnoc(s.chunks, current); JoinSnoc(s.chunks, s.current); }
      Glue(Join(s.chunks + [s.current], " "), word);
    }
  }

  /** The step that starts the empty current chunk with the word. */
  lemma StepStart(s: ChunkState, word: string, target: nat)
    requires StateOk(s, target) && IsWord(word)
    requires s.current == []
    ensures StateOk(Step(s, word, target), target)
    ensures Flat(Step(s, word, target)) == Glue(Flat(s), word)
  {
    assert Step(s, word, target) == ChunkState(s.chunks, word);
    WordHasNoSpace(word);
    JoinSnocGlue(s.chunks, word);
    assert s.chunks + [] == s.chunks;
  }

  /** One step keeps the state invariant and appends the word to the text the state stands for. */
  lemma StepKeeps(s: ChunkState, word: string, target: nat)
    requires StateOk(s, target) && IsWord(word)
    ensures StateOk(Step(s, word, target), target)
    ensures Step(s, word, target).current != []
    ensures Flat(Step(s, word, target)) == Glue(Flat(s), word)
  {
    if |s.current| + |word| + 1 > target && s.current != [] {
      StepFlush(s, word, target);
    } else if s.current != [] {
      StepAppend(s, word, target);
    } else {
      StepStart(s, word, target);
    }
  }

  /** Finishing a state yields its text and keeps its chunks' bounds; only the empty state yields [""]. */
  lemma FinishKeeps(s: ChunkState, target: nat)
    requires StateOk(s, target)
    ensures |Finish(s)| >= 1
    ensures Join(Finish(s), " ") == Flat(s)
    ensures MultiWordChunksFit(Finish(s), target)
    ensures (s.chunks != [] || s.current != []) ==> forall k :: 0 <= k < |Finish(s)| ==> Finish(s)[k] != []
  {
    var chunks := if s.current != [] then s.chunks + [s.current] else s.chunks;
    assert s.chunks + [] == s.chunks;
    if chunks == [] {
      assert Finish(s) == [""];
      assert !ContainsChar("", ' ');
    }
  }

  /** Gluing a non-empty word and then the rest is gluing the joined words. */
  lemma GlueWords(a: string, word: string, rest: seq<string>)
    requires word != [] && (rest == [] || rest[0] != [])
    ensures Glue(Glue(a, word), Join(rest, " ")) == Glue(a, Join([word] + rest, " "))
  {
    assert ([word] + rest)[0] == word && ([word] + rest)[1..] == rest;
    if rest != [] {
      JoinNonEmpty(rest);
    }
  }

  lemma {:induction false} ChunkFoldProps(words: seq<string>, target: nat, s: ChunkState)
    requires forall k :: 0 <= k < |words| ==> IsWord(words[k])
    requires StateOk(s, target)
    ensures var r := ChunkFold(words, target, s);
            && |r| >= 1
            && Join(r, " ") == Glue(Flat(s), Join(words, " "))
            && MultiWordChunksFit(r, target)
            && ((words != [] || s.chunks != [] || s.current != []) ==> forall k :: 0 <= k < |r| ==> r[k] != [])
    decreases |words|
  {
    if words == [] {
      FinishKeeps(s, target);
    } else {
      var t := Step(s, words[0], target);
      StepKeeps(s, words[0], target);
      ChunkFoldProps(words[1..], target, t);
      assert words == [words[0]] + words[1..];
      GlueWords(Flat(s), words[0], words[1..]);
    }
  }

  /**
   * `chunk_text` returns at least one chunk; its chunks joined by spaces are the input's words
   * joined by spaces; every chunk holding two or more words fits in `target` bytes; and the
   * only empty chunk is the single one returned for a blank input.
   */
  lemma ChunkTextProperties(input: string, target: nat)
    ensures |ChunkTextOf(input, target)| >= 1
    ensures Join(ChunkTextOf(input, target), " ") == Join(Words(input), " ")
    ensures MultiWordChunksFit(ChunkTextOf(input, target), target)
    ensures ChunkTextOf(input, target) == [""] <==> IsBlank(input)
  {
    WordsAreWords(input);
    WordsEmptyIffBlank(input);
    var s := ChunkState([], "");
    assert Flat(s) == [];
    ChunkFoldProps(Words(input), target, s);
  }
}
