/**
 * The notepad sort order (`compare_atoms`, `compare_optional_datetime`, `attention_rank` in
 * workspace.rs) and the proof that it is a total preorder, which `sort_by` requires of it.
 */
module AtomOrder {
  import opened Wrappers
  import opened Text
  import opened AtomModels

  datatype Ordering = Less | Equal | Greater
  {
    /** `Ordering::reverse`. */
    function Reverse(): (r: Ordering)
      ensures (r == Less) == (this == Greater) && (r == Greater) == (this == Less)
    {
      match this
      case Less => Greater
      case Equal => Equal
      case Greater => Less
    }
  }

  /**
   * `second` following `first` composes as an order should: when neither step goes down, the
   * combined step does not go down either, and it stays level only if both steps do.
   */
  predicate Chain(first: Ordering, second: Ordering, combined: Ordering)
  {
    first != Greater && second != Greater ==>
      combined == (if first == Equal && second == Equal then Equal else Less)
  }

  /** `Ord::cmp` on integers. */
  function CompareInts(x: int, y: int): (r: Ordering)
    ensures r == Less <==> x < y
    ensures r == Equal <==> x == y
  {
    if x < y then Less else if x == y then Equal else Greater
  }

  /** `Ord::cmp` on strings: lexicographic by character (the byte order of their UTF-8 encodings). */
  function CompareStrings(x: string, y: string): (r: Ordering)
    ensures r == Less <==> LexLess(x, y)
    decreases |x|
  {
    if x == [] && y == [] then Equal
    else if x == [] then Less
    else if y == [] then Greater
    else if x[0] < y[0] then (assert SmallerAt(x, y, 0); Less)
    else if x[0] > y[0] then (LexLessFirstDiffers(x, y); Greater)
    else (LexLessTail(x, y); CompareStrings(x[1..], y[1..]))
  }

  /**
   * Lexicographic order: `x` is a proper prefix of `y`, or at the first place they differ
   * `x` has the smaller character.
   */
  ghost predicate LexLess(x: string, y: string)
  {
    x < y || exists i :: SmallerAt(x, y, i)
  }

  /** `x` and `y` agree before `i`, and `x` has the smaller character at `i`. */
  predicate SmallerAt(x: string, y: string, i: int)
  {
    0 <= i < |x| && i < |y| && x[..i] == y[..i] && x[i] < y[i]
  }

  lemma LexLessFirstDiffers(x: string, y: string)
    requires x != [] && y != [] && x[0] > y[0]
    ensures !LexLess(x, y)
  {
    forall i | SmallerAt(x, y, i)
      ensures false
    {
    }
  }

  /** After a common first character the order is decided by the rest. */
  lemma LexLessTail(x: string, y: string)
    requires x != [] && y != [] && x[0] == y[0]
    ensures LexLess(x, y) <==> LexLess(x[1..], y[1..])
  {
    PrefixTail(x, y);
    if exists i :: SmallerAt(x, y, i) {
      var i :| SmallerAt(x, y, i);
      SmallerAtTail(x, y, i);
    }
    if exists j :: SmallerAt(x[1..], y[1..], j) {
      var j :| SmallerAt(x[1..], y[1..], j);
      SmallerAtTail(x, y, j + 1);
    }
  }

  lemma SmallerAtTail(x: string, y: string, i: int)
    requires x != [] && y != [] && x[0] == y[0] && 0 < i
    ensures SmallerAt(x, y, i) <==> SmallerAt(x[1..], y[1..], i - 1)
  {
    if i < |x| && i < |y| {
      var xs, ys := x[1..][..i - 1], y[1..][..i - 1];
      assert x[..i] == [x[0]] + xs && y[..i] == [y[0]] + ys;
      assert x[..i][1..] == xs && y[..i][1..] == ys;
      assert x[i] == x[1..][i - 1] && y[i] == y[1..][i - 1];
    }
  }

  lemma PrefixTail(x: string, y: string)
    requires x != [] && y != [] && x[0] == y[0]
    ensures x < y <==> x[1..] < y[1..]
  {
    if |x| <= |y| {
      assert y[..|x|] == [y[0]] + y[1..][..|x| - 1];
      assert x == [x[0]] + x[1..];
    }
  }

  /** `compare_optional_datetime`: present times in order, absent ones after all present ones. */
  function CompareOptionalDatetime(a: Option<int>, b: Option<int>): (r: Ordering)
    ensures r == Equal <==> a == b
    ensures r == Less <==> a.Some? && (b.None? || a.value < b.value)
  {
    if a.None? && b.None? then Equal
    else if a.None? then Greater
    else if b.None? then Less
    else CompareInts(a.value, b.value)
  }

  /** `attention_rank`: L3 first, then RAM, short, long and archive; no layer ranks last. */
  function AttentionRank(atom: AtomRecord): (r: int)
    ensures EffectiveLayer(atom).None? <==> r == 99
    ensures EffectiveLayer(atom).Some? ==> 0 <= r <= 4
  {
    match EffectiveLayer(atom)
    case Some(L3) => 0
    case Some(Ram) => 1
    case Some(Short) => 2
    case Some(Long) => 3
    case Some(Archive) => 4
    case None => 99
  }

  /** A task's priority, with 99 for an atom without task data. */
  function SortPriority(atom: AtomRecord): int
  {
    if atom.facetData.task.Some? then atom.facetData.task.value.priority else 99
  }

  function SoftDue(atom: AtomRecord): Option<int>
  {
    if atom.facetData.task.Some? then atom.facetData.task.value.softDueAt else None
  }

  function HardDue(atom: AtomRecord): Option<int>
  {
    if atom.facetData.task.Some? then atom.facetData.task.value.hardDueAt else None
  }

  function SortTitle(atom: AtomRecord): string
  {
    if atom.facetData.task.Some? then atom.facetData.task.value.title else ""
  }

  /** One requested sort: a field name and a direction ("desc", in any case, reverses). */
  datatype NotepadSort = NotepadSort(field: string, direction: string)

  predicate IsDescending(sort: NotepadSort)
  {
    Lower(sort.direction) == "desc"
  }

  /** The comparison for one sort field; an unknown field compares everything equal. */
  function CompareField(a: AtomRecord, b: AtomRecord, field: string): (r: Ordering)
  {
    if field == "createdAt" then CompareInts(a.createdAt, b.createdAt)
    else if field == "updatedAt" then CompareInts(a.updatedAt, b.updatedAt)
    else if field == "priority" then CompareInts(SortPriority(a), SortPriority(b))
    else if field == "softDueAt" then CompareOptionalDatetime(SoftDue(a), SoftDue(b))
    else if field == "hardDueAt" then CompareOptionalDatetime(HardDue(a), HardDue(b))
    else if field == "attentionLayer" then CompareInts(AttentionRank(a), AttentionRank(b))
    else if field == "title" then CompareStrings(SortTitle(a), SortTitle(b))
    else Equal
  }

  function CompareSort(a: AtomRecord, b: AtomRecord, sort: NotepadSort): Ordering
  {
    var o := CompareField(a, b, sort.field);
    if IsDescending(sort) then o.Reverse() else o
  }

  /** The first sort that tells the atoms apart decides; otherwise the most recently updated comes first. */
  function CompareBySorts(a: AtomRecord, b: AtomRecord, sorts: seq<NotepadSort>): (r: Ordering)
    ensures r == Equal ==> a.updatedAt == b.updatedAt
  {
    if sorts == [] then CompareInts(b.updatedAt, a.updatedAt)
    else
      var o := CompareSort(a, b, sorts[0]);
      if o != Equal then o else CompareBySorts(a, b, sorts[1..])
  }

  /** `compare_atoms`. */
  function CompareAtoms(a: AtomRecord, b: AtomRecord, sorts: Option<seq<NotepadSort>>): (r: Ordering)
    ensures r == Equal ==> a.updatedAt == b.updatedAt
  {
    CompareBySorts(a, b, if sorts.Some? then sorts.value else [])
  }

  // ---------------------------------------------------------------- the comparators are orders

  lemma {:induction false} CompareStringsAntisymmetric(x: string, y: string)
    ensures CompareStrings(y, x) == CompareStrings(x, y).Reverse()
    decreases |x|
  {
    if x != [] && y != [] && x[0] == y[0] {
      CompareStringsAntisymmetric(x[1..], y[1..]);
    }
  }

  lemma {:induction false} CompareStringsReflexive(x: string)
    ensures CompareStrings(x, x) == Equal
    decreases |x|
  {
    if x != [] {
      CompareStringsReflexive(x[1..]);
    }
  }

  /** Equal strings are the only ones that compare Equal. */
  lemma {:induction false} CompareStringsEqual(x: string, y: string)
    ensures CompareStrings(x, y) == Equal <==> x == y
    decreases |x|
  {
    if x != [] && y != [] && x[0] == y[0] {
      CompareStringsEqual(x[1..], y[1..]);
      assert x == [x[0]] + x[1..] && y == [y[0]] + y[1..];
    } else if x == y {
      CompareStringsReflexive(x);
    }
  }

  lemma {:induction false} CompareStringsChain(x: string, y: string, z: string)
    ensures Chain(CompareStrings(x, y), CompareStrings(y, z), CompareStrings(x, z))
    decreases |x|
  {
    if x != [] && y != [] && z != [] && x[0] == y[0] && y[0] == z[0] {
      CompareStringsChain(x[1..], y[1..], z[1..]);
    } else if x != [] && y != [] && x[0] == y[0] && z == [] {
    } else if x != [] && y == [] && z != [] {
    }
  }

  lemma CompareFieldAntisymmetric(a: AtomRecord, b: AtomRecord, field: string)
    ensures CompareField(b, a, field) == CompareField(a, b, field).Reverse()
  {
    if field == "title" {
      CompareStringsAntisymmetric(SortTitle(a), SortTitle(b));
    }
  }

  lemma CompareFieldChain(a: AtomRecord, b: AtomRecord, c: AtomRecord, field: string)
    ensures Chain(CompareField(a, b, field), CompareField(b, c, field), CompareField(a, c, field))
  {
    if field == "title" {
      CompareStringsChain(SortTitle(a), SortTitle(b), SortTitle(c));
    }
  }

  lemma CompareSortChain(a: AtomRecord, b: AtomRecord, c: AtomRecord, sort: NotepadSort)
    ensures Chain(CompareSort(a, b, sort), CompareSort(b, c, sort), CompareSort(a, c, sort))
  {
    if IsDescending(sort) {
      CompareFieldAntisymmetric(a, b, sort.field);
      CompareFieldAntisymmetric(b, c, sort.field);
      CompareFieldAntisymmetric(a, c, sort.field);
      CompareFieldChain(c, b, a, sort.field);
    } else {
      CompareFieldChain(a, b, c, sort.field);
    }
  }

  /** Swapping the atoms reverses the comparison. */
  lemma {:induction false} CompareBySortsAntisymmetric(a: AtomRecord, b: AtomRecord, sorts: seq<NotepadSort>)
    ensures CompareBySorts(b, a, sorts) == CompareBySorts(a, b, sorts).Reverse()
  {
    if sorts != [] {
      CompareFieldAntisymmetric(a, b, sorts[0].field);
      CompareBySortsAntisymmetric(a, b, sorts[1..]);
    }
  }

  /** Every atom compares Equal to itself. */
  lemma {:induction false} CompareBySortsReflexive(a: AtomRecord, sorts: seq<NotepadSort>)
    ensures CompareBySorts(a, a, sorts) == Equal
  {
    if sorts != [] {
      CompareFieldAntisymmetric(a, a, sorts[0].field);
      CompareBySortsReflexive(a, sorts[1..]);
    }
  }

  /** The order is transitive, and so is its Equal. */
  lemma {:induction false} CompareBySortsChain(a: AtomRecord, b: AtomRecord, c: AtomRecord, sorts: seq<NotepadSort>)
    ensures Chain(CompareBySorts(a, b, sorts), CompareBySorts(b, c, sorts), CompareBySorts(a, c, sorts))
  {
    if sorts != [] {
      CompareSortChain(a, b, c, sorts[0]);
      CompareBySortsChain(a, b, c, sorts[1..]);
    }
  }

  /**
   * `compare_atoms` is a total preorder for any sort request: swapping the arguments reverses
   * it, an atom equals itself, and it is transitive.
   */
  lemma CompareAtomsIsTotalPreorder(a: AtomRecord, b: AtomRecord, c: AtomRecord, sorts: Option<seq<NotepadSort>>)
    ensures CompareAtoms(b, a, sorts) == CompareAtoms(a, b, sorts).Reverse()
    ensures CompareAtoms(a, a, sorts) == Equal
    ensures CompareAtoms(a, b, sorts) != Greater && CompareAtoms(b, c, sorts) != Greater ==>
              CompareAtoms(a, c, sorts) != Greater
    ensures CompareAtoms(a, b, sorts) == Less && CompareAtoms(b, c, sorts) != Greater ==>
              CompareAtoms(a, c, sorts) == Less
  {
    var s := if sorts.Some? then sorts.value else [];
    CompareBySortsAntisymmetric(a, b, s);
    CompareBySortsReflexive(a, s);
    CompareBySortsChain(a, b, c, s);
  }

  /** With no sorts, or only unknown fields, the most recently updated atom comes first. */
  lemma UnknownSortsOrderByRecency(a: AtomRecord, b: AtomRecord, sorts: seq<NotepadSort>)
    requires forall i :: 0 <= i < |sorts| ==>
               sorts[i].field !in ["createdAt", "updatedAt", "priority", "softDueAt", "hardDueAt", "attentionLayer", "title"]
    ensures CompareAtoms(a, b, Some(sorts)) == Less <==> a.updatedAt > b.updatedAt
    ensures CompareAtoms(a, b, Some(sorts)) == CompareAtoms(a, b, None)
  {
    UnknownSortsFallThrough(a, b, sorts);
  }

  lemma {:induction false} UnknownSortsFallThrough(a: AtomRecord, b: AtomRecord, sorts: seq<NotepadSort>)
    requires forall i :: 0 <= i < |sorts| ==>
               sorts[i].field !in ["createdAt", "updatedAt", "priority", "softDueAt", "hardDueAt", "attentionLayer", "title"]
    ensures CompareBySorts(a, b, sorts) == CompareInts(b.updatedAt, a.updatedAt)
  {
    if sorts != [] {
      assert sorts[0].field !in ["createdAt", "updatedAt", "priority", "softDueAt", "hardDueAt", "attentionLayer", "title"];
      UnknownSortsFallThrough(a, b, sorts[1..]);
    }
  }

  /** Tasks with a due time come before tasks without one, whatever the times. */
  lemma DueBeforeUndue(a: AtomRecord, b: AtomRecord)
    requires HardDue(a).Some? && HardDue(b).None?
    ensures CompareAtoms(a, b, Some([NotepadSort("hardDueAt", "asc")])) == Less
  {
  }
}
