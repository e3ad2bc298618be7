/**
 * `apply_atom_filter` (workspace.rs): the notepad filter an atom list is narrowed by. The
 * source retains matching atoms of a `Vec` in place; here the retained list is returned.
 */
module AtomFilter {
  import opened Wrappers
  import opened Text
  import opened AtomModels

  /** A notepad filter. Due bounds are the raw strings the request carries. */
  datatype NotepadFilter = NotepadFilter(
    includeArchived: Option<bool>,
    facet: Option<FacetKind>,
    statuses: Option<seq<TaskStatus>>,
    parentId: Option<string>,
    threadIds: Option<seq<string>>,
    labels: Option<seq<string>>,
    categories: Option<seq<string>>,
    textQuery: Option<string>,
    attentionLayers: Option<seq<AttentionLayer>>,
    commitmentLevels: Option<seq<CommitmentLevel>>,
    dueFrom: Option<string>,
    dueTo: Option<string>)

  /** The filter that asks for nothing but archived atoms too. */
  const EverythingFilter: NotepadFilter :=
    NotepadFilter(Some(true), None, None, None, None, None, None, None, None, None, None, None)

  // ---------------------------------------------------------------- retain

  /** `Vec::retain`: the elements `keep` accepts, in their order. */
  function Retain<T>(s: seq<T>, keep: T -> bool): (r: seq<T>)
    ensures |r| <= |s|
  {
    if s == [] then []
    else (if keep(s[0]) then [s[0]] else []) + Retain(s[1..], keep)
  }

  /** An element is retained exactly when it is in the list and accepted. */
  lemma {:induction false} RetainMembers<T>(s: seq<T>, keep: T -> bool, x: T)
    ensures x in Retain(s, keep) <==> x in s && keep(x)
  {
    if s != [] {
      RetainMembers(s[1..], keep, x);
      assert s == [s[0]] + s[1..];
    }
  }

  /** Retaining again with the same test changes nothing. */
  lemma {:induction false} RetainIdempotent<T>(s: seq<T>, keep: T -> bool)
    ensures Retain(Retain(s, keep), keep) == Retain(s, keep)
  {
    if s != [] {
      RetainIdempotent(s[1..], keep);
      var rest := Retain(s[1..], keep);
      if keep(s[0]) {
        var kept := [s[0]] + rest;
        assert kept[0] == s[0] && kept[1..] == rest;
        assert Retain(kept, keep) == [s[0]] + Retain(rest, keep);
      } else {
        assert Retain(s, keep) == [] + rest == rest;
      }
    }
  }

  /** A list every element of which is accepted is retained whole. */
  lemma {:induction false} RetainAll<T>(s: seq<T>, keep: T -> bool)
    requires forall i :: 0 <= i < |s| ==> keep(s[i])
    ensures Retain(s, keep) == s
  {
    if s != [] {
      RetainAll(s[1..], keep);
      assert s == [s[0]] + s[1..];
    }
  }

  // ---------------------------------------------------------------- clauses

  /** Some element of `actual` equals, ignoring ASCII case, some element of `expected`. */
  predicate AnyMatchIgnoringCase(actual: seq<string>, expected: seq<string>)
  {
    exists i, j :: 0 <= i < |actual| && 0 <= j < |expected| && Lower(actual[i]) == Lower(expected[j])
  }

  function ActualLabels(atom: AtomRecord): seq<string>
  {
    if atom.facetData.meta.Some? && atom.facetData.meta.value.labels.Some?
    then atom.facetData.meta.value.labels.value else []
  }

  function ActualCategories(atom: AtomRecord): seq<string>
  {
    if atom.facetData.meta.Some? && atom.facetData.meta.value.categories.Some?
    then atom.facetData.meta.value.categories.value else []
  }

  /** The calendar day (days since the epoch, UTC) of a task's hard due time, else its soft one. */
  function DueDay(atom: AtomRecord): (r: Option<int>)
    ensures r.Some? ==> atom.facetData.task.Some?
  {
    if atom.facetData.task.None? then None
    else
      var due := atom.facetData.task.value.hardDueAt.Or(atom.facetData.task.value.softDueAt);
      if due.None? then None else Some(due.value / 86400)
  }

  /** The text query matches the raw text, the body or its task's title, ignoring ASCII case. */
  predicate TextMatches(atom: AtomRecord, query: string)
  {
    var q := Lower(query);
    Contains(Lower(atom.rawText), q)
    || (atom.body.Some? && Contains(Lower(atom.body.value), q))
    || (atom.facetData.task.Some? && Contains(Lower(atom.facetData.task.value.title), q))
  }

  /**
   * The due clause. A bound that does not parse as a date is no bound; when either bound
   * parses, an atom without a due day is dropped.
   */
  predicate DueMatches(atom: AtomRecord, lower: Option<int>, upper: Option<int>)
  {
    (lower.None? && upper.None?)
    || (DueDay(atom).Some?
        && (lower.None? || DueDay(atom).value >= lower.value)
        && (upper.None? || DueDay(atom).value <= upper.value))
  }

  function ParsedBound(bound: Option<string>, parseDate: string -> Option<int>): Option<int>
  {
    if bound.Some? then parseDate(bound.value) else None
  }

  /**
   * Whether `apply_atom_filter` keeps `atom`. Without a filter only unarchived atoms stay;
   * with one, every clause the filter sets must hold. `parseDate` stands for
   * `parse_filter_date`, the date parser of the time library.
   */
  predicate KeepsAtom(filter: Option<NotepadFilter>, parseDate: string -> Option<int>, atom: AtomRecord)
  {
    if filter.None? then atom.archivedAt.None?
    else
      var f := filter.value;
      var task := atom.facetData.task;
      (f.includeArchived.UnwrapOr(false) || atom.archivedAt.None?)
      && (f.facet.None? || f.facet.value in atom.facets)
      && (f.statuses.None? || (task.Some? && task.value.status in f.statuses.value))
      && (f.parentId.None? || atom.relations.parentId == f.parentId)
      && (f.threadIds.None?
          || exists i :: 0 <= i < |atom.relations.threadIds| && atom.relations.threadIds[i] in f.threadIds.value)
      && (f.labels.None? || AnyMatchIgnoringCase(ActualLabels(atom), f.labels.value))
      && (f.categories.None? || AnyMatchIgnoringCase(ActualCategories(atom), f.categories.value))
      && (f.attentionLayers.None?
          || (EffectiveLayer(atom).Some? && EffectiveLayer(atom).value in f.attentionLayers.value))
      && (f.commitmentLevels.None?
          || (EffectiveCommitment(atom).Some? && EffectiveCommitment(atom).value in f.commitmentLevels.value))
      && DueMatches(atom, ParsedBound(f.dueFrom, parseDate), ParsedBound(f.dueTo, parseDate))
      && (f.textQuery.None? || TextMatches(atom, f.textQuery.value))
  }

  /** `apply_atom_filter`. */
  function ApplyAtomFilter(atoms: seq<AtomRecord>, filter: Option<NotepadFilter>,
                           parseDate: string -> Option<int>): (r: seq<AtomRecord>)
    ensures |r| <= |atoms|
  {
    Retain(atoms, (atom: AtomRecord) => KeepsAtom(filter, parseDate, atom))
  }

  // ---------------------------------------------------------------- properties

  /** An atom is in the filtered list exactly when it was in the list and the filter keeps it. */
  lemma ApplyAtomFilterMembers(atoms: seq<AtomRecord>, filter: Option<NotepadFilter>,
                               parseDate: string -> Option<int>, atom: AtomRecord)
    ensures atom in ApplyAtomFilter(atoms, filter, parseDate) <==> atom in atoms && KeepsAtom(filter, parseDate, atom)
  {
    RetainMembers(atoms, (a: AtomRecord) => KeepsAtom(filter, parseDate, a), atom);
  }

  /** Filtering a filtered list again with the same filter changes nothing. */
  lemma ApplyAtomFilterIdempotent(atoms: seq<AtomRecord>, filter: Option<NotepadFilter>,
                                  parseDate: string -> Option<int>)
    ensures ApplyAtomFilter(ApplyAtomFilter(atoms, filter, parseDate), filter, parseDate)
            == ApplyAtomFilter(atoms, filter, parseDate)
  {
    RetainIdempotent(atoms, (a: AtomRecord) => KeepsAtom(filter, parseDate, a));
  }

  /** Unless a filter asks for archived atoms, no archived atom is kept. */
  lemma ArchivedHiddenByDefault(atoms: seq<AtomRecord>, filter: Option<NotepadFilter>,
                                parseDate: string -> Option<int>, atom: AtomRecord)
    requires filter.None? || filter.value.includeArchived != Some(true)
    requires atom in ApplyAtomFilter(atoms, filter, parseDate)
    ensures atom.archivedAt.None?
  {
    ApplyAtomFilterMembers(atoms, filter, parseDate, atom);
  }

  /** Without a filter, exactly the unarchived atoms are kept, in their order. */
  lemma NoFilterKeepsUnarchived(atoms: seq<AtomRecord>, parseDate: string -> Option<int>)
    ensures forall atom :: atom in ApplyAtomFilter(atoms, None, parseDate) <==> atom in atoms && atom.archivedAt.None?
    ensures (forall i :: 0 <= i < |atoms| ==> atoms[i].archivedAt.None?) ==> ApplyAtomFilter(atoms, None, parseDate) == atoms
  {
    forall atom ensures atom in ApplyAtomFilter(atoms, None, parseDate) <==> atom in atoms && atom.archivedAt.None? {
      ApplyAtomFilterMembers(atoms, None, parseDate, atom);
    }
    if forall i :: 0 <= i < |atoms| ==> atoms[i].archivedAt.None? {
      RetainAll(atoms, (a: AtomRecord) => KeepsAtom(None, parseDate, a));
    }
  }

  /** A filter that only includes archived atoms keeps every atom. */
  lemma EverythingFilterKeepsAll(atoms: seq<AtomRecord>, parseDate: string -> Option<int>)
    ensures ApplyAtomFilter(atoms, Some(EverythingFilter), parseDate) == atoms
  {
    RetainAll(atoms, (a: AtomRecord) => KeepsAtom(Some(EverythingFilter), parseDate, a));
  }

  /** A status filter keeps only atoms with task data whose status it lists. */
  lemma StatusFilterNeedsTask(atoms: seq<AtomRecord>, filter: NotepadFilter,
                              parseDate: string -> Option<int>, atom: AtomRecord)
    requires filter.statuses.Some? && atom in ApplyAtomFilter(atoms, Some(filter), parseDate)
    ensures atom.facetData.task.Some? && atom.facetData.task.value.status in filter.statuses.value
  {
    ApplyAtomFilterMembers(atoms, Some(filter), parseDate, atom);
  }

  /** Label matching ignores ASCII case on both sides. */
  lemma LabelMatchIgnoresCase(given: string, wanted: string)
    requires Lower(given) == Lower(wanted)
    ensures AnyMatchIgnoringCase([given], [wanted])
  {
    assert [given][0] == given && [wanted][0] == wanted;
  }

  /** Due bounds that do not parse as dates filter nothing. */
  lemma UnparsableDueBoundsIgnored(atom: AtomRecord, filter: NotepadFilter, parseDate: string -> Option<int>)
    requires filter.dueFrom.None? || parseDate(filter.dueFrom.value).None?
    requires filter.dueTo.None? || parseDate(filter.dueTo.value).None?
    ensures DueMatches(atom, ParsedBound(filter.dueFrom, parseDate), ParsedBound(filter.dueTo, parseDate))
  {
  }

  /** With a parsed lower bound, an atom is kept only if it has a due day on or after it. */
  lemma DueFromBound(atom: AtomRecord, lower: int, upper: Option<int>)
    ensures DueMatches(atom, Some(lower), upper) ==> DueDay(atom).Some? && DueDay(atom).value >= lower
  {
  }
}
