/**
 * Field-level atom logic of workspace.rs: merging facet and relation patches, the status and
 * block lifecycle an atom is filed under, and whether an attention change keeps the current dwell.
 */
module AtomState {
  import opened Wrappers
  import opened AtomModels

  // ---------------------------------------------------------------- patches

  /** `Option::or`: the patch value when it has one, else the existing value. */
  function PatchOr<T>(patch: Option<T>, existing: Option<T>): (r: Option<T>)
    ensures patch.Some? ==> r == patch
    ensures patch.None? ==> r == existing
  {
    if patch.Some? then patch else existing
  }

  /** `merge_atom_facets`: every facet the patch carries replaces the existing one. */
  function MergeAtomFacets(existing: AtomFacets, patch: AtomFacets): (r: AtomFacets)
    ensures patch == NoFacets ==> r == existing
    ensures existing == NoFacets ==> r == patch
  {
    AtomFacets(
      PatchOr(patch.task, existing.task),
      PatchOr(patch.note, existing.note),
      PatchOr(patch.meta, existing.meta),
      PatchOr(patch.attention, existing.attention),
      PatchOr(patch.commitment, existing.commitment),
      PatchOr(patch.blocking, existing.blocking),
      PatchOr(patch.recurrence, existing.recurrence),
      PatchOr(patch.energy, existing.energy),
      PatchOr(patch.agent, existing.agent))
  }

  /** The facets a patch sets. */
  function PatchedFacets(patch: AtomFacets): (r: set<FacetKind>)
  {
    (if patch.task.Some? then {TaskFacetKind} else {})
    + (if patch.note.Some? then {NoteFacetKind} else {})
    + (if patch.meta.Some? then {MetaFacetKind} else {})
    + (if patch.attention.Some? then {AttentionFacetKind} else {})
    + (if patch.commitment.Some? then {CommitmentFacetKind} else {})
    + (if patch.blocking.Some? then {BlockingFacetKind} else {})
    + (if patch.recurrence.Some? then {RecurrenceFacetKind} else {})
    + (if patch.energy.Some? then {EnergyFacetKind} else {})
    + (if patch.agent.Some? then {AgentFacetKind} else {})
  }

  /** The merged atom carries exactly the facets the existing atom or the patch carries. */
  lemma MergedFacetsAreUnion(existing: AtomFacets, patch: AtomFacets)
    ensures PatchedFacets(MergeAtomFacets(existing, patch)) == PatchedFacets(existing) + PatchedFacets(patch)
    ensures PatchedFacets(NoFacets) == {}
  {
    var merged := MergeAtomFacets(existing, patch);
    forall k
      ensures k in PatchedFacets(merged) <==> k in PatchedFacets(existing) + PatchedFacets(patch)
    {
      FacetMember(merged, k);
      FacetMember(existing, k);
      FacetMember(patch, k);
    }
    forall k
      ensures k !in PatchedFacets(NoFacets)
    {
      FacetMember(NoFacets, k);
    }
  }

  /** Whether `facets` carries the facet of kind `k`. */
  predicate HasFacet(facets: AtomFacets, k: FacetKind)
  {
    match k
    case TaskFacetKind => facets.task.Some?
    case NoteFacetKind => facets.note.Some?
    case MetaFacetKind => facets.meta.Some?
    case AttentionFacetKind => facets.attention.Some?
    case CommitmentFacetKind => facets.commitment.Some?
    case BlockingFacetKind => facets.blocking.Some?
    case RecurrenceFacetKind => facets.recurrence.Some?
    case EnergyFacetKind => facets.energy.Some?
    case AgentFacetKind => facets.agent.Some?
  }

  lemma FacetMember(facets: AtomFacets, k: FacetKind)
    ensures k in PatchedFacets(facets) <==> HasFacet(facets, k)
  {
  }

  /** Merging two patches one after the other is merging their merge. */
  lemma MergeAtomFacetsCompose(existing: AtomFacets, first: AtomFacets, second: AtomFacets)
    ensures MergeAtomFacets(MergeAtomFacets(existing, first), second)
            == MergeAtomFacets(existing, MergeAtomFacets(first, second))
  {
  }

  /** Applying the same patch twice is applying it once. */
  lemma MergeAtomFacetsIdempotent(existing: AtomFacets, patch: AtomFacets)
    ensures MergeAtomFacets(MergeAtomFacets(existing, patch), patch) == MergeAtomFacets(existing, patch)
  {
  }

  /** `merge_atom_relations`: set fields replace, the thread list is replaced when given. */
  function MergeAtomRelations(existing: AtomRelations, patch: AtomRelationsPatch): (r: AtomRelations)
    ensures r.parentId.Some? <==> patch.parentId.Some? || existing.parentId.Some?
    ensures r.blockedByAtomId.Some? <==> patch.blockedByAtomId.Some? || existing.blockedByAtomId.Some?
    ensures r.derivedFromAtomId.Some? <==> patch.derivedFromAtomId.Some? || existing.derivedFromAtomId.Some?
    ensures patch.threadIds.None? ==> r.threadIds == existing.threadIds
  {
    AtomRelations(
      PatchOr(patch.parentId, existing.parentId),
      PatchOr(patch.blockedByAtomId, existing.blockedByAtomId),
      if patch.threadIds.Some? then patch.threadIds.value else existing.threadIds,
      PatchOr(patch.derivedFromAtomId, existing.derivedFromAtomId))
  }

  const EmptyRelationsPatch: AtomRelationsPatch := AtomRelationsPatch(None, None, None, None)

  /** The patch that sets every field of `relations`. */
  function FullRelationsPatch(relations: AtomRelations): (r: AtomRelationsPatch)
  {
    AtomRelationsPatch(relations.parentId, relations.blockedByAtomId, Some(relations.threadIds),
                       relations.derivedFromAtomId)
  }

  /**
   * The empty patch changes nothing, a relation field can be set but never cleared (a `None` in
   * the patch keeps the existing value), and a full patch of set fields overwrites everything.
   */
  lemma MergeAtomRelationsProperties(existing: AtomRelations, patch: AtomRelationsPatch)
    ensures MergeAtomRelations(existing, EmptyRelationsPatch) == existing
    ensures existing.parentId.Some? ==> MergeAtomRelations(existing, patch).parentId.Some?
    ensures existing.blockedByAtomId.Some? ==> MergeAtomRelations(existing, patch).blockedByAtomId.Some?
    ensures existing.derivedFromAtomId.Some? ==> MergeAtomRelations(existing, patch).derivedFromAtomId.Some?
    ensures MergeAtomRelations(MergeAtomRelations(existing, patch), patch) == MergeAtomRelations(existing, patch)
  {
  }

  /** Merging in a full patch of a relations record whose optional fields are all set yields that record. */
  lemma MergeFullRelationsPatch(existing: AtomRelations, relations: AtomRelations)
    requires relations.parentId.Some? && relations.blockedByAtomId.Some? && relations.derivedFromAtomId.Some?
    ensures MergeAtomRelations(existing, FullRelationsPatch(relations)) == relations
  {
  }

  // ---------------------------------------------------------------- status and lifecycle

  /** `atom_status`: a task's status; without task data, Archived when archived, else Todo. */
  function AtomStatus(atom: AtomRecord): (r: TaskStatus)
    ensures atom.facetData.task.Some? ==> r == atom.facetData.task.value.status
    ensures atom.facetData.task.None? ==> (r == Archived <==> atom.archivedAt.Some?)
    ensures atom.facetData.task.None? ==> r == Archived || r == Todo
  {
    if atom.facetData.task.Some? then atom.facetData.task.value.status
    else if atom.archivedAt.Some? then Archived
    else Todo
  }

  datatype BlockLifecycle = Active | Completed | ArchivedBlock

  /** The lifecycle directory names: "active", "completed", "archived". */
  function LifecycleName(l: BlockLifecycle): (r: string)
  {
    match l
    case Active => "active"
    case Completed => "completed"
    case ArchivedBlock => "archived"
  }

  /** `block_lifecycle_from_atom`. */
  function BlockLifecycleOf(atom: AtomRecord): (r: BlockLifecycle)
    ensures r == ArchivedBlock <==>
              atom.archivedAt.Some? || (atom.facetData.task.Some? && atom.facetData.task.value.status == Archived)
    ensures r == Completed <==>
              atom.archivedAt.None? && atom.facetData.task.Some? && atom.facetData.task.value.status == Done
  {
    if atom.archivedAt.Some? || (atom.facetData.task.Some? && atom.facetData.task.value.status == Archived) then
      ArchivedBlock
    else if atom.facetData.task.Some? && atom.facetData.task.value.status == Done then
      Completed
    else
      Active
  }

  /** The lifecycle a status alone gives. */
  function LifecycleOfStatus(status: TaskStatus): (r: BlockLifecycle)
  {
    match status
    case Archived => ArchivedBlock
    case Done => Completed
    case _ => Active
  }

  /**
   * The block lifecycle is the lifecycle of the atom's status, except that an archive stamp
   * overrides a task status (a Done task with an archive stamp is archived, not completed).
   */
  lemma LifecycleFollowsStatus(atom: AtomRecord)
    ensures BlockLifecycleOf(atom)
            == if atom.archivedAt.Some? then ArchivedBlock else LifecycleOfStatus(AtomStatus(atom))
  {
  }

  /** The three lifecycle names are distinct, so the name determines the lifecycle. */
  lemma LifecycleNameInjective(a: BlockLifecycle, b: BlockLifecycle)
    ensures LifecycleName(a) == LifecycleName(b) ==> a == b
  {
    if a != b {
      assert LifecycleName(a)[1] != LifecycleName(b)[1];
    }
  }

  // ---------------------------------------------------------------- attention dwell

  /** `chrono::Duration::num_minutes`: whole minutes, truncated towards zero. */
  function WholeMinutes(seconds: int): (r: int)
  {
    if seconds >= 0 then seconds / 60 else -((-seconds) / 60)
  }

  /** A dwell of at least 90 whole minutes is one of at least 5400 seconds, and conversely. */
  lemma WholeMinutesThreshold(seconds: int)
    ensures WholeMinutes(seconds) >= 90 <==> seconds >= 90 * 60
  {
    if seconds < 0 {
      assert (-seconds) / 60 >= 0;
    }
  }

  const DwellMinutes: int := 90

  /** A task is urgent when its hard due time has passed, or it is being worked on, or its priority is 0 or 1. */
  predicate IsUrgent(task: Option<TaskFacet>, now: int)
  {
    task.Some? && ((task.value.hardDueAt.Some? && task.value.hardDueAt.value <= now)
                   || task.value.status == Doing || task.value.priority <= 1)
  }

  /**
   * `should_preserve_dwell`: a move of that task to another attention layer is held back while
   * the current dwell is under 90 minutes old, unless that task is urgent.
   */
  function ShouldPreserveDwell(atom: AtomRecord, nextLayer: AttentionLayer, now: int): (r: bool)
    ensures r ==> atom.facetData.task.Some? && atom.facetData.task.value.attentionLayer.Some?
                  && atom.facetData.task.value.attentionLayer.value != nextLayer
                  && !IsUrgent(atom.facetData.task, now)
    ensures r ==> atom.facetData.attention.Some? && atom.facetData.attention.value.dwellStartedAt.Some?
                  && now - atom.facetData.attention.value.dwellStartedAt.value < 90 * 60
  {
    var task := atom.facetData.task;
    if task.None? || task.value.attentionLayer.None? then false
    else if task.value.attentionLayer.value == nextLayer then false
    else if atom.facetData.attention.None? || atom.facetData.attention.value.dwellStartedAt.None? then false
    else
      var dwell := now - atom.facetData.attention.value.dwellStartedAt.value;
      WholeMinutesThreshold(dwell);
      if WholeMinutes(dwell) >= DwellMinutes then false
    else !IsUrgent(task, now)
  }

  /** The dwell rule in seconds: preserve exactly when all of its conditions hold. */
  lemma ShouldPreserveDwellIff(atom: AtomRecord, nextLayer: AttentionLayer, now: int)
    ensures ShouldPreserveDwell(atom, nextLayer, now) <==>
              atom.facetData.task.Some? && atom.facetData.task.value.attentionLayer.Some?
              && atom.facetData.task.value.attentionLayer.value != nextLayer
              && atom.facetData.attention.Some? && atom.facetData.attention.value.dwellStartedAt.Some?
              && now - atom.facetData.attention.value.dwellStartedAt.value < 5400
              && !IsUrgent(atom.facetData.task, now)
  {
    if atom.facetData.attention.Some? && atom.facetData.attention.value.dwellStartedAt.Some? {
      WholeMinutesThreshold(now - atom.facetData.attention.value.dwellStartedAt.value);
    }
  }

  /** Staying in the same layer never needs the dwell rule. */
  lemma SameLayerNeverPreserves(atom: AtomRecord, now: int)
    requires atom.facetData.task.Some? && atom.facetData.task.value.attentionLayer.Some?
    ensures !ShouldPreserveDwell(atom, atom.facetData.task.value.attentionLayer.value, now)
  {
  }
}
