/**
 * Applying a Markdown import candidate to the atom it maps to (workspace.rs). The source
 * updates the atom in place through `&mut AtomRecord`; here each step returns the updated record.
 */
module TaskImport {
  import opened Wrappers
  import opened AtomModels
  import opened AtomText
  import opened ObsidianTasks

  const ImportedOrigin: string := "imported"

  /** The default priority of a task facet created for an atom that has none. */
  const DefaultTaskPriority: int := 3

  /** What an atom looks like once `candidate` has been applied to it. */
  predicate CandidateApplied(atom: AtomRecord, candidate: ImportedTask)
  {
    atom.rawText == candidate.rawText
    && atom.captureSource == Import
    && TaskFacetKind in atom.facets
    && atom.governance.origin == ImportedOrigin
    && atom.governance.sourceRef == Some(candidate.sourceRef)
    && atom.facetData.task.Some?
    && atom.facetData.task.value.title == candidate.title
    && atom.facetData.task.value.status == candidate.status
    && (atom.facetData.task.value.completedAt.Some? <==> candidate.status == Done)
    && (atom.archivedAt.Some? <==> candidate.status == Archived)
  }

  /** An atom's Task facet, or the one `upsert_task_facet` would create for it. */
  function BaseTask(atom: AtomRecord): (r: TaskFacet)
    ensures atom.facetData.task.Some? ==> r == atom.facetData.task.value
    ensures atom.facetData.task.None? ==>
              r.title == DeriveTitle(atom.rawText) && r.status == Todo && r.priority == DefaultTaskPriority
              && r.completedAt.None? && r.softDueAt.None? && r.hardDueAt.None?
  {
    if atom.facetData.task.Some? then atom.facetData.task.value
    else NewTaskFacet(DeriveTitle(atom.rawText), Todo, DefaultTaskPriority)
  }

  /** `upsert_task_facet`: an atom gets the Task facet kind and task data if it lacks them. */
  method UpsertTaskFacet(atom: AtomRecord) returns (next: AtomRecord)
    ensures TaskFacetKind in next.facets && next.facetData.task == Some(BaseTask(atom))
    ensures next.facets == if TaskFacetKind in atom.facets then atom.facets else atom.facets + [TaskFacetKind]
    ensures next == atom.(facets := next.facets, facetData := atom.facetData.(task := next.facetData.task))
  {
    var facets := atom.facets;
    if TaskFacetKind !in facets {
      facets := facets + [TaskFacetKind];
    }
    var task := atom.facetData.task;
    if task.None? {
      task := Some(NewTaskFacet(DeriveTitle(atom.rawText), Todo, DefaultTaskPriority));
    }
    assert task == Some(BaseTask(atom));
    next := atom.(facets := facets, facetData := atom.facetData.(task := task));
  }

  /** Task fields set by `apply_imported_task_candidate`: title, status and completion time. */
  method ApplyTaskFields(task: TaskFacet, candidate: ImportedTask, now: int) returns (next: TaskFacet, changed: bool)
    ensures next.title == candidate.title && next.status == candidate.status
    ensures next.completedAt.Some? <==> candidate.status == Done
    ensures candidate.status == Done ==>
              next.completedAt == if task.completedAt.Some? then task.completedAt else Some(now)
    ensures changed <==> next != task
    ensures next == task.(title := next.title, status := next.status, completedAt := next.completedAt)
  {
    next := task;
    changed := false;
    if next.title != candidate.title {
      next := next.(title := candidate.title);
      changed := true;
    }
    if next.status != candidate.status {
      next := next.(status := candidate.status);
      changed := true;
    }
    if candidate.status == Done {
      if next.completedAt.None? {
        next := next.(completedAt := Some(now));
        changed := true;
      }
    } else if next.completedAt.Some? {
      next := next.(completedAt := None);
      changed := true;
    }
  }

  /** The archive stamp of `apply_imported_task_candidate`: set for Archived, cleared otherwise. */
  method ApplyArchiveStamp(archivedAt: Option<int>, status: TaskStatus, now: int) returns (next: Option<int>, changed: bool)
    ensures next.Some? <==> status == Archived
    ensures status == Archived ==> next == if archivedAt.Some? then archivedAt else Some(now)
    ensures changed <==> next != archivedAt
  {
    next := archivedAt;
    changed := false;
    if status == Archived {
      if next.None? {
        next := Some(now);
        changed := true;
      }
    } else if next.Some? {
      next := None;
      changed := true;
    }
  }

  /** The record fields of `apply_imported_task_candidate`: text, capture source, facet kind, governance. */
  method ApplyRecordFields(atom: AtomRecord, candidate: ImportedTask) returns (next: AtomRecord, changed: bool)
    ensures next.rawText == candidate.rawText && next.captureSource == Import && TaskFacetKind in next.facets
    ensures next.governance == Governance(ImportedOrigin, Some(candidate.sourceRef))
    ensures next.facets == if TaskFacetKind in atom.facets then atom.facets else atom.facets + [TaskFacetKind]
    ensures changed <==> next != atom
    ensures next == atom.(rawText := next.rawText, captureSource := next.captureSource, facets := next.facets,
                          governance := next.governance)
  {
    next := atom;
    changed := false;
    if next.rawText != candidate.rawText {
      next := next.(rawText := candidate.rawText);
      changed := true;
    }
    if next.captureSource != Import {
      next := next.(captureSource := Import);
      changed := true;
    }
    if TaskFacetKind !in next.facets {
      next := next.(facets := next.facets + [TaskFacetKind]);
      changed := true;
    }
    if next.governance.origin != ImportedOrigin {
      next := next.(governance := next.governance.(origin := ImportedOrigin));
      changed := true;
    }
    if next.governance.sourceRef != Some(candidate.sourceRef) {
      next := next.(governance := next.governance.(sourceRef := Some(candidate.sourceRef)));
      changed := true;
    }
  }

  /**
   * `apply_imported_task_candidate`: brings the atom in line with the candidate field by field
   * and reports whether any compared field differed. Creating missing task data (through
   * `upsert_task_facet`) is not reported as a change by the source.
   */
  method ApplyImportedTaskCandidate(atom: AtomRecord, candidate: ImportedTask, now: int)
      returns (next: AtomRecord, changed: bool)
    ensures CandidateApplied(next, candidate)
    ensures changed ==> next != atom
    ensures !changed ==> next == atom.(facetData := atom.facetData.(task := next.facetData.task))
    ensures !changed && atom.facetData.task.Some? ==> next == atom
    ensures CandidateApplied(atom, candidate) ==> !changed && next == atom
    // the completion and archive times keep an existing stamp and otherwise take `now`
    ensures candidate.status == Done ==>
              next.facetData.task.value.completedAt
              == if BaseTask(atom).completedAt.Some? then BaseTask(atom).completedAt else Some(now)
    ensures candidate.status == Archived ==>
              next.archivedAt == if atom.archivedAt.Some? then atom.archivedAt else Some(now)
    // nothing else changes
    ensures next.facets == if TaskFacetKind in atom.facets then atom.facets else atom.facets + [TaskFacetKind]
    ensures next == atom.(rawText := next.rawText, captureSource := next.captureSource, facets := next.facets,
                          facetData := atom.facetData.(task := next.facetData.task),
                          governance := next.governance, archivedAt := next.archivedAt)
    ensures next.facetData.task.value == BaseTask(atom).(title := next.facetData.task.value.title,
                                                         status := next.facetData.task.value.status,
                                                         completedAt := next.facetData.task.value.completedAt)
  {
    var recordChanged, taskChanged, archiveChanged;
    next, recordChanged := ApplyRecordFields(atom, candidate);
    next := UpsertTaskFacet(next);
    var task;
    task, taskChanged := ApplyTaskFields(next.facetData.task.value, candidate, now);
    next := next.(facetData := next.facetData.(task := Some(task)));
    var archivedAt;
    archivedAt, archiveChanged := ApplyArchiveStamp(next.archivedAt, candidate.status, now);
    next := next.(archivedAt := archivedAt);
    changed := recordChanged || taskChanged || archiveChanged;
  }

  /** Importing the same candidate again reports no change and leaves the atom as it is. */
  method ReimportIsUnchanged(atom: AtomRecord, candidate: ImportedTask, now: int, later: int)
      returns (once: AtomRecord, twice: AtomRecord, secondChanged: bool)
    ensures CandidateApplied(once, candidate)
    ensures !secondChanged && twice == once
  {
    var firstChanged;
    once, firstChanged := ApplyImportedTaskCandidate(atom, candidate, now);
    twice, secondChanged := ApplyImportedTaskCandidate(once, candidate, later);
  }
}
