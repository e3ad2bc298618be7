/**
 * The atom record of the workspace store and the parts of it that workspace.rs reads and
 * writes. Times (`DateTime<Utc>`) are whole seconds since the Unix epoch. Facets whose content
 * the modelled code never looks into are kept as opaque JSON values.
 */
module AtomModels {
  import opened Wrappers
  import Json

  datatype TaskStatus = Todo | Doing | Blocked | Done | Archived

  datatype AttentionLayer = L3 | Ram | Short | Long | Archive

  datatype CommitmentLevel = Hard | Soft

  datatype FacetKind = TaskFacetKind | NoteFacetKind | MetaFacetKind | AttentionFacetKind
    | CommitmentFacetKind | BlockingFacetKind | RecurrenceFacetKind | EnergyFacetKind | AgentFacetKind

  datatype CaptureSource = Ui | Agent | Import

  datatype TaskFacet = TaskFacet(
    title: string,
    status: TaskStatus,
    priority: int,
    softDueAt: Option<int>,
    hardDueAt: Option<int>,
    completedAt: Option<int>,
    attentionLayer: Option<AttentionLayer>,
    commitmentLevel: Option<CommitmentLevel>)

  /** A task facet with every optional field unset (`..TaskFacet::default()`). */
  function NewTaskFacet(title: string, status: TaskStatus, priority: int): (r: TaskFacet)
    ensures r.title == title && r.status == status && r.priority == priority
    ensures r.softDueAt.None? && r.hardDueAt.None? && r.completedAt.None?
    ensures r.attentionLayer.None? && r.commitmentLevel.None?
  {
    TaskFacet(title, status, priority, None, None, None, None, None)
  }

  datatype MetaFacet = MetaFacet(labels: Option<seq<string>>, categories: Option<seq<string>>)

  datatype AttentionFacet = AttentionFacet(layer: AttentionLayer, dwellStartedAt: Option<int>)

  datatype CommitmentFacet = CommitmentFacet(level: CommitmentLevel)

  datatype AtomFacets = AtomFacets(
    task: Option<TaskFacet>,
    note: Option<Json.Value>,
    meta: Option<MetaFacet>,
    attention: Option<AttentionFacet>,
    commitment: Option<CommitmentFacet>,
    blocking: Option<Json.Value>,
    recurrence: Option<Json.Value>,
    energy: Option<Json.Value>,
    agent: Option<Json.Value>)

  const NoFacets: AtomFacets := AtomFacets(None, None, None, None, None, None, None, None, None)

  datatype AtomRelations = AtomRelations(
    parentId: Option<string>,
    blockedByAtomId: Option<string>,
    threadIds: seq<string>,
    derivedFromAtomId: Option<string>)

  /** A relations patch: every field optional, the thread list included. */
  datatype AtomRelationsPatch = AtomRelationsPatch(
    parentId: Option<string>,
    blockedByAtomId: Option<string>,
    threadIds: Option<seq<string>>,
    derivedFromAtomId: Option<string>)

  datatype Governance = Governance(origin: string, sourceRef: Option<string>)

  datatype AtomRecord = AtomRecord(
    id: string,
    createdAt: int,
    updatedAt: int,
    rawText: string,
    captureSource: CaptureSource,
    facets: seq<FacetKind>,
    facetData: AtomFacets,
    relations: AtomRelations,
    governance: Governance,
    body: Option<string>,
    revision: nat,
    archivedAt: Option<int>)

  /** The attention layer the store reads: a task's own, else the attention facet's. */
  function EffectiveLayer(atom: AtomRecord): (r: Option<AttentionLayer>)
    ensures atom.facetData.task.Some? && atom.facetData.task.value.attentionLayer.Some? ==>
              r == atom.facetData.task.value.attentionLayer
    ensures r.None? ==> atom.facetData.attention.None?
  {
    var fromTask := if atom.facetData.task.Some? then atom.facetData.task.value.attentionLayer else None;
    var fromFacet := if atom.facetData.attention.Some? then Some(atom.facetData.attention.value.layer) else None;
    fromTask.Or(fromFacet)
  }

  /** The commitment level the store reads: a task's own, else the commitment facet's. */
  function EffectiveCommitment(atom: AtomRecord): (r: Option<CommitmentLevel>)
    ensures atom.facetData.task.Some? && atom.facetData.task.value.commitmentLevel.Some? ==>
              r == atom.facetData.task.value.commitmentLevel
    ensures r.None? ==> atom.facetData.commitment.None?
  {
    var fromTask := if atom.facetData.task.Some? then atom.facetData.task.value.commitmentLevel else None;
    var fromFacet := if atom.facetData.commitment.Some? then Some(atom.facetData.commitment.value.level) else None;
    fromTask.Or(fromFacet)
  }
}
