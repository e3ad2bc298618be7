/**
 * The metric refresh path of the runner (runner.rs): `refresh_metric` starts an agent run for
 * one metric and tracks it with a snapshot row; `process_metric_run_if_applicable` settles
 * that snapshot when the run ends; `refresh_screen_metrics` / `refresh_proactive_metrics`
 * refresh every stale metric. Starting the run (`start_run`) is a parameter: a function from
 * the payload to the new run's id or the error it failed with.
 */
module MetricRefresh {
  import opened Wrappers
  import opened Errors
  import Json
  import Models
  import opened MetricSnapshots
  import Staleness
  import Runner

  datatype MetricRefreshResponse = MetricRefreshResponse(metricId: string, snapshotId: string, runId: Option<string>)

  const SYSTEM_PROMPT := "You are a metrics data agent. Follow the instructions to retrieve data using available MCP tools. Fill the HTML template with actual values. Return JSON: { \"values\": { ... }, \"html\": \"...\" }"
  const DEFAULT_TEMPLATE := "Create clean self-contained HTML to display the metric data."
  const NOT_FOUND_PREFIX := "Metric definition not found: "
  const DISABLED_MESSAGE := "Metric is disabled or archived"
  const IN_PROGRESS_MESSAGE := "Refresh already in progress for this metric"
  const RUN_FAILED_MESSAGE := "Run failed"
  const PARSE_ERROR_PREFIX := "Output parse error: "
  const REFRESH_PRIORITY := -10
  const REFRESH_TIMEOUT_SECONDS: nat := 120
  const REFRESH_MAX_RETRIES: nat := 1

  /** `get_metric_definition`: the definition with that id, if any. */
  function FindDefinition(defs: seq<MetricDefinition>, id: string): (r: Option<MetricDefinition>)
    ensures r.Some? ==> r.value in defs && r.value.id == id
    ensures r.None? <==> forall i :: 0 <= i < |defs| ==> defs[i].id != id
  {
    if defs == [] then None
    else if defs[0].id == id then Some(defs[0])
    else
      var rest := FindDefinition(defs[1..], id);
      assert forall i :: 1 <= i < |defs| ==> defs[i] == defs[1..][i - 1];
      rest
  }

  /** The index of the first grant at or after `from` that has not been revoked. */
  function FirstActiveGrantFrom(grants: seq<Models.WorkspaceGrant>, from: nat): (r: Option<nat>)
    requires from <= |grants|
    ensures r.Some? ==> from <= r.value < |grants| && grants[r.value].revokedAt.None?
    ensures r.Some? ==> forall j :: from <= j < r.value ==> grants[j].revokedAt.Some?
    ensures r.None? <==> forall j :: from <= j < |grants| ==> grants[j].revokedAt.Some?
    decreases |grants| - from
  {
    if from == |grants| then None
    else if grants[from].revokedAt.None? then Some(from)
    else FirstActiveGrantFrom(grants, from + 1)
  }

  /** `grants.iter().find(|g| g.revoked_at.is_none())`. */
  function FirstActiveGrant(grants: seq<Models.WorkspaceGrant>): (r: Option<Models.WorkspaceGrant>)
    ensures r.Some? ==> exists k :: 0 <= k < |grants| && grants[k] == r.value && r.value.revokedAt.None?
                                    && forall j :: 0 <= j < k ==> grants[j].revokedAt.Some?
    ensures r.None? <==> forall i :: 0 <= i < |grants| ==> grants[i].revokedAt.Some?
  {
    match FirstActiveGrantFrom(grants, 0)
    case None => None
    case Some(k) => Some(grants[k])
  }

  /**
   * Where the refresh run works: the metric's own directory, else the first grant still in
   * force, else the current directory.
   */
  function ActiveCwd(def: MetricDefinition, grants: seq<Models.WorkspaceGrant>): (r: string)
    ensures def.cwd.Some? ==> r == def.cwd.value
    ensures def.cwd.None? && FirstActiveGrant(grants).Some? ==> r == FirstActiveGrant(grants).value.path
    ensures def.cwd.None? && (forall i :: 0 <= i < |grants| ==> grants[i].revokedAt.Some?) ==> r == "."
  {
    match def.cwd
    case Some(cwd) => cwd
    case None =>
      match FirstActiveGrant(grants)
      case Some(g) => g.path
      case None => "."
  }

  /** The user prompt: name, instructions and template (a default note when the template is empty). */
  function UserPrompt(def: MetricDefinition): string
  {
    var template := if def.templateHtml == [] then DEFAULT_TEMPLATE else def.templateHtml;
    "# Metric: " + def.name + "\n\n## Instructions\n" + def.instructions + "\n\n## HTML Template\n" + template
    + "\n\nReturn your response as JSON with `values` and `html` keys."
  }

  /**
   * The harness options of a refresh run: the system prompt, the MCP and web tools and the
   * refresh permissions, everything else left at `HarnessRequestOptions::default()`.
   */
  const REFRESH_HARNESS := Models.HarnessRequestOptions(
    None, None, None, None, Some(SYSTEM_PROMPT), None, Some([Models.Mcp, Models.WebFetch, Models.WebSearch]),
    Some(REFRESH_PERMISSIONS), None, None, None, None, None, None, None)

  /** The permissions a refresh run gets: read-only sandbox, network on, auto-approved, never asking. */
  const REFRESH_PERMISSIONS := Models.UnifiedPermission(Models.ReadOnly, true, true, Some(Models.Never))

  /** The run `refresh_metric` asks for. */
  function RefreshPayload(def: MetricDefinition, grants: seq<Models.WorkspaceGrant>): (p: Models.StartRunPayload)
    ensures p.provider == def.provider && p.model == def.model && p.profileId == def.profileId
    ensures p.mode == Models.NonInteractive && p.outputFormat == Some("json")
    ensures p.queuePriority == Some(REFRESH_PRIORITY) && p.timeoutSeconds == Some(REFRESH_TIMEOUT_SECONDS)
    ensures p.maxRetries == Some(REFRESH_MAX_RETRIES) && p.retryBackoffMs.None? && p.scheduledAt.None?
    ensures p.harness.Some? && p.harness.value.permissions == Some(REFRESH_PERMISSIONS)
    ensures p.harness.value.tools == Some([Models.Mcp, Models.WebFetch, Models.WebSearch])
    ensures p.cwd == ActiveCwd(def, grants)
  {
    Models.StartRunPayload(
      def.provider, UserPrompt(def), def.model, Models.NonInteractive, Some("json"), ActiveCwd(def, grants),
      map[], def.profileId, Some(REFRESH_PRIORITY), Some(REFRESH_TIMEOUT_SECONDS), None,
      Some(REFRESH_MAX_RETRIES), None,
      Some(REFRESH_HARNESS))
  }

  /**
   * What starting the refresh run of metric `id` gives: `start_run` on the payload of the
   * metric's definition (a refused metric never gets this far).
   */
  function StartOf(defs: seq<MetricDefinition>, grants: seq<Models.WorkspaceGrant>,
                   startRun: Models.StartRunPayload -> AppResult<string>, id: string): AppResult<string>
  {
    if FindDefinition(defs, id).Some? then startRun(RefreshPayload(FindDefinition(defs, id).value, grants))
    else Err(NotFound(NOT_FOUND_PREFIX + id))
  }

  /** `StartOf` for every metric id. */
  function Starter(defs: seq<MetricDefinition>, grants: seq<Models.WorkspaceGrant>,
                   startRun: Models.StartRunPayload -> AppResult<string>): string -> AppResult<string>
  {
    id => StartOf(defs, grants, startRun, id)
  }

  /** Whether `refresh_metric` goes past its checks: the metric is known and refreshable. */
  predicate Admitted(defs: seq<MetricDefinition>, rows: seq<MetricSnapshot>, id: string)
  {
    FindDefinition(defs, id).Some? && Staleness.Refreshable(FindDefinition(defs, id).value, rows)
  }

  /** For a metric with a definition, the starter runs `start_run` on the refresh payload. */
  lemma StarterStarts(defs: seq<MetricDefinition>, grants: seq<Models.WorkspaceGrant>,
                      startRun: Models.StartRunPayload -> AppResult<string>, id: string)
    requires FindDefinition(defs, id).Some?
    ensures Starter(defs, grants, startRun)(id) == startRun(RefreshPayload(FindDefinition(defs, id).value, grants))
  {
    assert Starter(defs, grants, startRun)(id) == StartOf(defs, grants, startRun, id);
  }

  /** Why `refresh_metric` refuses before touching the table, if it does. */
  function RefreshRefusal(defs: seq<MetricDefinition>, rows: seq<MetricSnapshot>, metricId: string): (r: Option<AppError>)
    ensures r.None? <==> Admitted(defs, rows, metricId)
  {
    match FindDefinition(defs, metricId)
    case None => Some(NotFound(NOT_FOUND_PREFIX + metricId))
    case Some(def) =>
      if !def.enabled || def.archivedAt.Some? then Some(Policy(DISABLED_MESSAGE))
      else if HasPendingSnapshot(rows, metricId) then Some(Policy(IN_PROGRESS_MESSAGE))
      else None
  }

  /** The row `insert_metric_snapshot` adds for a refresh. */
  function PendingSnapshot(metricId: string, snapshotId: string, now: nat): MetricSnapshot
  {
    MetricSnapshot(snapshotId, metricId, None, Json.EmptyObject, "", Pending, None, now, None)
  }

  /**
   * The snapshot row once the start of its run is known: running with the run's id, or
   * failed with the start error's text; either way its refresh is accounted for.
   */
  function Tracked(pending: MetricSnapshot, started: AppResult<string>, now: nat): (r: MetricSnapshot)
    ensures r.id == pending.id && r.metricId == pending.metricId && r.createdAt == pending.createdAt
    ensures started.Ok? ==> r.status == Running && r.runId == Some(started.value)
    ensures started.Err? ==> r.status == Failed && r.errorMessage == Some(started.error.ToString())
                             && r.completedAt == Some(now) && r.runId == pending.runId
  {
    match started
    case Ok(runId) => pending.(runId := Some(runId), status := Running)
    case Err(e) => pending.(status := Failed, errorMessage := Some(e.ToString()), completedAt := Some(now))
  }

  /**
   * The second half of `refresh_metric`: the row just inserted (the last one, pending)
   * records the outcome of starting its run.
   */
  method TrackRun(store: SnapshotTable, snap: MetricSnapshot, started: AppResult<string>, now: nat)
    returns (r: AppResult<MetricRefreshResponse>)
    requires store.Valid() && |store.rows| > 0 && store.rows[|store.rows| - 1] == snap && snap.status == Pending
    modifies store
    ensures store.Valid()
    ensures store.rows == old(store.rows)[..|old(store.rows)| - 1] + [Tracked(snap, started, now)]
    ensures AtMostOneInFlight(old(store.rows)) ==> AtMostOneInFlight(store.rows)
    ensures started.Ok? ==> r == Ok(MetricRefreshResponse(snap.metricId, snap.id, Some(started.value)))
    ensures started.Err? ==> r == Err(started.error)
  {
    ghost var before := store.rows;
    ghost var k := |before| - 1;
    assert forall i :: 0 <= i < k ==> before[i].id != snap.id;
    match started {
      case Ok(runId) =>
        store.UpdateMetricSnapshotRunId(snap.id, runId);
        if AtMostOneInFlight(before) {
          RunIdKeepsOneInFlight(before, store.rows, snap.id, runId, k);
        }
        assert store.rows[k] == Tracked(snap, started, now);
        LastRowReplaced(before, store.rows, Tracked(snap, started, now));
        r := Ok(MetricRefreshResponse(snap.metricId, snap.id, Some(runId)));
      case Err(e) =>
        store.FailMetricSnapshot(snap.id, e.ToString(), now);
        if AtMostOneInFlight(before) {
          SettleKeepsOneInFlight(before, store.rows, snap.id, Failed);
        }
        assert store.rows[k] == Tracked(snap, started, now);
        LastRowReplaced(before, store.rows, Tracked(snap, started, now));
        r := Err(e);
    }
  }

  /** A table whose rows but the last are unchanged is the old table with its last row replaced. */
  lemma LastRowReplaced(before: seq<MetricSnapshot>, after: seq<MetricSnapshot>, row: MetricSnapshot)
    requires |after| == |before| > 0
    requires forall i :: 0 <= i < |before| - 1 ==> after[i] == before[i]
    requires after[|before| - 1] == row
    ensures after == before[..|before| - 1] + [row]
  {
  }

  /**
   * `refresh_metric`. Refuses (and changes nothing) for an unknown, disabled, archived or
   * already refreshing metric. Otherwise it adds one snapshot row: running with the new run's
   * id when the run starts, failed with the start error's text when it does not.
   * The pending check and the insert are one step here.
   */
  method RefreshMetric(store: SnapshotTable, defs: seq<MetricDefinition>, grants: seq<Models.WorkspaceGrant>,
                       startRun: Models.StartRunPayload -> AppResult<string>,
                       metricId: string, snapshotId: string, now: nat)
    returns (r: AppResult<MetricRefreshResponse>)
    requires store.Valid() && !HasId(store.rows, snapshotId)
    modifies store
    ensures store.Valid()
    ensures AtMostOneInFlight(old(store.rows)) ==> AtMostOneInFlight(store.rows)
    ensures !Admitted(defs, old(store.rows), metricId) ==>
              r == Err(RefreshRefusal(defs, old(store.rows), metricId).value) && store.rows == old(store.rows)
    ensures Admitted(defs, old(store.rows), metricId) ==>
              var started := Starter(defs, grants, startRun)(metricId);
              store.rows == old(store.rows) + [Tracked(PendingSnapshot(metricId, snapshotId, now), started, now)]
              && (started.Ok? ==> r == Ok(MetricRefreshResponse(metricId, snapshotId, Some(started.value))))
              && (started.Err? ==> r == Err(started.error))
  {
    var refusal := RefreshRefusal(defs, store.rows, metricId);
    if refusal.Some? {
      return Err(refusal.value);
    }
    var def := FindDefinition(defs, metricId).value;
    ghost var before := store.rows;
    var snap := store.InsertMetricSnapshot(metricId, snapshotId, now);
    if AtMostOneInFlight(before) {
      InsertKeepsOneInFlight(before, snap);
    }
    var started := startRun(RefreshPayload(def, grants));
    StarterStarts(defs, grants, startRun, metricId);
    assert store.rows[..|store.rows| - 1] == before;
    r := TrackRun(store, snap, started, now);
  }

  /** How `process_metric_run_if_applicable` settles a metric snapshot when its run ends. */
  datatype Settlement = Complete(output: Runner.MetricOutput) | Fail(message: string)

  /** The settlement for a finished run: a failed run, or the parse of its output. */
  function SettlementOf(parse: string -> Option<Json.Value>, success: bool, outputText: string): (r: Settlement)
    ensures !success ==> r == Fail(RUN_FAILED_MESSAGE)
    ensures success && Runner.MetricOutputOf(parse, outputText).Ok? ==> r == Complete(Runner.MetricOutputOf(parse, outputText).value)
    ensures success && Runner.MetricOutputOf(parse, outputText).Err? ==>
              r == Fail(PARSE_ERROR_PREFIX + Runner.MetricOutputOf(parse, outputText).error)
  {
    if !success then Fail(RUN_FAILED_MESSAGE)
    else
      match Runner.MetricOutputOf(parse, outputText)
      case Ok(out) => Complete(out)
      case Err(e) => Fail(PARSE_ERROR_PREFIX + e)
  }

  /** A snapshot row after its settlement: completed with the output, or failed with the reason. */
  function Settled(row: MetricSnapshot, settlement: Settlement, now: nat): (r: MetricSnapshot)
    ensures !r.status.InFlight() && r.completedAt == Some(now)
    ensures r.id == row.id && r.metricId == row.metricId && r.runId == row.runId
    ensures settlement.Complete? ==> r.status == Completed && r.values == settlement.output.values
                                     && r.renderedHtml == settlement.output.html
    ensures settlement.Fail? ==> r.status == Failed && r.errorMessage == Some(settlement.message)
  {
    match settlement
    case Complete(out) => row.(status := Completed, values := out.values, renderedHtml := out.html, completedAt := Some(now))
    case Fail(message) => row.(status := Failed, errorMessage := Some(message), completedAt := Some(now))
  }

  /** Applies a settlement to the row `id` through `complete_metric_snapshot` or `fail_metric_snapshot`. */
  method Settle(store: SnapshotTable, id: string, settlement: Settlement, now: nat)
    requires store.Valid()
    modifies store
    ensures store.Valid()
    ensures |store.rows| == |old(store.rows)|
    ensures forall i :: 0 <= i < |store.rows| ==>
              store.rows[i] == if old(store.rows)[i].id == id then Settled(old(store.rows)[i], settlement, now) else old(store.rows)[i]
  {
    match settlement {
      case Complete(out) => store.CompleteMetricSnapshot(id, out.values, out.html, now);
      case Fail(message) => store.FailMetricSnapshot(id, message, now);
    }
  }

  /**
   * `process_metric_run_if_applicable`: when the finished run belongs to a metric snapshot,
   * that snapshot is settled (completed with the parsed values and html, or failed with a
   * reason). Runs that belong to no snapshot change nothing. Once the metric's only in-flight
   * refresh has settled, the metric can be refreshed again.
   */
  method ProcessMetricRunIfApplicable(store: SnapshotTable, parse: string -> Option<Json.Value>,
                                      runId: string, success: bool, outputText: string, now: nat)
    requires store.Valid()
    modifies store
    ensures store.Valid()
    ensures AtMostOneInFlight(old(store.rows)) ==> AtMostOneInFlight(store.rows)
    ensures FindByRunId(old(store.rows), runId).None? ==> store.rows == old(store.rows)
    ensures FindByRunId(old(store.rows), runId).Some? ==>
              var snap := FindByRunId(old(store.rows), runId).value;
              |store.rows| == |old(store.rows)|
              && forall i :: 0 <= i < |store.rows| ==>
                   store.rows[i] == if old(store.rows)[i].id == snap.id
                                    then Settled(old(store.rows)[i], SettlementOf(parse, success, outputText), now)
                                    else old(store.rows)[i]
    ensures FindByRunId(old(store.rows), runId).Some? && FindByRunId(old(store.rows), runId).value.status.InFlight()
            && AtMostOneInFlight(old(store.rows)) ==>
              !HasPendingSnapshot(store.rows, FindByRunId(old(store.rows), runId).value.metricId)
  {
    var found := FindByRunId(store.rows, runId);
    if found.None? {
      return;
    }
    var snap := found.value;
    var settlement: Settlement;
    if !success {
      settlement := Fail(RUN_FAILED_MESSAGE);
    } else {
      var parsed := Runner.ParseMetricOutput(parse, outputText);
      match parsed {
        case Ok(out) => settlement := Complete(out);
        case Err(e) => settlement := Fail(PARSE_ERROR_PREFIX + e);
      }
    }
    assert settlement == SettlementOf(parse, success, outputText);
    ghost var before := store.rows;
    Settle(store, snap.id, settlement, now);
    if AtMostOneInFlight(before) {
      SettleKeepsOneInFlight(before, store.rows, snap.id, Settled(snap, settlement, now).status);
    }
    SettledMetricIsFree(before, store.rows, snap);
  }

  /**
   * When the settled snapshot was its metric's only refresh in flight, no refresh of that
   * metric is in flight afterwards.
   */
  lemma SettledMetricIsFree(before: seq<MetricSnapshot>, after: seq<MetricSnapshot>, snap: MetricSnapshot)
    requires |after| == |before| && snap in before
    requires forall i :: 0 <= i < |after| && before[i].id != snap.id ==> after[i] == before[i]
    requires forall i :: 0 <= i < |after| && before[i].id == snap.id ==> !after[i].status.InFlight()
    ensures snap.status.InFlight() && AtMostOneInFlight(before) ==> !HasPendingSnapshot(after, snap.metricId)
  {
    if snap.status.InFlight() && AtMostOneInFlight(before) {
      var k :| 0 <= k < |before| && before[k] == snap;
      forall i | 0 <= i < |after| ensures !IsInFlightFor(after[i], snap.metricId) {
        if before[i].id != snap.id {
          assert i != k;
        }
      }
    }
  }

  /** Snapshot ids distinct from each other and from every row of the table. */
  predicate FreshIds(ids: seq<string>, rows: seq<MetricSnapshot>)
  {
    (forall i, j :: 0 <= i < j < |ids| ==> ids[i] != ids[j])
    && (forall i :: 0 <= i < |ids| ==> !HasId(rows, ids[i]))
  }

  /** Adding at most one row with id `newId` keeps every other id absent. */
  lemma GrowByOneKeepsAbsent(before: seq<MetricSnapshot>, after: seq<MetricSnapshot>, newId: string, x: string)
    requires after == before || (|after| == |before| + 1 && after[..|before|] == before && after[|before|].id == newId)
    requires !HasId(before, x) && x != newId
    ensures !HasId(after, x)
  {
    if after != before {
      forall m | 0 <= m < |after| ensures after[m].id != x {
        if m < |before| {
          assert after[m] == before[m];
        }
      }
    }
  }

  /** The snapshot table and the started refreshes after a batch of `refresh_metric` calls. */
  datatype Batch = Batch(rows: seq<MetricSnapshot>, results: seq<MetricRefreshResponse>)

  /**
   * `refresh_metric` applied to each target from index `from` on, the i-th with snapshot id
   * `ids[i]` and `start` giving the outcome of starting a metric's run: a refused target
   * leaves the table alone; any other adds its tracked row and, when its run started,
   * contributes its response. Each refusal is judged on the table as the earlier targets
   * left it.
   */
  function RefreshAll(defs: seq<MetricDefinition>, start: string -> AppResult<string>,
                      rows: seq<MetricSnapshot>, targets: seq<MetricDefinition>, ids: seq<string>, from: nat, now: nat): Batch
    requires |ids| == |targets| && from <= |targets|
    decreases |targets| - from
  {
    if from == |targets| then Batch(rows, [])
    else
      var id := targets[from].id;
      if !Admitted(defs, rows, id) then RefreshAll(defs, start, rows, targets, ids, from + 1, now)
      else
        var started := start(id);
        var rest := RefreshAll(defs, start, rows + [Tracked(PendingSnapshot(id, ids[from], now), started, now)],
                               targets, ids, from + 1, now);
        Batch(rest.rows, (if started.Ok? then [MetricRefreshResponse(id, ids[from], Some(started.value))] else []) + rest.results)
  }

  /** The response a tracked row stands for. */
  function ResponseOf(row: MetricSnapshot): MetricRefreshResponse
  {
    MetricRefreshResponse(row.metricId, row.id, row.runId)
  }

  /** The responses of the running rows, in table order. */
  function RunningResponses(rows: seq<MetricSnapshot>): seq<MetricRefreshResponse>
    decreases |rows|
  {
    if rows == [] then []
    else (if rows[0].status == Running then [ResponseOf(rows[0])] else []) + RunningResponses(rows[1..])
  }

  /** A batch only appends rows, at most one per target, and leaves none of them pending. */
  lemma {:induction false} RefreshAllAppends(defs: seq<MetricDefinition>, start: string -> AppResult<string>,
                                             rows: seq<MetricSnapshot>, targets: seq<MetricDefinition>,
                                             ids: seq<string>, from: nat, now: nat)
    requires |ids| == |targets| && from <= |targets|
    ensures var b := RefreshAll(defs, start, rows, targets, ids, from, now);
            && |rows| <= |b.rows| <= |rows| + |targets| - from && b.rows[..|rows|] == rows
            && forall m :: |rows| <= m < |b.rows| ==> b.rows[m].status in {Running, Failed}
    decreases |targets| - from
  {
    if from < |targets| {
      var id := targets[from].id;
      if !Admitted(defs, rows, id) {
        RefreshAllAppends(defs, start, rows, targets, ids, from + 1, now);
      } else {
        var row := Tracked(PendingSnapshot(id, ids[from], now), start(id), now);
        RefreshAllAppends(defs, start, rows + [row], targets, ids, from + 1, now);
        PrefixOfLonger(RefreshAll(defs, start, rows + [row], targets, ids, from + 1, now).rows, rows, row);
      }
    }
  }

  /** A table that begins with `rows + [row]` begins with `rows`, and has `row` next. */
  lemma PrefixOfLonger(all: seq<MetricSnapshot>, rows: seq<MetricSnapshot>, row: MetricSnapshot)
    requires |rows| + 1 <= |all| && all[..|rows| + 1] == rows + [row]
    ensures all[..|rows|] == rows && all[|rows|] == row
  {
    assert all[..|rows|] == all[..|rows| + 1][..|rows|];
    assert all[|rows|] == all[..|rows| + 1][|rows|];
  }

  /** The responses a batch returns are exactly its new running rows, in the order of the targets. */
  lemma {:induction false} RefreshAllResponses(defs: seq<MetricDefinition>, start: string -> AppResult<string>,
                                               rows: seq<MetricSnapshot>, targets: seq<MetricDefinition>,
                                               ids: seq<string>, from: nat, now: nat)
    requires |ids| == |targets| && from <= |targets|
    ensures var b := RefreshAll(defs, start, rows, targets, ids, from, now);
            |rows| <= |b.rows| && b.results == RunningResponses(b.rows[|rows|..])
    decreases |targets| - from
  {
    if from < |targets| {
      var id := targets[from].id;
      if !Admitted(defs, rows, id) {
        RefreshAllResponses(defs, start, rows, targets, ids, from + 1, now);
      } else {
        var row := Tracked(PendingSnapshot(id, ids[from], now), start(id), now);
        RefreshAllResponses(defs, start, rows + [row], targets, ids, from + 1, now);
        TrackedThenRest(defs, start, rows, row, targets, ids, from + 1, now);
        TrackedResponse(id, ids[from], start(id), now);
      }
    }
  }

  /** After a tracked row, the rows of the rest of the batch begin with that row. */
  lemma TrackedThenRest(defs: seq<MetricDefinition>, start: string -> AppResult<string>,
                        rows: seq<MetricSnapshot>, row: MetricSnapshot, targets: seq<MetricDefinition>,
                        ids: seq<string>, from: nat, now: nat)
    requires |ids| == |targets| && from <= |targets|
    requires var b := RefreshAll(defs, start, rows + [row], targets, ids, from, now);
             |rows| + 1 <= |b.rows| && b.results == RunningResponses(b.rows[|rows| + 1..])
    ensures var b := RefreshAll(defs, start, rows + [row], targets, ids, from, now);
            |rows| < |b.rows| && b.rows[|rows|] == row
            && RunningResponses(b.rows[|rows|..]) == (if row.status == Running then [ResponseOf(row)] else []) + b.results
  {
    RefreshAllAppends(defs, start, rows + [row], targets, ids, from, now);
    var b := RefreshAll(defs, start, rows + [row], targets, ids, from, now);
    PrefixOfLonger(b.rows, rows, row);
    RunningResponsesCons(b.rows, |rows|, row);
  }

  /** A tracked row is running exactly when its run started, and then stands for the start's response. */
  lemma TrackedResponse(id: string, snapshotId: string, started: AppResult<string>, now: nat)
    ensures var row := Tracked(PendingSnapshot(id, snapshotId, now), started, now);
            (row.status == Running <==> started.Ok?)
            && (started.Ok? ==> ResponseOf(row) == MetricRefreshResponse(id, snapshotId, Some(started.value)))
  {
  }

  lemma RunningResponsesCons(all: seq<MetricSnapshot>, k: nat, row: MetricSnapshot)
    requires k < |all| && all[k] == row
    ensures RunningResponses(all[k..]) == (if row.status == Running then [ResponseOf(row)] else []) + RunningResponses(all[k + 1..])
  {
    assert all[k..][1..] == all[k + 1..];
  }

  /** The batch still to run, behind the responses already collected. */
  function After(results: seq<MetricRefreshResponse>, b: Batch): Batch
  {
    Batch(b.rows, results + b.results)
  }

  /**
   * The loop of `refresh_screen_metrics` / `refresh_proactive_metrics`: refresh each metric in
   * turn, keep the responses of those that started, ignore the errors.
   */
  method RefreshEach(store: SnapshotTable, defs: seq<MetricDefinition>, grants: seq<Models.WorkspaceGrant>,
                     startRun: Models.StartRunPayload -> AppResult<string>,
                     targets: seq<MetricDefinition>, snapshotIds: seq<string>, now: nat)
    returns (results: seq<MetricRefreshResponse>)
    requires store.Valid() && |snapshotIds| == |targets| && FreshIds(snapshotIds, store.rows)
    modifies store
    ensures store.Valid()
    ensures AtMostOneInFlight(old(store.rows)) ==> AtMostOneInFlight(store.rows)
    ensures Batch(store.rows, results) == RefreshAll(defs, Starter(defs, grants, startRun), old(store.rows), targets, snapshotIds, 0, now)
    ensures forall k :: 0 <= k < |results| ==> results[k].runId.Some? && results[k].metricId in TargetIds(targets)
    ensures |old(store.rows)| <= |store.rows| <= |old(store.rows)| + |targets| && store.rows[..|old(store.rows)|] == old(store.rows)
    ensures results == RunningResponses(store.rows[|old(store.rows)|..])
  {
    RefreshAllAppends(defs, Starter(defs, grants, startRun), store.rows, targets, snapshotIds, 0, now);
    RefreshAllResponses(defs, Starter(defs, grants, startRun), store.rows, targets, snapshotIds, 0, now);
    results := [];
    var i := 0;
    while i < |targets|
      invariant 0 <= i <= |targets|
      invariant store.Valid()
      invariant AtMostOneInFlight(old(store.rows)) ==> AtMostOneInFlight(store.rows)
      invariant RefreshAll(defs, Starter(defs, grants, startRun), old(store.rows), targets, snapshotIds, 0, now)
                == After(results, RefreshAll(defs, Starter(defs, grants, startRun), store.rows, targets, snapshotIds, i, now))
      invariant forall k :: 0 <= k < |results| ==> results[k].runId.Some? && results[k].metricId in TargetIds(targets)
      invariant forall j :: i <= j < |snapshotIds| ==> !HasId(store.rows, snapshotIds[j])
    {
      results := RefreshNext(store, defs, grants, startRun, targets, snapshotIds, i, now, results);
      i := i + 1;
    }
  }

  /** One turn of the loop in `RefreshEach`: the refresh of `targets[i]`. */
  method RefreshNext(store: SnapshotTable, defs: seq<MetricDefinition>, grants: seq<Models.WorkspaceGrant>,
                     startRun: Models.StartRunPayload -> AppResult<string>,
                     targets: seq<MetricDefinition>, snapshotIds: seq<string>, i: nat, now: nat,
                     results: seq<MetricRefreshResponse>)
    returns (results': seq<MetricRefreshResponse>)
    requires store.Valid() && |snapshotIds| == |targets| && i < |targets|
    requires forall a, b :: 0 <= a < b < |snapshotIds| ==> snapshotIds[a] != snapshotIds[b]
    requires forall j :: i <= j < |snapshotIds| ==> !HasId(store.rows, snapshotIds[j])
    requires forall k :: 0 <= k < |results| ==> results[k].runId.Some? && results[k].metricId in TargetIds(targets)
    modifies store
    ensures store.Valid()
    ensures AtMostOneInFlight(old(store.rows)) ==> AtMostOneInFlight(store.rows)
    ensures After(results, RefreshAll(defs, Starter(defs, grants, startRun), old(store.rows), targets, snapshotIds, i, now))
            == After(results', RefreshAll(defs, Starter(defs, grants, startRun), store.rows, targets, snapshotIds, i + 1, now))
    ensures forall k :: 0 <= k < |results'| ==> results'[k].runId.Some? && results'[k].metricId in TargetIds(targets)
    ensures forall j :: i < j < |snapshotIds| ==> !HasId(store.rows, snapshotIds[j])
  {
    ghost var before := store.rows;
    var r := RefreshMetric(store, defs, grants, startRun, targets[i].id, snapshotIds[i], now);
    forall j | i < j < |snapshotIds| ensures !HasId(store.rows, snapshotIds[j]) {
      GrowByOneKeepsAbsent(before, store.rows, snapshotIds[i], snapshotIds[j]);
    }
    results' := Collect(results, r, targets, i);
    if Admitted(defs, before, targets[i].id) {
      NextAdmitted(defs, Starter(defs, grants, startRun), before, store.rows, targets, snapshotIds, i, now, results, r);
    } else {
      NextRefused(defs, Starter(defs, grants, startRun), before, targets, snapshotIds, i, now);
    }
  }

  /** A refused `targets[i]` adds nothing to the batch. */
  lemma NextRefused(defs: seq<MetricDefinition>, start: string -> AppResult<string>, rows: seq<MetricSnapshot>,
                    targets: seq<MetricDefinition>, ids: seq<string>, i: nat, now: nat)
    requires |ids| == |targets| && i < |targets| && !Admitted(defs, rows, targets[i].id)
    ensures RefreshAll(defs, start, rows, targets, ids, i, now) == RefreshAll(defs, start, rows, targets, ids, i + 1, now)
  {
  }

  /** An admitted `targets[i]` adds its tracked row and, when its run started, its response. */
  lemma NextAdmitted(defs: seq<MetricDefinition>, start: string -> AppResult<string>,
                     before: seq<MetricSnapshot>, after: seq<MetricSnapshot>, targets: seq<MetricDefinition>,
                     ids: seq<string>, i: nat, now: nat, results: seq<MetricRefreshResponse>, r: AppResult<MetricRefreshResponse>)
    requires |ids| == |targets| && i < |targets| && Admitted(defs, before, targets[i].id)
    requires var started := start(targets[i].id);
             after == before + [Tracked(PendingSnapshot(targets[i].id, ids[i], now), started, now)]
             && (started.Ok? ==> r == Ok(MetricRefreshResponse(targets[i].id, ids[i], Some(started.value))))
             && (started.Err? ==> r.Err?)
    ensures After(results, RefreshAll(defs, start, before, targets, ids, i, now))
            == After(results + (if r.Ok? then [r.value] else []), RefreshAll(defs, start, after, targets, ids, i + 1, now))
  {
    AdmittedStep(defs, start, before, targets, ids, i, now);
    ResultsShift(results, if r.Ok? then [r.value] else [], RefreshAll(defs, start, after, targets, ids, i + 1, now));
  }

  /** One admitted target: its row is tracked and its response, when it started, leads the rest. */
  lemma AdmittedStep(defs: seq<MetricDefinition>, start: string -> AppResult<string>, rows: seq<MetricSnapshot>,
                     targets: seq<MetricDefinition>, ids: seq<string>, i: nat, now: nat)
    requires |ids| == |targets| && i < |targets| && Admitted(defs, rows, targets[i].id)
    ensures var started := start(targets[i].id);
            var rest := RefreshAll(defs, start, rows + [Tracked(PendingSnapshot(targets[i].id, ids[i], now), started, now)],
                                   targets, ids, i + 1, now);
            RefreshAll(defs, start, rows, targets, ids, i, now)
            == Batch(rest.rows, (if started.Ok? then [MetricRefreshResponse(targets[i].id, ids[i], Some(started.value))] else [])
                                + rest.results)
  {
  }

  /** Moving a block of responses from the batch to the results collected so far. */
  lemma ResultsShift(results: seq<MetricRefreshResponse>, kept: seq<MetricRefreshResponse>, rest: Batch)
    ensures After(results, Batch(rest.rows, kept + rest.results)) == After(results + kept, rest)
  {
    assert results + (kept + rest.results) == (results + kept) + rest.results;
  }

  /** Keeps the response of a refresh that started. */
  method Collect(results: seq<MetricRefreshResponse>, r: AppResult<MetricRefreshResponse>, targets: seq<MetricDefinition>, i: nat)
    returns (results': seq<MetricRefreshResponse>)
    requires i < |targets| && (r.Ok? ==> r.value.metricId == targets[i].id && r.value.runId.Some?)
    requires forall k :: 0 <= k < |results| ==> results[k].runId.Some? && results[k].metricId in TargetIds(targets)
    ensures results' == results + (if r.Ok? then [r.value] else [])
    ensures forall k :: 0 <= k < |results'| ==> results'[k].runId.Some? && results'[k].metricId in TargetIds(targets)
  {
    results' := results;
    if r.Ok? {
      results' := results + [r.value];
    }
  }

  function TargetIds(targets: seq<MetricDefinition>): (r: set<string>)
    ensures forall t :: 0 <= t < |targets| ==> targets[t].id in r
    ensures forall id :: id in r ==> exists t :: 0 <= t < |targets| && targets[t].id == id
  {
    set t | 0 <= t < |targets| :: targets[t].id
  }

  /**
   * `refresh_screen_metrics`: refresh every stale metric bound to the screen (staleness
   * judged on instants) and return the refreshes that started.
   */
  method RefreshScreenMetrics(store: SnapshotTable, defs: seq<MetricDefinition>, grants: seq<Models.WorkspaceGrant>,
                              startRun: Models.StartRunPayload -> AppResult<string>,
                              bound: seq<MetricDefinition>, snapshotIds: seq<string>, now: nat)
    returns (results: seq<MetricRefreshResponse>)
    requires store.Valid() && |snapshotIds| == |Staleness.FindStaleMetricsForScreen(bound, store.rows, now)|
    requires FreshIds(snapshotIds, store.rows)
    modifies store
    ensures store.Valid()
    ensures AtMostOneInFlight(old(store.rows)) ==> AtMostOneInFlight(store.rows)
    ensures StartedForStale(results, bound, old(store.rows), now)
    ensures Batch(store.rows, results)
            == RefreshAll(defs, Starter(defs, grants, startRun), old(store.rows), Staleness.FindStaleMetricsForScreen(bound, old(store.rows), now),
                          snapshotIds, 0, now)
    ensures |old(store.rows)| <= |store.rows| && store.rows[..|old(store.rows)|] == old(store.rows)
    ensures results == RunningResponses(store.rows[|old(store.rows)|..])
  {
    ghost var before := store.rows;
    var stale := Staleness.FindStaleMetricsForScreen(bound, store.rows, now);
    results := RefreshEach(store, defs, grants, startRun, stale, snapshotIds, now);
    StartedAreStale(results, bound, before, now);
  }

  /** Every refresh started names a metric that was bound to the screen and stale. */
  predicate StartedForStale(results: seq<MetricRefreshResponse>, bound: seq<MetricDefinition>,
                            rows: seq<MetricSnapshot>, now: nat)
  {
    forall k :: 0 <= k < |results| ==> BoundAndStale(results[k].metricId, bound, rows, now)
  }

  /** Some metric bound to the screen with this id was stale. */
  predicate BoundAndStale(id: string, bound: seq<MetricDefinition>, rows: seq<MetricSnapshot>, now: nat)
  {
    exists j :: 0 <= j < |bound| && bound[j].id == id && Staleness.IsStale(bound[j], rows, now)
  }

  /** Refreshes started for stale metrics name metrics that were bound and stale. */
  lemma StartedAreStale(results: seq<MetricRefreshResponse>, bound: seq<MetricDefinition>,
                        rows: seq<MetricSnapshot>, now: nat)
    requires forall k :: 0 <= k < |results| ==>
               results[k].metricId in TargetIds(Staleness.FindStaleMetricsForScreen(bound, rows, now))
    ensures StartedForStale(results, bound, rows, now)
  {
    var stale := Staleness.FindStaleMetricsForScreen(bound, rows, now);
    forall k | 0 <= k < |results|
      ensures BoundAndStale(results[k].metricId, bound, rows, now)
    {
      var id := results[k].metricId;
      assert id in TargetIds(stale);
      var t :| 0 <= t < |stale| && stale[t].id == id;
      assert stale[t] in stale;
      var j :| 0 <= j < |bound| && bound[j] == stale[t];
      assert bound[j].id == id && Staleness.IsStale(bound[j], rows, now);
    }
  }

  /** `refresh_proactive_metrics`: refresh every stale proactive metric; errors are only logged. */
  method RefreshProactiveMetrics(store: SnapshotTable, defs: seq<MetricDefinition>, grants: seq<Models.WorkspaceGrant>,
                                 startRun: Models.StartRunPayload -> AppResult<string>,
                                 snapshotIds: seq<string>, now: nat)
    requires store.Valid() && |snapshotIds| == |Staleness.FindProactiveStaleMetrics(defs, store.rows, now)|
    requires FreshIds(snapshotIds, store.rows)
    modifies store
    ensures store.Valid()
    ensures AtMostOneInFlight(old(store.rows)) ==> AtMostOneInFlight(store.rows)
    ensures store.rows
            == RefreshAll(defs, Starter(defs, grants, startRun), old(store.rows), Staleness.FindProactiveStaleMetrics(defs, old(store.rows), now),
                          snapshotIds, 0, now).rows
    ensures |old(store.rows)| <= |store.rows| && store.rows[..|old(store.rows)|] == old(store.rows)
  {
    var stale := Staleness.FindProactiveStaleMetrics(defs, store.rows, now);
    var _ := RefreshEach(store, defs, grants, startRun, stale, snapshotIds, now);
  }
}
