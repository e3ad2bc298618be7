/**
 * The `metric_snapshots` table (db/mod.rs): one row per refresh of a metric, moving from
 * pending (inserted) to running (a run was started for it) to completed or failed.
 * The table is an in-memory sequence of rows in insertion order; each UPDATE ... WHERE
 * becomes a guarded rewrite of the matching rows.
 */
module MetricSnapshots {
  import opened Wrappers
  import Json
  import Models

  datatype SnapshotStatus = Pending | Running | Completed | Failed
  {
    /** `MetricSnapshotStatus::as_str`. */
    function Name(): string
    {
      match this
      case Pending => "pending"
      case Running => "running"
      case Completed => "completed"
      case Failed => "failed"
    }

    /** A refresh is still in flight: the `status IN ('pending', 'running')` filter. */
    predicate InFlight()
    {
      Pending? || Running?
    }
  }

  /** `parse_metric_snapshot_status`: every stored name reads back as itself; anything else reads as failed. */
  function ParseSnapshotStatus(raw: string): (r: SnapshotStatus)
    ensures forall s: SnapshotStatus :: raw == s.Name() ==> r == s
    ensures (forall s: SnapshotStatus :: raw != s.Name()) ==> r == Failed
  {
    if raw == Pending.Name() then Pending
    else if raw == Running.Name() then Running
    else if raw == Completed.Name() then Completed
    else Failed
  }

  /** A row; times are seconds since the epoch. */
  datatype MetricSnapshot = MetricSnapshot(
    id: string,
    metricId: string,
    runId: Option<string>,
    values: Json.Value,
    renderedHtml: string,
    status: SnapshotStatus,
    errorMessage: Option<string>,
    createdAt: nat,
    completedAt: Option<nat>)

  /** A row of `metric_definitions`, with the fields the refresh path reads. */
  datatype MetricDefinition = MetricDefinition(
    id: string,
    name: string,
    instructions: string,
    templateHtml: string,
    ttlSeconds: int,
    provider: Models.Provider,
    model: Option<string>,
    profileId: Option<string>,
    cwd: Option<string>,
    enabled: bool,
    proactive: bool,
    archivedAt: Option<nat>)

  const ORPHAN_MESSAGE := "Run interrupted by app restart"

  predicate UniqueIds(rows: seq<MetricSnapshot>)
  {
    forall i, j :: 0 <= i < j < |rows| ==> rows[i].id != rows[j].id
  }

  predicate HasId(rows: seq<MetricSnapshot>, id: string)
  {
    exists i :: 0 <= i < |rows| && rows[i].id == id
  }

  predicate IsInFlightFor(row: MetricSnapshot, metricId: string)
  {
    row.metricId == metricId && row.status.InFlight()
  }

  /** `SELECT COUNT(1) ... WHERE metric_id = ? AND status IN ('pending', 'running')`. */
  function CountInFlight(rows: seq<MetricSnapshot>, metricId: string): (n: nat)
    ensures n <= |rows|
  {
    if rows == [] then 0
    else CountInFlight(rows[..|rows| - 1], metricId) + (if IsInFlightFor(rows[|rows| - 1], metricId) then 1 else 0)
  }

  /** `has_pending_snapshot`: the count is positive exactly when some row of the metric is in flight. */
  function HasPendingSnapshot(rows: seq<MetricSnapshot>, metricId: string): (r: bool)
    ensures r <==> exists i :: 0 <= i < |rows| && IsInFlightFor(rows[i], metricId)
  {
    CountInFlightPositive(rows, metricId);
    CountInFlight(rows, metricId) > 0
  }

  lemma {:induction false} CountInFlightPositive(rows: seq<MetricSnapshot>, metricId: string)
    ensures CountInFlight(rows, metricId) > 0 <==> exists i :: 0 <= i < |rows| && IsInFlightFor(rows[i], metricId)
  {
    if rows != [] {
      var init := rows[..|rows| - 1];
      CountInFlightPositive(init, metricId);
      if exists i :: 0 <= i < |init| && IsInFlightFor(init[i], metricId) {
        var i :| 0 <= i < |init| && IsInFlightFor(init[i], metricId);
        assert rows[i] == init[i];
      }
      if exists i :: 0 <= i < |rows| && IsInFlightFor(rows[i], metricId) {
        var i :| 0 <= i < |rows| && IsInFlightFor(rows[i], metricId);
        if i < |init| { assert init[i] == rows[i]; }
      }
    }
  }

  /**
   * `get_latest_snapshot`: among the metric's completed rows, one with the greatest
   * created_at (on a tie, the later row); none when the metric has no completed row.
   */
  function LatestCompleted(rows: seq<MetricSnapshot>, metricId: string): (r: Option<MetricSnapshot>)
    ensures r.Some? ==> r.value in rows && r.value.metricId == metricId && r.value.status == Completed
    ensures r.Some? ==> forall i :: 0 <= i < |rows| && rows[i].metricId == metricId && rows[i].status == Completed
                          ==> rows[i].createdAt <= r.value.createdAt
    ensures r.None? <==> forall i :: 0 <= i < |rows| ==> !(rows[i].metricId == metricId && rows[i].status == Completed)
  {
    if rows == [] then None
    else
      var init := rows[..|rows| - 1];
      var last := rows[|rows| - 1];
      var rest := LatestCompleted(init, metricId);
      assert forall i :: 0 <= i < |init| ==> rows[i] == init[i];
      if last.metricId == metricId && last.status == Completed && (rest.None? || rest.value.createdAt <= last.createdAt) then
        Some(last)
      else
        rest
  }

  /** `find_snapshot_by_run_id`: the first row carrying that run id, if any. */
  function FindByRunId(rows: seq<MetricSnapshot>, runId: string): (r: Option<MetricSnapshot>)
    ensures r.Some? ==> r.value in rows && r.value.runId == Some(runId)
    ensures r.None? <==> forall i :: 0 <= i < |rows| ==> rows[i].runId != Some(runId)
  {
    if rows == [] then None
    else if rows[0].runId == Some(runId) then Some(rows[0])
    else
      var rest := FindByRunId(rows[1..], runId);
      assert forall i :: 1 <= i < |rows| ==> rows[i] == rows[1..][i - 1];
      rest
  }

  /**
   * At most one refresh of a metric is in flight at a time: the invariant that the
   * pending-snapshot check in `refresh_metric` exists to keep.
   */
  predicate AtMostOneInFlight(rows: seq<MetricSnapshot>)
  {
    forall i, j ::
      (0 <= i < |rows| && 0 <= j < |rows| && rows[i].status.InFlight() && rows[j].status.InFlight()
       && rows[i].metricId == rows[j].metricId) ==> i == j
  }

  /** The metric of the row `id`, when that row exists. */
  function MetricOf(rows: seq<MetricSnapshot>, id: string): (r: Option<string>)
    ensures r.Some? <==> HasId(rows, id)
    ensures forall i :: 0 <= i < |rows| && rows[i].id == id && UniqueIds(rows) ==> r == Some(rows[i].metricId)
  {
    if rows == [] then None
    else if rows[0].id == id then Some(rows[0].metricId)
    else
      var rest := MetricOf(rows[1..], id);
      assert forall i :: 1 <= i < |rows| ==> rows[i] == rows[1..][i - 1];
      rest
  }

  class SnapshotTable {
    var rows: seq<MetricSnapshot>

    predicate Valid()
      reads this
    {
      UniqueIds(rows)
    }

    constructor ()
      ensures Valid() && rows == []
    {
      rows := [];
    }

    /**
     * `insert_metric_snapshot`: appends a pending row with empty values, no run id and no
     * completed_at. The fresh id (a UUID in the source) is a parameter.
     */
    method InsertMetricSnapshot(metricId: string, id: string, now: nat) returns (snap: MetricSnapshot)
      requires Valid() && !HasId(rows, id)
      modifies this
      ensures Valid()
      ensures snap == MetricSnapshot(id, metricId, None, Json.EmptyObject, "", Pending, None, now, None)
      ensures rows == old(rows) + [snap]
    {
      snap := MetricSnapshot(id, metricId, None, Json.EmptyObject, "", Pending, None, now, None);
      rows := rows + [snap];
    }

    /** `update_metric_snapshot_status`: the row `id`, if any, takes `status`; nothing else changes. */
    method UpdateMetricSnapshotStatus(id: string, status: SnapshotStatus)
      requires Valid()
      modifies this
      ensures Valid()
      ensures |rows| == |old(rows)|
      ensures forall i :: 0 <= i < |rows| ==>
        rows[i] == if old(rows)[i].id == id then old(rows)[i].(status := status) else old(rows)[i]
    {
      var before := rows;
      rows := seq(|before|, i requires 0 <= i < |before| =>
        if before[i].id == id then before[i].(status := status) else before[i]);
    }

    /** `update_metric_snapshot_run_id`: the row `id` records the run and becomes running. */
    method UpdateMetricSnapshotRunId(id: string, runId: string)
      requires Valid()
      modifies this
      ensures Valid()
      ensures |rows| == |old(rows)|
      ensures forall i :: 0 <= i < |rows| ==>
        rows[i] == if old(rows)[i].id == id then old(rows)[i].(runId := Some(runId), status := Running) else old(rows)[i]
    {
      var before := rows;
      rows := seq(|before|, i requires 0 <= i < |before| =>
        if before[i].id == id then before[i].(runId := Some(runId), status := Running) else before[i]);
    }

    /** `complete_metric_snapshot`: the row `id` becomes completed with its values, html and completed_at. */
    method CompleteMetricSnapshot(id: string, values: Json.Value, html: string, now: nat)
      requires Valid()
      modifies this
      ensures Valid()
      ensures |rows| == |old(rows)|
      ensures forall i :: 0 <= i < |rows| ==>
        rows[i] == if old(rows)[i].id == id
                   then old(rows)[i].(status := Completed, values := values, renderedHtml := html, completedAt := Some(now))
                   else old(rows)[i]
    {
      var before := rows;
      rows := seq(|before|, i requires 0 <= i < |before| =>
        if before[i].id == id
        then before[i].(status := Completed, values := values, renderedHtml := html, completedAt := Some(now))
        else before[i]);
    }

    /** `fail_metric_snapshot`: the row `id` becomes failed with its message and completed_at. */
    method FailMetricSnapshot(id: string, message: string, now: nat)
      requires Valid()
      modifies this
      ensures Valid()
      ensures |rows| == |old(rows)|
      ensures forall i :: 0 <= i < |rows| ==>
        rows[i] == if old(rows)[i].id == id
                   then old(rows)[i].(status := Failed, errorMessage := Some(message), completedAt := Some(now))
                   else old(rows)[i]
    {
      var before := rows;
      rows := seq(|before|, i requires 0 <= i < |before| =>
        if before[i].id == id
        then before[i].(status := Failed, errorMessage := Some(message), completedAt := Some(now))
        else before[i]);
    }

    /**
     * `mark_orphan_snapshots_failed` (run at start-up): every pending or running row becomes
     * failed with the restart message, leaving completed_at as it was; returns how many changed.
     */
    method MarkOrphanSnapshotsFailed() returns (changed: nat)
      requires Valid()
      modifies this
      ensures Valid()
      ensures changed == CountAllInFlight(old(rows))
      ensures |rows| == |old(rows)|
      ensures forall i :: 0 <= i < |rows| ==>
        rows[i] == if old(rows)[i].status.InFlight()
                   then old(rows)[i].(status := Failed, errorMessage := Some(ORPHAN_MESSAGE))
                   else old(rows)[i]
    {
      changed := CountAllInFlight(rows);
      var before := rows;
      rows := seq(|before|, i requires 0 <= i < |before| =>
        if before[i].status.InFlight()
        then before[i].(status := Failed, errorMessage := Some(ORPHAN_MESSAGE))
        else before[i]);
    }
  }

  /** The number of rows, of any metric, still in flight. */
  function CountAllInFlight(rows: seq<MetricSnapshot>): (n: nat)
    ensures n <= |rows|
  {
    if rows == [] then 0
    else CountAllInFlight(rows[..|rows| - 1]) + (if rows[|rows| - 1].status.InFlight() then 1 else 0)
  }

  /** After the orphan sweep no metric has a refresh in flight, so every metric can be refreshed again. */
  lemma NoPendingAfterOrphanSweep(before: seq<MetricSnapshot>, after: seq<MetricSnapshot>, metricId: string)
    requires |after| == |before|
    requires forall i :: 0 <= i < |after| ==>
      after[i] == if before[i].status.InFlight()
                  then before[i].(status := Failed, errorMessage := Some(ORPHAN_MESSAGE))
                  else before[i]
    ensures !HasPendingSnapshot(after, metricId)
    ensures AtMostOneInFlight(after)
  {
    assert forall i :: 0 <= i < |after| ==> !after[i].status.InFlight();
  }

  /** Every in-flight row gets counted, so the sweep reports zero exactly when nothing was in flight. */
  lemma {:induction false} CountAllInFlightZero(rows: seq<MetricSnapshot>)
    ensures CountAllInFlight(rows) == 0 <==> forall i :: 0 <= i < |rows| ==> !rows[i].status.InFlight()
  {
    if rows != [] {
      var init := rows[..|rows| - 1];
      CountAllInFlightZero(init);
      assert forall i :: 0 <= i < |init| ==> rows[i] == init[i];
    }
  }

  /**
   * Inserting a pending row for a metric with no refresh in flight keeps at most one refresh
   * in flight per metric.
   */
  lemma InsertKeepsOneInFlight(rows: seq<MetricSnapshot>, snap: MetricSnapshot)
    requires AtMostOneInFlight(rows)
    requires !HasPendingSnapshot(rows, snap.metricId)
    ensures AtMostOneInFlight(rows + [snap])
  {
    var grown := rows + [snap];
    assert forall i :: 0 <= i < |rows| ==> !IsInFlightFor(rows[i], snap.metricId);
    forall i, j | 0 <= i < |grown| && 0 <= j < |grown| && grown[i].status.InFlight() && grown[j].status.InFlight()
                  && grown[i].metricId == grown[j].metricId
      ensures i == j
    {
      if i < |rows| && j < |rows| {
        assert grown[i] == rows[i] && grown[j] == rows[j];
      }
    }
  }

  /**
   * Marking the row `id` running keeps at most one refresh in flight per metric when that
   * row is the only in-flight row of its metric (the freshly inserted pending row).
   */
  lemma RunIdKeepsOneInFlight(rows: seq<MetricSnapshot>, after: seq<MetricSnapshot>, id: string, runId: string, k: nat)
    requires AtMostOneInFlight(rows) && UniqueIds(rows)
    requires k < |rows| && rows[k].id == id && rows[k].status == Pending
    requires |after| == |rows|
    requires forall i :: 0 <= i < |after| ==>
      after[i] == if rows[i].id == id then rows[i].(runId := Some(runId), status := Running) else rows[i]
    ensures AtMostOneInFlight(after)
    ensures HasPendingSnapshot(after, rows[k].metricId)
  {
    assert forall i :: 0 <= i < |after| ==> (after[i].status.InFlight() <==> rows[i].status.InFlight());
    assert forall i :: 0 <= i < |after| ==> after[i].metricId == rows[i].metricId;
    assert IsInFlightFor(after[k], rows[k].metricId);
  }

  /** Completing or failing a row never adds a refresh in flight. */
  lemma SettleKeepsOneInFlight(rows: seq<MetricSnapshot>, after: seq<MetricSnapshot>, id: string, settled: SnapshotStatus)
    requires AtMostOneInFlight(rows)
    requires !settled.InFlight()
    requires |after| == |rows|
    requires forall i :: 0 <= i < |after| ==>
      (if rows[i].id == id then after[i].status == settled else after[i].status == rows[i].status)
      && after[i].metricId == rows[i].metricId
    ensures AtMostOneInFlight(after)
    ensures forall i :: 0 <= i < |after| && after[i].status.InFlight() ==> rows[i].status.InFlight()
  {
  }

  /**
   * Completing a row whose created_at is at least that of every other completed row of its
   * metric makes it the latest snapshot: what the dashboard shows next.
   */
  lemma CompletedNewestBecomesLatest(rows: seq<MetricSnapshot>, after: seq<MetricSnapshot>, k: nat,
                                     values: Json.Value, html: string, now: nat)
    requires UniqueIds(rows) && k < |rows|
    requires forall i :: 0 <= i < |rows| && rows[i].metricId == rows[k].metricId && rows[i].status == Completed
               ==> rows[i].createdAt < rows[k].createdAt
    requires |after| == |rows|
    requires forall i :: 0 <= i < |after| ==>
      after[i] == if rows[i].id == rows[k].id
                  then rows[i].(status := Completed, values := values, renderedHtml := html, completedAt := Some(now))
                  else rows[i]
    ensures var latest := LatestCompleted(after, rows[k].metricId);
            latest.Some? && latest.value.id == rows[k].id && latest.value.values == values
            && latest.value.completedAt == Some(now)
  {
    var m := rows[k].metricId;
    var latest := LatestCompleted(after, m);
    assert after[k].metricId == m && after[k].status == Completed;
    assert forall i :: (0 <= i < |after| && i != k && after[i].metricId == m && after[i].status == Completed)
                       ==> after[i] == rows[i] && after[i].createdAt < after[k].createdAt;
  }
}
