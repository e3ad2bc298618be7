/**
 * The run-side tables of the database layer (db/mod.rs): runs, their event log and the
 * scheduler's job rows, plus the pure row parsers and the conversation-title rule.
 * Tables are in-memory; ids and clock readings (UUIDs and `Utc::now()` in the source) are
 * parameters.
 */
module Db {
  import opened Wrappers
  import opened Errors
  import Text
  import Json
  import Models

  // ---------------------------------------------------------------------------------------
  // Row parsers
  // ---------------------------------------------------------------------------------------

  /** `parse_status`: every stored name reads back as itself; any other text reads as failed. */
  function ParseRunStatus(raw: string): (r: Models.RunStatus)
    ensures forall s: Models.RunStatus :: raw == s.Name() ==> r == s
    ensures (forall s: Models.RunStatus :: raw != s.Name()) ==> r == Models.RunStatus.Failed
  {
    if raw == Models.RunStatus.Queued.Name() then Models.RunStatus.Queued
    else if raw == Models.RunStatus.Running.Name() then Models.RunStatus.Running
    else if raw == Models.RunStatus.Completed.Name() then Models.RunStatus.Completed
    else if raw == Models.RunStatus.Canceled.Name() then Models.RunStatus.Canceled
    else if raw == Models.RunStatus.Interrupted.Name() then Models.RunStatus.Interrupted
    else Models.RunStatus.Failed
  }

  /** `mode_as_str`. */
  function ModeName(mode: Models.RunMode): string
  {
    match mode
    case NonInteractive => "non-interactive"
    case Interactive => "interactive"
  }

  /** `parse_mode`: the inverse of `mode_as_str`; any other text reads as non-interactive. */
  function ParseRunMode(raw: string): (r: Models.RunMode)
    ensures forall m: Models.RunMode :: raw == ModeName(m) ==> r == m
    ensures (forall m: Models.RunMode :: raw != ModeName(m)) ==> r == Models.RunMode.NonInteractive
  {
    if raw == ModeName(Models.RunMode.Interactive) then Models.RunMode.Interactive else Models.RunMode.NonInteractive
  }

  /** `parse_provider`: the inverse of `Provider::as_str`; any other text is a conversion error. */
  function ParseProvider(raw: string): (r: Result<Models.Provider, string>)
    ensures forall p: Models.Provider :: raw == p.Name() ==> r == Ok(p)
    ensures (forall p: Models.Provider :: raw != p.Name()) ==> r == Err("Unknown provider '" + raw + "'")
  {
    if raw == Models.Provider.Codex.Name() then Ok(Models.Provider.Codex)
    else if raw == Models.Provider.Claude.Name() then Ok(Models.Provider.Claude)
    else Err("Unknown provider '" + raw + "'")
  }

  // ---------------------------------------------------------------------------------------
  // Conversation titles
  // ---------------------------------------------------------------------------------------

  const NEW_CHAT_TITLE := "New chat"
  const MAX_TITLE_CHARS: nat := 80
  const ELLIPSIS := "..."

  /** `raw.lines().next().unwrap_or_default()`. */
  function FirstLine(raw: string): (r: string)
    ensures !Text.ContainsChar(r, '\n')
  {
    var lines := Text.Lines(raw);
    if lines == [] then "" else lines[0]
  }

  /**
   * `normalize_conversation_title`: the first line, trimmed; "New chat" when that is blank;
   * kept when it has at most 80 characters, and otherwise cut to 79 characters followed by
   * "..." (so a cut title has 82 characters). The result is a single non-blank line.
   */
  function NormalizeConversationTitle(raw: string): (r: string)
    ensures 0 < |r| <= MAX_TITLE_CHARS + 2
    ensures !Text.ContainsChar(r, '\n')
    ensures !Text.IsWhitespace(r[0]) && !Text.IsWhitespace(r[|r| - 1])
    ensures Text.IsBlank(FirstLine(raw)) ==> r == NEW_CHAT_TITLE
    ensures var t := Text.Trim(FirstLine(raw));
            (t != [] && |t| <= MAX_TITLE_CHARS ==> r == t)
            && (|t| > MAX_TITLE_CHARS ==> r == t[..MAX_TITLE_CHARS - 1] + ELLIPSIS)
  {
    var line := FirstLine(raw);
    var t := Text.Trim(line);
    Text.TrimKeepsAbsentChar(line, '\n');
    if t == [] then
      assert NEW_CHAT_TITLE[0] == 'N' && NEW_CHAT_TITLE[7] == 't';
      NEW_CHAT_TITLE
    else if |t| <= MAX_TITLE_CHARS then
      t
    else
      var cut := t[..MAX_TITLE_CHARS - 1] + ELLIPSIS;
      assert cut[0] == t[0] && cut[|cut| - 1] == '.';
      assert !Text.ContainsChar(cut, '\n') by {
        forall i | 0 <= i < |cut| ensures cut[i] != '\n' {
          if i < MAX_TITLE_CHARS - 1 { assert cut[i] == t[i]; }
        }
      }
      cut
  }

  /** A single non-blank line without surrounding whitespace is its own first line, trimmed. */
  lemma TrimmedLineIsItsOwnTitleLine(s: string)
    requires s != [] && !Text.ContainsChar(s, '\n')
    requires !Text.IsWhitespace(s[0]) && !Text.IsWhitespace(s[|s| - 1])
    ensures Text.Trim(FirstLine(s)) == s
  {
    assert Text.Lines(s) == [s];
  }

  /** Normalizing a title again changes nothing: stored titles are already normal. */
  lemma NormalizeConversationTitleIdempotent(raw: string)
    ensures NormalizeConversationTitle(NormalizeConversationTitle(raw)) == NormalizeConversationTitle(raw)
  {
    var r := NormalizeConversationTitle(raw);
    TrimmedLineIsItsOwnTitleLine(r);
    var t := Text.Trim(FirstLine(raw));
    if |t| > MAX_TITLE_CHARS {
      assert r[..MAX_TITLE_CHARS - 1] == t[..MAX_TITLE_CHARS - 1];
    }
  }

  // ---------------------------------------------------------------------------------------
  // runs
  // ---------------------------------------------------------------------------------------

  /** The columns of a `runs` row that these operations touch; warnings is None when its JSON is unreadable. */
  datatype RunRow = RunRow(
    id: string,
    status: Models.RunStatus,
    endedAt: Option<nat>,
    exitCode: Option<int>,
    errorSummary: Option<string>,
    compatibilityWarnings: Option<seq<string>>)

  /** The statuses that end a run and stamp ended_at. */
  predicate IsTerminal(status: Models.RunStatus)
  {
    status.Completed? || status.Failed? || status.Canceled? || status.Interrupted?
  }

  predicate NoDuplicates(ws: seq<string>)
  {
    forall i, j :: 0 <= i < j < |ws| ==> ws[i] != ws[j]
  }

  /** The warnings list after `add_compatibility_warning`: the warning is appended unless present. */
  function AddWarning(ws: seq<string>, warning: string): (r: seq<string>)
    ensures warning in r
    ensures forall w :: w in r <==> w in ws || w == warning
    ensures |ws| <= |r| <= |ws| + 1 && r[..|ws|] == ws
    ensures NoDuplicates(ws) ==> NoDuplicates(r)
  {
    if warning in ws then ws else ws + [warning]
  }

  /** Adding the same warning twice is adding it once. */
  lemma AddWarningIdempotent(ws: seq<string>, warning: string)
    ensures AddWarning(AddWarning(ws, warning), warning) == AddWarning(ws, warning)
  {
  }

  /** `rusqlite::Error::QueryReturnedNoRows` as text. */
  const NO_ROWS := "Query returned no rows"

  class RunTable {
    var runs: map<string, RunRow>

    /** Every run in a terminal status has its end time. */
    predicate Valid()
      reads this
    {
      forall id :: id in runs && IsTerminal(runs[id].status) ==> runs[id].endedAt.Some?
    }

    constructor ()
      ensures Valid() && runs == map[]
    {
      runs := map[];
    }

    /**
     * `update_run_status`: sets status, exit code and error summary, and ended_at only for a
     * terminal status. An unknown id updates no row and is not an error.
     */
    method UpdateRunStatus(runId: string, status: Models.RunStatus, exitCode: Option<int>,
                           errorSummary: Option<string>, now: nat)
      requires Valid()
      modifies this
      ensures Valid()
      ensures runId !in old(runs) ==> runs == old(runs)
      ensures runId in old(runs) ==>
        runs == old(runs)[runId := old(runs)[runId].(
          status := status, exitCode := exitCode, errorSummary := errorSummary,
          endedAt := if IsTerminal(status) then Some(now) else old(runs)[runId].endedAt)]
    {
      if runId in runs {
        var row := runs[runId];
        var ended := if IsTerminal(status) then Some(now) else row.endedAt;
        runs := runs[runId := row.(status := status, exitCode := exitCode, errorSummary := errorSummary, endedAt := ended)];
      }
    }

    /**
     * `add_compatibility_warning`: fails on an unknown run; otherwise appends the warning to
     * the stored list (an unreadable list counts as empty) unless it is already there.
     */
    method AddCompatibilityWarning(runId: string, warning: string) returns (r: AppResult<()>)
      requires Valid()
      modifies this
      ensures Valid()
      ensures runId !in old(runs) ==> r == Err(Internal(NO_ROWS)) && runs == old(runs)
      ensures runId in old(runs) ==>
        r == Ok(()) &&
        runs == old(runs)[runId := old(runs)[runId].(
          compatibilityWarnings := Some(AddWarning(old(runs)[runId].compatibilityWarnings.UnwrapOr([]), warning)))]
    {
      if runId !in runs {
        return Err(Internal(NO_ROWS));
      }
      var row := runs[runId];
      var existing := row.compatibilityWarnings.UnwrapOr([]);
      runs := runs[runId := row.(compatibilityWarnings := Some(AddWarning(existing, warning)))];
      r := Ok(());
    }
  }

  // ---------------------------------------------------------------------------------------
  // run_events
  // ---------------------------------------------------------------------------------------

  datatype RunEvent = RunEvent(
    id: string,
    runId: string,
    seqNo: int,
    eventType: string,
    payload: Json.Value,
    createdAt: nat)

  /** `SELECT MAX(seq) FROM run_events WHERE run_id = ?`: None when the run has no event. */
  function MaxSeq(events: seq<RunEvent>, runId: string): (r: Option<int>)
    ensures r.None? <==> forall i :: 0 <= i < |events| ==> events[i].runId != runId
    ensures r.Some? ==> exists i :: 0 <= i < |events| && events[i].runId == runId && events[i].seqNo == r.value
    ensures forall i :: 0 <= i < |events| && events[i].runId == runId ==> r.Some? && events[i].seqNo <= r.value
  {
    if events == [] then None
    else
      var init := events[..|events| - 1];
      var last := events[|events| - 1];
      var rest := MaxSeq(init, runId);
      assert forall i :: 0 <= i < |init| ==> events[i] == init[i];
      if last.runId == runId && (rest.None? || rest.value <= last.seqNo) then Some(last.seqNo) else rest
  }

  /** Within one run, events are numbered from 1 upwards in the order they were written. */
  predicate SeqsIncrease(events: seq<RunEvent>)
  {
    (forall i :: 0 <= i < |events| ==> events[i].seqNo >= 1)
    && (forall i, j :: 0 <= i < j < |events| && events[i].runId == events[j].runId ==> events[i].seqNo < events[j].seqNo)
  }

  class EventTable {
    var events: seq<RunEvent>

    predicate Valid()
      reads this
    {
      SeqsIncrease(events)
    }

    constructor ()
      ensures Valid() && events == []
    {
      events := [];
    }

    /**
     * `insert_event`: the new event's seq is one more than the largest seq of its run, or 1
     * for the run's first event; so seq numbers of a run increase in write order.
     */
    method InsertEvent(runId: string, eventType: string, payload: Json.Value, id: string, now: nat)
      returns (e: RunEvent)
      requires Valid()
      modifies this
      ensures Valid()
      ensures e == RunEvent(id, runId, MaxSeq(old(events), runId).UnwrapOr(0) + 1, eventType, payload, now)
      ensures events == old(events) + [e]
    {
      var next := MaxSeq(events, runId).UnwrapOr(0) + 1;
      e := RunEvent(id, runId, next, eventType, payload, now);
      events := events + [e];
    }
  }

  /** The event written for a run sorts after every earlier event of that run. */
  lemma NextSeqIsLargest(events: seq<RunEvent>, runId: string)
    requires SeqsIncrease(events)
    ensures MaxSeq(events, runId).UnwrapOr(0) + 1 >= 1
    ensures forall i :: 0 <= i < |events| && events[i].runId == runId ==> events[i].seqNo < MaxSeq(events, runId).UnwrapOr(0) + 1
  {
  }

  // ---------------------------------------------------------------------------------------
  // scheduler_jobs
  // ---------------------------------------------------------------------------------------

  datatype JobState = Queued | Running | Completed | Failed
  {
    function Name(): string
    {
      match this
      case Queued => "queued"
      case Running => "running"
      case Completed => "completed"
      case Failed => "failed"
    }
  }

  datatype SchedulerJob = SchedulerJob(
    id: string,
    runId: string,
    priority: int,
    state: JobState,
    queuedAt: nat,
    nextRunAt: Option<nat>,
    attempts: nat,
    maxRetries: nat,
    retryBackoffMs: nat,
    lastError: Option<string>,
    startedAt: Option<nat>,
    finishedAt: Option<nat>)

  /**
   * The timestamps agree with the state: a queued job has neither started nor finished, a
   * running job has started and not finished, a completed or failed job has finished.
   */
  predicate WellFormedJob(j: SchedulerJob)
  {
    && (j.state == Queued ==> j.startedAt.None? && j.finishedAt.None?)
    && (j.state == Running ==> j.startedAt.Some? && j.finishedAt.None?)
    && (j.state == Completed || j.state == Failed ==> j.finishedAt.Some?)
  }

  /** A row after `mark_job_running`: only a queued job of that run starts, counting one more attempt. */
  function StartJob(j: SchedulerJob, runId: string, now: nat): (r: SchedulerJob)
    ensures WellFormedJob(j) ==> WellFormedJob(r)
    ensures r.state == Running <==> j.state == Running || (j.runId == runId && j.state == Queued)
    ensures r.attempts == j.attempts + (if j.runId == runId && j.state == Queued then 1 else 0)
    ensures j.state != Queued ==> r == j
  {
    if j.runId == runId && j.state == Queued then
      j.(state := Running, startedAt := Some(now), attempts := j.attempts + 1, lastError := None)
    else j
  }

  /** A row after `mark_job_retry`: every job of that run goes back to the queue, whatever its state. */
  function RetryJob(j: SchedulerJob, runId: string, nextRunAt: nat, lastError: string): (r: SchedulerJob)
    ensures WellFormedJob(j) ==> WellFormedJob(r)
    ensures j.runId == runId ==> r.state == Queued && r.nextRunAt == Some(nextRunAt) && r.lastError == Some(lastError)
    ensures r.attempts == j.attempts
    ensures j.runId != runId ==> r == j
  {
    if j.runId == runId then
      j.(state := Queued, nextRunAt := Some(nextRunAt), startedAt := None, finishedAt := None, lastError := Some(lastError))
    else j
  }

  /** A row after `mark_job_finished`: only a running or queued job of that run ends. */
  function FinishJob(j: SchedulerJob, runId: string, failed: bool, now: nat): (r: SchedulerJob)
    ensures WellFormedJob(j) ==> WellFormedJob(r)
    ensures j.runId == runId && (j.state == Running || j.state == Queued) ==>
              r.state == (if failed then Failed else Completed) && r.finishedAt == Some(now)
    ensures j.state == Completed || j.state == Failed ==> r == j
    ensures r.attempts == j.attempts
  {
    if j.runId == runId && (j.state == Running || j.state == Queued) then
      j.(state := if failed then Failed else Completed, finishedAt := Some(now))
    else j
  }

  /** A finished job is final: neither starting nor finishing it again changes it; only a retry does. */
  lemma FinishedJobIsFinal(j: SchedulerJob, runId: string, failed: bool, now: nat, later: nat, failedAgain: bool)
    ensures var f := FinishJob(j, runId, failed, now);
            j.runId == runId ==> StartJob(f, runId, later) == f && FinishJob(f, runId, failedAgain, later) == f
  {
  }

  /** `get_queue_job`: the job of that run queued last (greatest queued_at; on a tie, the later row). */
  function NewestJob(jobs: seq<SchedulerJob>, runId: string): (r: Option<SchedulerJob>)
    ensures r.Some? ==> r.value in jobs && r.value.runId == runId
    ensures r.None? <==> forall i :: 0 <= i < |jobs| ==> jobs[i].runId != runId
    ensures r.Some? ==> forall i :: 0 <= i < |jobs| && jobs[i].runId == runId ==> jobs[i].queuedAt <= r.value.queuedAt
  {
    if jobs == [] then None
    else
      var init := jobs[..|jobs| - 1];
      var last := jobs[|jobs| - 1];
      var rest := NewestJob(init, runId);
      assert forall i :: 0 <= i < |init| ==> jobs[i] == init[i];
      if last.runId == runId && (rest.None? || rest.value.queuedAt <= last.queuedAt) then Some(last) else rest
  }

  class JobTable {
    var jobs: seq<SchedulerJob>

    predicate Valid()
      reads this
    {
      forall i :: 0 <= i < |jobs| ==> WellFormedJob(jobs[i])
    }

    constructor ()
      ensures Valid() && jobs == []
    {
      jobs := [];
    }

    /** `insert_scheduler_job`: a queued job with no attempts yet and no error. */
    method InsertSchedulerJob(id: string, runId: string, priority: int, nextRunAt: Option<nat>,
                              maxRetries: nat, retryBackoffMs: nat, now: nat) returns (job: SchedulerJob)
      requires Valid()
      modifies this
      ensures Valid()
      ensures job == SchedulerJob(id, runId, priority, Queued, now, nextRunAt, 0, maxRetries, retryBackoffMs, None, None, None)
      ensures jobs == old(jobs) + [job]
    {
      job := SchedulerJob(id, runId, priority, Queued, now, nextRunAt, 0, maxRetries, retryBackoffMs, None, None, None);
      jobs := jobs + [job];
    }

    method MarkJobRunning(runId: string, now: nat)
      requires Valid()
      modifies this
      ensures Valid()
      ensures |jobs| == |old(jobs)|
      ensures forall i :: 0 <= i < |jobs| ==> jobs[i] == StartJob(old(jobs)[i], runId, now)
    {
      var before := jobs;
      jobs := seq(|before|, i requires 0 <= i < |before| => StartJob(before[i], runId, now));
    }

    method MarkJobRetry(runId: string, nextRunAt: nat, lastError: string)
      requires Valid()
      modifies this
      ensures Valid()
      ensures |jobs| == |old(jobs)|
      ensures forall i :: 0 <= i < |jobs| ==> jobs[i] == RetryJob(old(jobs)[i], runId, nextRunAt, lastError)
    {
      var before := jobs;
      jobs := seq(|before|, i requires 0 <= i < |before| => RetryJob(before[i], runId, nextRunAt, lastError));
    }

    method MarkJobFinished(runId: string, failed: bool, now: nat)
      requires Valid()
      modifies this
      ensures Valid()
      ensures |jobs| == |old(jobs)|
      ensures forall i :: 0 <= i < |jobs| ==> jobs[i] == FinishJob(old(jobs)[i], runId, failed, now)
    {
      var before := jobs;
      jobs := seq(|before|, i requires 0 <= i < |before| => FinishJob(before[i], runId, failed, now));
    }
  }
}
