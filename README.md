# Kiingo command center backend, modelled in Dafny

This project models the sequential, deterministic core of the Rust backend (`src-tauri`) of the
Kiingo command center. That backend runs AI command-line agents (Codex and Claude) on behalf of a
desktop application, keeps their runs, events, scheduler jobs and metric snapshots in SQLite, and
keeps a workspace of "atoms" (notes, tasks, placements, registry entries) in an Obsidian vault.
The model replaces SQL tables, files, processes, clocks, ids, JSON parsing, regular expressions and
schema validation by in-memory state and parameters, and proves what the code promises about them.

What is modelled, one Dafny module per piece of the backend:

- **Stream buffering** (`line_buffer.dfy`, `runner.dfy`): the `LineBuffer` class that splits a chunked
  stream into lines (CRLF as one terminator, capped buffer, overflow counter) and the runner's
  bounded `OutputBuffer`; the runner's pure helpers (tool-result trimming, file-name sanitising,
  JSON merging, payload defaults, diagnostics, retry back-off, metric-output parsing).
- **Scheduling** (`scheduler.dfy`): the run queue with de-duplication, capacity, waiting-time
  priority boost and the global and per-provider slot counters.
- **Metric cache and tables** (`metric_snapshots.dfy`, `staleness.dfy`, `db.dfy`,
  `metric_refresh.dfy`): the snapshot lifecycle, the latest-snapshot and staleness rules, scheduler
  job transitions, run-status end marking, warning de-duplication, event numbering, and the
  refresh guard of the runner. Staleness is TTL-only: no code reads a metric's dependency list, so
  there is no dependency ordering to model.
- **Policy** (`policy.dfy`, `capability_adjuster.dfy`, `compatibility.dfy`): runtime bounds, harness
  checks, the flag allowlist, resolved-argument scanning, workspace grants; the capability
  adjuster; semantic-version extraction, version ranges, profile classification and its TTL cache.
- **Harness helpers** (`transcript.dfy`, `structured_output.dfy`, `cli_allowlist.dfy`,
  `cli_missing.dfy`, `redaction.dfy`): the transcript collector, structured-output resolution and
  validation, CLI-allowlist names, quoting and PATH, CLI-missing detection, and the redaction passes.
- **Adapters** (`adapters.dfy`, `codex_command.dfy`, `codex_parser.dfy`, `claude_command.dfy`,
  `claude_parser.dfy`): command-line construction for both agents and their per-run semantic-event
  parsers, as state machines over JSON values.
- **Workspace** (`workspace_ids.dfy`, `atom_models.dfy`, `atom_text.dfy`, `task_lines.dfy`,
  `obsidian_tasks.dfy`, `task_import.dfy`, `atom_state.dfy`, `atom_filter.dfy`, `atom_order.dfy`,
  `pagination.dfy`, `chunking.dfy`, `idempotency.dfy`, `json_entities.dfy`, `rules.dfy`,
  `recurrence.dfy`, `obsidian_cli.dfy`, `registry.dfy`, `placements.dfy`): path-component
  sanitising, FNV-1a hashing and imported ids, markdown task import, import-candidate application,
  titles, classification and body patches, facet and relation merging, atom status, lifecycle,
  filtering and ordering, pagination, chunking, the idempotency-key store, revision-checked JSON
  entities, rule conditions, recurrence, registry uniqueness, Obsidian CLI content encoding and
  placement reordering.
- Shared support: `wrappers.dfy` (Option, Result), `text.dfy` (ASCII text helpers), `json.dfy`
  (JSON values), `machine.dfy` (fixed-width integer arithmetic), `key_order.dfy` (ordering of map
  keys), `models.dfy` (the records the code passes around).

Strings are `seq<char>` and are taken to be ASCII, so a string's length is its byte count.

## Model

| member | source | states |
|---|---|---|
| LineBuffering.FirstTerminator | src-tauri/src/harness/line_buffer.rs:29-36 | the index found is the first '\n' or '\r' in the buffer, and there is none when the buffer has neither |
| LineBuffering.FirstTerminatorAt | src-tauri/src/harness/line_buffer.rs:29-36 | a terminator with no terminator before it is the one the search finds |
| LineBuffering.EndingLength | src-tauri/src/harness/line_buffer.rs:39-44 | the cut advances 2 characters for "\r\n" and 1 for a lone '\n' or '\r' |
| LineBuffering.SplitLines | src-tauri/src/harness/line_buffer.rs:27-49 | the lines and endings cut off by the loop in `push`, and the unterminated rest |
| LineBuffering.NoSplitWithoutTerminator | src-tauri/src/harness/line_buffer.rs:31-32 | a buffer without '\n' or '\r' yields no line and stays whole |
| LineBuffering.SplitLinesStep | src-tauri/src/harness/line_buffer.rs:28-47 | one loop turn: the first line, its ending, then the split of what follows |
| LineBuffering.DrainStep | src-tauri/src/harness/line_buffer.rs:28-47 | one turn of the drain loop keeps the lines found so far in step with `SplitLines` |
| LineBuffering.SplitLinesReassembles | src-tauri/src/harness/line_buffer.rs:27-49 | nothing is lost: the lines interleaved with their endings, then the rest, give back the input |
| LineBuffering.EndingAt | src-tauri/src/harness/line_buffer.rs:39-45 | every ending cut off is "\n", "\r\n" or "\r" |
| LineBuffering.SplitLinesClean | src-tauri/src/harness/line_buffer.rs:27-49 | no returned line and no leftover contains a terminator, and each ending is one of the three |
| LineBuffering.SplitLinesCons | src-tauri/src/harness/line_buffer.rs:28-47 | a terminator-free line, one ending and any text split as that line followed by the split of the text; a lone '\r' counts only when no '\n' follows it |
| LineBuffering.Excess | src-tauri/src/harness/line_buffer.rs:19-25 | the cap drops `len - max` bytes when the buffer is longer than `max`, and none otherwise or without a cap |
| LineBuffering.DrainLines | src-tauri/src/harness/line_buffer.rs:27-49 | the drain loop returns exactly the lines and rest of `SplitLines` |
| LineBuffering.LineBuffer.constructor | src-tauri/src/harness/line_buffer.rs:9-15 | a new buffer is empty, has dropped nothing and keeps the cap |
| LineBuffering.LineBuffer.Push | src-tauri/src/harness/line_buffer.rs:17-50 | the chunk is appended, the oldest bytes beyond the cap are dropped and counted with a saturating add, and the complete lines are returned while the unterminated tail stays buffered |
| LineBuffering.LineBuffer.ConsumeOverflowedBytes | src-tauri/src/harness/line_buffer.rs:52-56 | returns the dropped-byte count and resets it to 0, leaving the buffer alone |
| LineBuffering.LineBuffer.Flush | src-tauri/src/harness/line_buffer.rs:58-60 | returns the buffered tail and empties the buffer, leaving the count alone |
| LineBuffering.CrLfThenCrSplit | src-tauri/src/harness/line_buffer.rs:67-73 | "b\r\nc\rd" splits into lines b and c with d left over: "\r\n" counts once and a lone '\r' ends a line |
| Runner.Retain | src-tauri/src/runner.rs:73-81 | what is kept holds at most 4000 lines and at most 2 MiB, and is never longer than its input |
| Runner.RetainIsLongestFittingSuffix | src-tauri/src/runner.rs:73-81 | what is kept is the longest suffix of the lines that fits both limits: popping stops as soon as they hold |
| Runner.RetainPush | src-tauri/src/runner.rs:68-82 | trimming after every push equals trimming the whole history of pushed lines once: the buffer holds the newest lines that fit |
| Runner.OutputBuffer.constructor | src-tauri/src/runner.rs:61-65 | the default buffer holds no line and no byte |
| Runner.OutputBuffer.Push | src-tauri/src/runner.rs:68-82 | the line is appended and the oldest lines are popped while over 4000 lines or 2 MiB; the byte total stays the exact sum of the kept lines |
| Runner.OutputBuffer.Joined | src-tauri/src/runner.rs:84-90 | the lines joined with '\n'; splitting the result on '\n' gives the buffered lines back |
| Runner.TrimToolResult | src-tauri/src/runner.rs:3022-3040 | with no limit, a zero limit, or at most the limit of '\n'-separated lines the text comes back unchanged |
| Runner.TrimToolResultKeepsFirstLines | src-tauri/src/runner.rs:3022-3040 | a trimmed result keeps a prefix of the text ending just before a '\n' and holding exactly `max` lines, followed by a notice counting the rest |
| Runner.SanitizeFilenameComponent | src-tauri/src/runner.rs:2983-2998 | the result is non-empty, at most 120 characters, only [A-Za-z0-9_-], with no leading '_' (the 120-character cut comes after the trim, so a trailing '_' can remain) |
| Runner.SanitizeKeepsCleanName | src-tauri/src/runner.rs:2983-2998 | a name already made of safe characters, without surrounding '_' and at most 120 long, comes back unchanged |
| Runner.SanitizeFallsBackToRun | src-tauri/src/runner.rs:2983-2998 | a value with no letter, digit or '-' becomes "run" |
| Runner.MergeJson | src-tauri/src/runner.rs:2940-2951 | an object update keeps the target's other keys and merges each updated key recursively; any other update replaces the target |
| Runner.MergeJsonSelf | src-tauri/src/runner.rs:2940-2951 | merging a value into itself changes nothing |
| Runner.MergeJsonIdempotent | src-tauri/src/runner.rs:2940-2951 | applying the same update twice is applying it once |
| Runner.MergeJsonSkipNull | src-tauri/src/runner.rs:2953-2968 | as merge_json, except that a null update leaves the target as it is |
| Runner.SkipNullAgreesWithoutNulls | src-tauri/src/runner.rs:2940-2968 | for an update without nulls the two merges agree |
| Runner.ProfileDefaultsSurviveNulls | src-tauri/src/runner.rs:2813-2815 | a profile default survives a payload field serialised as null, and a set payload field overrides it |
| Runner.IsKnownBadCodexModel | src-tauri/src/runner.rs:3082-3085 | true exactly for a model that is blank after trimming |
| Runner.NormalizePayloadDefaults | src-tauri/src/runner.rs:2819-2845 | the model is trimmed; a Codex run without a usable model gets "gpt-5.3-codex" and a Claude run "sonnet"; the other fields are unchanged |
| Runner.NormalizePayloadDefaultsIdempotent | src-tauri/src/runner.rs:2819-2845 | normalising twice is normalising once |
| Runner.DetectDiagnosticLine | src-tauri/src/runner.rs:3005-3020 | a blank line is no diagnostic; otherwise an error when an error marker is present, else a warning on a warning marker, carrying the trimmed text |
| Runner.DetectDiagnosticLineStable | src-tauri/src/runner.rs:3005-3020 | detecting again on a diagnostic's reported text gives the same diagnostic |
| Runner.IsResumeInvalidFailure | src-tauri/src/runner.rs:3103-3114 | true exactly when the text contains one of the seven matchers |
| Runner.ResumeInvalidNeedsFiveMatchers | src-tauri/src/runner.rs:3103-3114 | two matchers are redundant: five of them decide exactly the same texts |
| Runner.PayloadHasResumeRequest | src-tauri/src/runner.rs:3087-3101 | a resume is requested exactly when the harness options carry a resume id that is non-empty after trimming, or ask to continue the session |
| Runner.RetryDelayMs | src-tauri/src/runner.rs:2440-2442 | the delay is `backoff * 2^(attempts-1)` saturating at `u64::MAX` (the shift saturates from 64 on), and at least 100 ms |
| Runner.RetryDelayMonotone | src-tauri/src/runner.rs:2440-2442 | a later attempt never waits less than an earlier one |
| Runner.RetryDelayFor | src-tauri/src/runner.rs:2418-2442 | no retry for an interactive run, a run without a job, zero allowed retries or attempts beyond the maximum; otherwise the retry delay |
| Runner.ExtractMetricOutput | src-tauri/src/runner.rs:3148-3151 | succeeds exactly on an object with both "values" and "html"; a non-string html reads as "" |
| Runner.ScanClose | src-tauri/src/runner.rs:3169-3203 | an index found is a '}' at or after the starting point |
| Runner.ScanCloseIsFirstClosing | src-tauri/src/runner.rs:3168-3203 | the scan from the first '{' stops exactly at the first '}' that is outside strings, not escaped, and brings the depth counted byte by byte back to zero, and finds nothing exactly when no such '}' exists |
| Runner.ScanCloseFromState | src-tauri/src/runner.rs:3173-3203 | from any point of the left-to-right scan state, the scan finds the first closing '}' at or after it |
| Runner.ScanCloseNoneFromState | src-tauri/src/runner.rs:3173-3203 | from any point, the scan finds nothing exactly when no later '}' closes the object |
| Runner.ScanCloseStep | src-tauri/src/runner.rs:3173-3198 | one byte of the scan either closes the object or moves on with the byte's effect on depth, string and escape state |
| Runner.BraceInStringIsSkipped | src-tauri/src/runner.rs:3173-3190 | a '}' inside a string and an escaped quote do not end the object |
| Runner.FirstBalancedObject | src-tauri/src/runner.rs:3168-3203 | a candidate starts with '{' and ends with '}' |
| Runner.FirstBalancedObjectSpan | src-tauri/src/runner.rs:3168-3203 | the candidate runs from the first '{' to the first '}' that balances it outside strings, and there is none exactly when the text has no '{' or it is never balanced |
| Runner.MetricCandidates | src-tauri/src/runner.rs:3146-3204 | the texts tried in order: the whole output, the trimmed ```json block, the first balanced object |
| Runner.FirstParsed | src-tauri/src/runner.rs:3146-3206 | the result of the first candidate that parses with both keys, or the error when none does |
| Runner.MetricOutputIsFirstParsed | src-tauri/src/runner.rs:3146-3206 | parsing fails exactly when no candidate parses with both keys, and a success is the first candidate that does |
| Runner.ScanSkipsPlainBytes | src-tauri/src/runner.rs:3173-3203 | bytes without quotes, backslashes or braces leave the scan state unchanged |
| Runner.FlatObjectIsFound | src-tauri/src/runner.rs:3168-3203 | a flat object after brace-free text is found whole |
| Runner.ScanForClose | src-tauri/src/runner.rs:3168-3203 | the brace-scan loop returns the index the recursive scan defines |
| Runner.ParseMetricOutput | src-tauri/src/runner.rs:3146-3206 | the method tries the three strategies in order and agrees with the specification |
| Scheduling.WaitedSeconds | src-tauri/src/scheduler.rs:207-208 | the whole seconds waited, 0 for a wait under one second or a queue time in the future |
| Scheduling.OlderRunNeverRanksLower | src-tauri/src/scheduler.rs:207-210 | of two runs with the same base priority, the earlier-queued one never has the lower effective priority |
| Scheduling.PriorityStepOutweighsShortWait | src-tauri/src/scheduler.rs:207-210 | one base-priority step outranks any wait under 25 minutes |
| Scheduling.TwoMinutesOfAgingCount | src-tauri/src/scheduler.rs:218-236 | a run queued 120 s ago outranks a fresh run of the same base priority |
| Scheduling.MinNotBefore | src-tauri/src/scheduler.rs:148-158 | the earliest `not_before` of a non-empty queue: no run has an earlier one and some run has it |
| Scheduling.SelectBest | src-tauri/src/scheduler.rs:160-172 | none exactly when no run is ready; otherwise a ready run of greatest effective priority, the last such one as `max_by_key` picks |
| Scheduling.Scheduler.constructor | src-tauri/src/scheduler.rs:36-47 | a new scheduler has an empty queue, no running counts and the given limits |
| Scheduling.Scheduler.Enqueue | src-tauri/src/scheduler.rs:57-73 | a run id already queued is accepted without change; a full queue refuses the run; otherwise the run is appended; queued ids stay distinct |
| Scheduling.Scheduler.HasCapacity | src-tauri/src/scheduler.rs:75-78 | true exactly when the queue is below its maximum size |
| Scheduling.Scheduler.PickNextRun | src-tauri/src/scheduler.rs:140-173 | nothing on an empty queue; the wait until the earliest `not_before` when no run is ready; otherwise the run `SelectBest` chooses, removed from the queue with the others kept in order |
| Scheduling.Scheduler.TryReserveSlot | src-tauri/src/scheduler.rs:175-190 | succeeds exactly when the global and the provider's counts are below their limits, and only then increments both |
| Scheduling.Scheduler.ReleaseSlot | src-tauri/src/scheduler.rs:192-204 | decrements the global and the provider's counts, neither below zero |
| Scheduling.RemovingKeepsDistinct | src-tauri/src/scheduler.rs:166-167 | removing the picked run keeps the queued ids distinct |
| MetricSnapshots.ParseSnapshotStatus | src-tauri/src/db/mod.rs:2207-2215 | every stored status name reads back as itself; any other text reads as failed |
| MetricSnapshots.HasPendingSnapshot | src-tauri/src/db/mod.rs:1328-1336 | true exactly when some row of the metric is pending or running |
| MetricSnapshots.LatestCompleted | src-tauri/src/db/mod.rs:1290-1300 | none exactly when the metric has no completed row; otherwise a completed row of the metric with the greatest created_at |
| MetricSnapshots.FindByRunId | src-tauri/src/db/mod.rs:1338-1348 | the first row carrying the run id, or none when no row does |
| MetricSnapshots.SnapshotTable.constructor | src-tauri/src/db/mod.rs:1226-1245 | the table starts empty |
| MetricSnapshots.SnapshotTable.InsertMetricSnapshot | src-tauri/src/db/mod.rs:1226-1245 | appends one pending row for the metric with empty values, no run id and no completed_at |
| MetricSnapshots.SnapshotTable.UpdateMetricSnapshotStatus | src-tauri/src/db/mod.rs:1247-1254 | the row with the id, if any, takes the status; every other row and field is unchanged |
| MetricSnapshots.SnapshotTable.UpdateMetricSnapshotRunId | src-tauri/src/db/mod.rs:1256-1263 | the row with the id records the run id and becomes running; nothing else changes |
| MetricSnapshots.SnapshotTable.CompleteMetricSnapshot | src-tauri/src/db/mod.rs:1265-1278 | the row with the id becomes completed with its values, html and completed_at; nothing else changes |
| MetricSnapshots.SnapshotTable.FailMetricSnapshot | src-tauri/src/db/mod.rs:1280-1288 | the row with the id becomes failed with its error and completed_at; nothing else changes |
| MetricSnapshots.SnapshotTable.MarkOrphanSnapshotsFailed | src-tauri/src/db/mod.rs:977-989 | every pending or running row becomes failed with the restart message, completed_at untouched, and the count of changed rows is returned |
| MetricSnapshots.NoPendingAfterOrphanSweep | src-tauri/src/db/mod.rs:977-989 | after the start-up sweep no metric has a pending snapshot, so every metric can be refreshed again |
| MetricSnapshots.CountAllInFlightZero | src-tauri/src/db/mod.rs:977-989 | the sweep reports zero exactly when no row was in flight |
| MetricSnapshots.InsertKeepsOneInFlight | src-tauri/src/db/mod.rs:1226-1245 | inserting a pending row for a metric with none in flight keeps at most one in-flight row per metric |
| MetricSnapshots.RunIdKeepsOneInFlight | src-tauri/src/db/mod.rs:1256-1263 | marking the metric's only in-flight row running keeps at most one in-flight row per metric |
| MetricSnapshots.SettleKeepsOneInFlight | src-tauri/src/db/mod.rs:1265-1288 | completing or failing a row never adds an in-flight row |
| MetricSnapshots.CompletedNewestBecomesLatest | src-tauri/src/db/mod.rs:1265-1300 | completing a row created no earlier than the metric's other completed rows makes it the latest snapshot |
| Staleness.ScreenMetricIsStale | src-tauri/src/db/mod.rs:1461-1471 | stale without a snapshot, when the latest has no completed_at, or once at least ttl seconds have passed since it completed |
| Staleness.StaleStaysStale | src-tauri/src/db/mod.rs:1461-1471 | without a newer snapshot, a stale metric stays stale as time passes |
| Staleness.FreshUntilTtl | src-tauri/src/db/mod.rs:1461-1471 | a snapshot that has just completed stays fresh for ttl seconds when ttl is positive |
| Staleness.DigitsOrder | src-tauri/src/db/mod.rs:1530-1532 | fixed-width digit fields compare as text exactly as their numbers compare |
| Staleness.Rfc3339KeepsOrder | src-tauri/src/db/mod.rs:1530-1531 | the stored RFC 3339 text orders instants correctly, so MAX over it picks the newest completion |
| Staleness.TextComparisonComparesDays | src-tauri/src/db/mod.rs:1530-1532 | the text comparison with SQLite's datetime text holds exactly when completed_at falls on an earlier calendar day than the threshold |
| Staleness.Threshold | src-tauri/src/db/mod.rs:1532 | the threshold is now minus ttl whenever that is not before the epoch |
| Staleness.MaxCompletedAt | src-tauri/src/db/mod.rs:1530-1531 | the greatest completed_at among the metric's completed rows, skipping rows without one |
| Staleness.AsWrittenMissesSameDay | src-tauri/src/db/mod.rs:1530-1532 | as written, a metric whose newest completion is on the same calendar day as the threshold is never picked, whatever its ttl |
| Staleness.SameDayCounterexample | src-tauri/src/db/mod.rs:1530-1532 | ttl 3600, completed at 01:00, checked at 23:00 the same day: stale as intended, not picked as written |
| Staleness.IsStaleMeansOlderThanTtl | src-tauri/src/db/mod.rs:1509-1541 | corrected, a refreshable metric is picked exactly when it has no completed snapshot or its newest completion is more than ttl seconds old |
| Staleness.StaleForRefreshIsShownStale | src-tauri/src/db/mod.rs:1461-1471 | what the corrected refresh query picks, the dashboard also shows as stale, when the latest snapshot carries the newest completion |
| Staleness.FreshMetricIsNotPicked | src-tauri/src/db/mod.rs:1509-1541 | a metric that completed within its ttl is not picked |
| Staleness.Filter | src-tauri/src/db/mod.rs:1535-1540 | a definition is kept exactly when it is among the input and satisfies the condition, and no more definitions come out than went in |
| Staleness.FindStaleMetricsForScreen | src-tauri/src/db/mod.rs:1509-1541 | of the definitions bound to the screen, exactly the stale ones (comparison on instants), each enabled, not archived and without a refresh in flight |
| Staleness.FindProactiveStaleMetrics | src-tauri/src/db/mod.rs:1543-1574 | of the proactive definitions, exactly the stale ones (comparison on instants), each enabled, not archived and without a refresh in flight |
| Db.ParseRunStatus | src-tauri/src/db/mod.rs:2276-2286 | every status name reads back as that status; any other text reads as failed |
| Db.ParseRunMode | src-tauri/src/db/mod.rs:2288-2301 | the inverse of `mode_as_str`; any other text reads as non-interactive |
| Db.ParseProvider | src-tauri/src/db/mod.rs:2261-2274 | every provider name reads back as that provider; any other text is an "Unknown provider" error |
| Db.FirstLine | src-tauri/src/db/mod.rs:2236 | the first line holds no '\n' |
| Db.NormalizeConversationTitle | src-tauri/src/db/mod.rs:2235-2246 | a non-empty single-line title without surrounding whitespace; "New chat" for a blank first line; the trimmed first line when it has at most 80 characters, else its first 79 followed by "..." |
| Db.TrimmedLineIsItsOwnTitleLine | src-tauri/src/db/mod.rs:2236 | a non-blank line without surrounding whitespace is its own trimmed first line |
| Db.NormalizeConversationTitleIdempotent | src-tauri/src/db/mod.rs:2235-2246 | normalising a normalised title changes nothing |
| Db.AddWarning | src-tauri/src/db/mod.rs:134-153 | the warning is in the result, the old list is a prefix, at most one item is added, and a list without duplicates stays without |
| Db.AddWarningIdempotent | src-tauri/src/db/mod.rs:134-153 | adding the same warning twice is adding it once |
| Db.RunTable.constructor | src-tauri/src/db/mod.rs:106-132 | the table starts empty |
| Db.RunTable.UpdateRunStatus | src-tauri/src/db/mod.rs:106-132 | an unknown id changes nothing; otherwise status, exit code and error summary are set, and ended_at only for a terminal status; every other row is unchanged |
| Db.RunTable.AddCompatibilityWarning | src-tauri/src/db/mod.rs:134-153 | an unknown run fails with "no rows" and changes nothing; otherwise the stored list becomes `AddWarning` of it, an unreadable list counting as empty |
| Db.MaxSeq | src-tauri/src/db/mod.rs:155-187 | none exactly when the run has no event; otherwise the largest seq among the run's events |
| Db.EventTable.constructor | src-tauri/src/db/mod.rs:155-187 | the table starts empty |
| Db.EventTable.InsertEvent | src-tauri/src/db/mod.rs:155-187 | appends one event whose seq is one more than the run's largest, or 1 for its first event |
| Db.NextSeqIsLargest | src-tauri/src/db/mod.rs:155-187 | the new seq is positive and larger than every earlier seq of the run |
| Db.StartJob | src-tauri/src/db/mod.rs:864-873 | only a queued job of the run starts, with one more attempt; a job not queued is unchanged |
| Db.RetryJob | src-tauri/src/db/mod.rs:875-884 | every job of the run goes back to the queue with the next run time and error, attempts kept; other runs' jobs are unchanged |
| Db.FinishJob | src-tauri/src/db/mod.rs:886-896 | only a running or queued job of the run ends; a completed or failed job is unchanged |
| Db.FinishedJobIsFinal | src-tauri/src/db/mod.rs:864-896 | a finished job is not changed by starting or finishing it again |
| Db.NewestJob | src-tauri/src/db/mod.rs:937-975 | none exactly when the run has no job; otherwise a job of the run with the greatest queued_at |
| Db.JobTable.constructor | src-tauri/src/db/mod.rs:824-862 | the table starts empty |
| Db.JobTable.InsertSchedulerJob | src-tauri/src/db/mod.rs:824-862 | appends a queued job with no attempts, no error and no start or finish time |
| Db.JobTable.MarkJobRunning | src-tauri/src/db/mod.rs:864-873 | every row becomes its `StartJob` update |
| Db.JobTable.MarkJobRetry | src-tauri/src/db/mod.rs:875-884 | every row becomes its `RetryJob` update |
| Db.JobTable.MarkJobFinished | src-tauri/src/db/mod.rs:886-896 | every row becomes its `FinishJob` update |
| MetricRefresh.FindDefinition | src-tauri/src/db/mod.rs:1162-1173 | a found definition is in the table with that id; none exactly when no definition has the id |
| MetricRefresh.FirstActiveGrantFrom | src-tauri/src/runner.rs:2163-2167 | the first unrevoked grant at or after the start: every grant before it is revoked, and none exactly when all are |
| MetricRefresh.FirstActiveGrant | src-tauri/src/runner.rs:2163-2167 | a found grant is in the list and unrevoked; none exactly when every grant is revoked |
| MetricRefresh.ActiveCwd | src-tauri/src/runner.rs:2163-2167 | the metric's own directory when set; else the first unrevoked grant's path; "." when every grant is revoked |
| MetricRefresh.RefreshPayload | src-tauri/src/runner.rs:2169-2198 | the run keeps the metric's provider, model and profile, is non-interactive with JSON output, priority -10, a 120-second timeout, one retry, no backoff or schedule, read-only never-asking permissions, the MCP and web tools, and the working directory `ActiveCwd` |
| MetricRefresh.RefreshRefusal | src-tauri/src/runner.rs:2137-2146 | no refusal exactly when the metric is `Admitted`: defined and refreshable (enabled, not archived, no refresh in flight) |
| MetricRefresh.Tracked | src-tauri/src/runner.rs:2200-2213 | the row keeps its id, metric and creation time; it runs under the new run's id when the run started, and is failed with the error's text when it did not |
| MetricRefresh.TrackRun | src-tauri/src/runner.rs:2200-2213 | the pending row just added becomes `Tracked`; the response carries metric, snapshot and run id, or the start error; at most one refresh per metric stays in flight |
| MetricRefresh.RefreshMetric | src-tauri/src/runner.rs:2136-2215 | a refused metric returns the refusal and changes nothing; an admitted one gets exactly one row, `Tracked` with the outcome of `start_run` on `RefreshPayload`, and the response or the start error; at most one refresh per metric stays in flight |
| MetricRefresh.SettlementOf | src-tauri/src/runner.rs:2251-2281 | a failed run fails with "Run failed"; a successful run completes with the parsed output, or fails with "Output parse error: " and the parse error |
| MetricRefresh.Settled | src-tauri/src/db/mod.rs:1265-1288 | the row is no longer in flight and has a completion time; it keeps its id, metric and run; it is completed with the values and html, or failed with the reason |
| MetricRefresh.Settle | src-tauri/src/db/mod.rs:1265-1288 | the row with that id becomes `Settled` and every other row is unchanged |
| MetricRefresh.ProcessMetricRunIfApplicable | src-tauri/src/runner.rs:2241-2282 | a run with no snapshot changes nothing; otherwise only its snapshot is settled by `SettlementOf`; once settled, the metric has no refresh in flight, so it can be refreshed again |
| MetricRefresh.SettledMetricIsFree | src-tauri/src/db/mod.rs:1328-1336 | with at most one refresh in flight per metric, settling the in-flight one leaves none pending for that metric |
| MetricRefresh.GrowByOneKeepsAbsent | src-tauri/src/db/mod.rs:1226-1254 | adding one row with a new id keeps every other id absent |
| MetricRefresh.RefreshEach | src-tauri/src/runner.rs:2217-2239 | the table and responses are exactly `RefreshAll` of the targets in order: each refused target adds nothing, each admitted one its tracked row and, when its run started, its response; the old rows are kept as a prefix and the responses are the new running rows in order; at most one refresh per metric stays in flight |
| MetricRefresh.RefreshAllAppends | src-tauri/src/runner.rs:2217-2239 | a batch keeps the old rows as a prefix, adds at most one row per target, and leaves no added row pending |
| MetricRefresh.RefreshAllResponses | src-tauri/src/runner.rs:2217-2229 | the responses a batch collects are exactly its added rows that are running, in target order |
| MetricRefresh.StarterStarts | src-tauri/src/runner.rs:2169-2200 | for a defined metric, starting its refresh is `start_run` on its `RefreshPayload` |
| MetricRefresh.TargetIds | src-tauri/src/runner.rs:2217-2239 | exactly the ids of the targets |
| MetricRefresh.RefreshScreenMetrics | src-tauri/src/runner.rs:2217-2229 | the table and responses are `RefreshAll` over `FindStaleMetricsForScreen` of the old table; every response is for a metric bound to the screen that was stale; the responses are the new running rows in order; at most one refresh per metric stays in flight |
| MetricRefresh.RefreshProactiveMetrics | src-tauri/src/runner.rs:2231-2239 | the table becomes that of `RefreshAll` over `FindProactiveStaleMetrics` of the old table, the old rows kept as a prefix; at most one refresh per metric stays in flight |
| Policy.ValidateHarnessLimits | src-tauri/src/policy.rs:163-182 | passes exactly when the harness timeout is within 5000..=10800000 ms and at most 20000 tool-result lines are asked for; a failure is a Policy error |
| Policy.ValidateRuntimeBounds | src-tauri/src/policy.rs:126-185 | passes exactly when priority, timeout, retries, backoff and harness limits are all within their ranges; a failure is a Policy error, and a priority out of range is reported first |
| Policy.EntryProblem | src-tauri/src/policy.rs:206-216 | no problem exactly when every allowlist entry has a non-blank name and path; a problem is a Policy error |
| Policy.ValidateHarness | src-tauri/src/policy.rs:187-233 | passes exactly when there are no harness options, or they do not auto-approve a full-access sandbox, give a non-empty allowlist of good entries with a wrapper name in wrapper mode, and a non-blank shell prelude; auto-approve with full access is refused with its own message |
| Policy.CapabilityAllowed | src-tauri/src/policy.rs:329-333 | holds every supported flag without its leading dashes; empty exactly when the CLI lists no flags |
| Policy.ValidateFlagKey | src-tauri/src/policy.rs:351-391 | passes exactly when the key is in the base or advanced allowlist, advanced keys come with advanced mode, and the CLI supports the key (or, with no capability map, advanced mode is on); allowlist refusals are Policy errors, support refusals Cli errors |
| Policy.ValidateFlags | src-tauri/src/policy.rs:317-349 | passes exactly when every key not starting with "__" passes `ValidateFlagKey` |
| Policy.LongFlagKey | src-tauri/src/policy.rs:268-269 | the key holds no '=' and the argument starts with "--" and the key |
| Policy.CheckArg | src-tauri/src/policy.rs:253-292 | an accepted argument has no forbidden control character; a returned key is the non-empty key of a long flag; any other accepted argument is no flag at all, or "-p" for Claude; refusals are Policy or Cli errors |
| Policy.ResolvedArgsAcceptEach | src-tauri/src/policy.rs:253-295 | the command line passes exactly when each argument passes on its own |
| Policy.ResolvedArgsKeysAllowed | src-tauri/src/policy.rs:253-295 | an accepted command line yields at most one key per argument, each non-empty, without '=' and allowed |
| Policy.ValidateResolvedArgs | src-tauri/src/policy.rs:235-296 | the loop returns the scan's result: the first refused argument's error, or the long-flag keys in order |
| Policy.ResolvedArgsStayFailed | src-tauri/src/policy.rs:253-293 | a failing prefix makes the whole command line fail with the same error |
| Policy.NormalizePath | src-tauri/src/policy.rs:398-410 | succeeds exactly for an absolute path that canonicalises, giving its canonical components; a failure is a Policy error |
| Policy.ActiveGrantPaths | src-tauri/src/policy.rs:300-304 | succeeds exactly when every unrevoked grant's path normalises; then holds exactly those canonical paths; a failure is a Policy error |
| Policy.ValidateWorkspace | src-tauri/src/policy.rs:298-315 | passes exactly when the directory and every active grant normalise and some unrevoked grant's canonical path is a whole-component prefix of the directory's |
| Policy.Validate | src-tauri/src/policy.rs:87-124 | passes exactly when the workspace, runtime bounds, harness options and the payload's own flag keys (`FlagKeys`, in map order) pass and the CLI is not blocked, is inside the matrix or advanced mode is on, and supports the run mode; a workspace error comes first and a bounds error next |
| Policy.ValidateCapability | src-tauri/src/policy.rs:99-123 | passes exactly when the CLI is not blocked, is inside the matrix or advanced mode is on, and offers the run mode; every refusal is a CLI error |
| Policy.FlagKeys | src-tauri/src/policy.rs:97 | exactly the payload's optional flag keys |
| Policy.NoGrantNoRun | src-tauri/src/policy.rs:298-315 | with no workspace grants every run is refused |
| Policy.InternalFlagsAreIgnored | src-tauri/src/policy.rs:335-338 | keys starting with "__" always pass |
| Policy.AdvancedFlagsNeedAdvancedMode | src-tauri/src/policy.rs:362-367 | any advanced flag outside advanced mode makes the flags fail, whatever the CLI supports |
| Policy.RefreshPayloadIsWithinPolicy | src-tauri/src/runner.rs:2169-2198 | the run a metric refresh asks for passes the runtime bounds and the harness checks |
| CapabilityAdjuster.DropUnsupportedFlags | src-tauri/src/harness/capability_adjuster.rs:24-49 | resume, structured output and MCP are cleared as `Adjusted` says, everything else is kept, and the warnings are those of the flag checks in order |
| CapabilityAdjuster.DropUnsupportedInputs | src-tauri/src/harness/capability_adjuster.rs:51-99 | system prompt, appended prompt, tools and images are cleared as `Adjusted` says, everything else is kept, and the warnings are those of the input checks in order |
| CapabilityAdjuster.ApplyHarnessCapabilities | src-tauri/src/harness/capability_adjuster.rs:9-117 | no options give no options and no warning; otherwise the options become `Adjusted` and the warnings are the messages of the adjustments made, in order |
| CapabilityAdjuster.AdjustedDropsOnlyUnsupported | src-tauri/src/harness/capability_adjuster.rs:24-99 | a feature is cleared only when the CLI lacks every flag for it (structured output and MCP exactly then); blank prompts are kept; options the adjuster does not look at are unchanged |
| CapabilityAdjuster.SurvivingMcpHasTool | src-tauri/src/harness/capability_adjuster.rs:101-111 | a surviving MCP configuration always comes with the MCP tool, and a tool list that already has it is not changed |
| CapabilityAdjuster.WarningsMatchAdjustments | src-tauri/src/harness/capability_adjuster.rs:24-111 | each of the eight warnings is given exactly when its adjustment happens |
| CapabilityAdjuster.FullySupportedIsUnchanged | src-tauri/src/harness/capability_adjuster.rs:9-117 | no warning exactly when the CLI fully supports the request, and then the options come back unchanged |
| Compatibility.ScanFindsRun | src-tauri/src/adapters/compatibility.rs:190-197 | the scan extends what it has collected by a maximal run of digits and dots found in the input after only other characters |
| Compatibility.SemverRunIsFirstMaximalRun | src-tauri/src/adapters/compatibility.rs:190-197 | the collected run is a slice of the input made of digits and dots, preceded only by other characters and not followed by one more digit or dot |
| Compatibility.ExtractSemver | src-tauri/src/adapters/compatibility.rs:189-203 | the loop returns the first maximal run of digits and dots, or, when there is none, the clock-made version "0.0.<seconds>" |
| Compatibility.NumericParts | src-tauri/src/adapters/compatibility.rs:213-215 | keeps at most as many numbers as there are segments |
| Compatibility.NumericPartsOfDecimals | src-tauri/src/adapters/compatibility.rs:212-221 | decimal segments within the u64 range all parse back to their values |
| Compatibility.ParseRenderedVersion | src-tauri/src/adapters/compatibility.rs:212-221 | parsing `major.minor.patch` gives back the version, for parts within the u64 range |
| Compatibility.VersionLeIsTotalOrder | src-tauri/src/adapters/compatibility.rs:205-210 | the tuple comparison is reflexive, antisymmetric, transitive and total |
| Compatibility.FindEntry | src-tauri/src/adapters/compatibility.rs:82-89 | a found row is in the matrix and its inclusive range holds the version; none exactly when no row's range holds it |
| Compatibility.ClassifyProfile | src-tauri/src/adapters/compatibility.rs:65-126 | a failed probe gives a blocked, unsupported profile with version "unknown" and the error as reason; inside the matrix the profile is supported with the row's flags, interactive exactly when the row allows it; outside it is degraded, non-interactive and without flags |
| Compatibility.CodexRange | src-tauri/src/adapters/compatibility.rs:223-226 | the Codex range parses as 0.24.0 through 1.99.99 |
| Compatibility.CodexLookup | src-tauri/src/adapters/compatibility.rs:82-85 | the Codex lookup finds its one row exactly when the version is in that row's range |
| Compatibility.CodexOutputSchemaFlag | src-tauri/src/adapters/compatibility.rs:227-232 | the Codex row lists "--output-schema" |
| Compatibility.CodexVersionInRangeIsSupported | src-tauri/src/adapters/compatibility.rs:65-126 | every Codex version from 0.24.0 through 1.99.99 is supported, not blocked, interactive and has structured output |
| Compatibility.OldCodexIsDegraded | src-tauri/src/adapters/compatibility.rs:113-124 | every Codex version below 0.24.0 is degraded, unsupported and non-interactive |
| Compatibility.CompatibilityRegistry.constructor | src-tauri/src/adapters/compatibility.rs:40-42 | the cache starts empty |
| Compatibility.CompatibilityRegistry.DetectProfile | src-tauri/src/adapters/compatibility.rs:44-62 | a cached profile no older than 60 seconds is returned and nothing changes; otherwise the profile is classified afresh and stored under the key with the current time |
| Compatibility.StoredProfileIsFreshForTtl | src-tauri/src/adapters/compatibility.rs:47-50 | a stored profile is served exactly until 60 seconds after it was stored |
| Compatibility.CacheKeysSeparateProviders | src-tauri/src/adapters/compatibility.rs:45 | Codex and Claude never share a cache key, and one provider's keys differ for different binaries |
| Transcript.Completed | src-tauri/src/harness/transcript.rs:19-23 | a non-blank completed text replaces the field; a missing or blank one leaves it |
| Transcript.DeltaText | src-tauri/src/harness/transcript.rs:14-16 | the payload's string "text", or nothing when it has none |
| Transcript.Step | src-tauri/src/harness/transcript.rs:11-44 | deltas append to text or thinking; completions replace them when non-blank; a structured result replaces the last one; any other event changes nothing |
| Transcript.TextDeltasConcatenate | src-tauri/src/harness/transcript.rs:13-17 | streaming text deltas appends the concatenation of their texts and touches nothing else |
| Transcript.UnknownEventsChangeNothing | src-tauri/src/harness/transcript.rs:42 | any run of events the collector does not know leaves it as it was |
| Transcript.CompletionWins | src-tauri/src/harness/transcript.rs:18-36 | after a non-blank completion the field is the completed text, whatever streamed before |
| Transcript.TranscriptCollector.constructor | src-tauri/src/harness/transcript.rs:3-8 | the collector starts with empty text and thinking and no structured result |
| Transcript.TranscriptCollector.OnSemanticEvent | src-tauri/src/harness/transcript.rs:11-44 | the new state is `Step` of the old state and the event |
| Transcript.TranscriptCollector.Text | src-tauri/src/harness/transcript.rs:46-48 | the trimmed text, empty exactly when the text is blank |
| Transcript.TranscriptCollector.Thinking | src-tauri/src/harness/transcript.rs:50-52 | the trimmed thinking, empty exactly when the thinking is blank |
| Transcript.TranscriptCollector.StructuredOutput | src-tauri/src/harness/transcript.rs:54-56 | the last structured result seen |
| StructuredOutput.ParseJsonValue | src-tauri/src/harness/structured_output.rs:20-26 | blank text is no value; any other text is read by the parser after trimming |
| StructuredOutput.ResolveStructuredOutput | src-tauri/src/harness/structured_output.rs:10-18 | the content's value when it parses, else the fallback's; a value always comes from one of the two |
| StructuredOutput.ValidateStructuredOutput | src-tauri/src/harness/structured_output.rs:28-96 | the value is handed back unchanged; with no value an error is set exactly when a schema was asked for; with no schema nothing is wrong; otherwise the error is set exactly when the schema does not compile or the value violates it, and the violations are listed |
| StructuredOutput.ResolvedValidation | src-tauri/src/harness/structured_output.rs:10-96 | with no schema there is never an error; with one, no error exactly when some text parsed and the validator found no violation |
| StructuredOutput.BlankContentUsesFallback | src-tauri/src/harness/structured_output.rs:14-17 | blank content falls through to the fallback text |
| CliAllowlist.NormalizeName | src-tauri/src/harness/cli_allowlist.rs:16-29 | accepts exactly a trimmed name made only of ASCII letters, digits, '_' and '-', returning it trimmed; a blank name is "cannot be empty"; every refusal is a Policy error |
| CliAllowlist.NormalizeNameIsIdempotent | src-tauri/src/harness/cli_allowlist.rs:16-29 | an accepted name is accepted again as itself |
| CliAllowlist.ShellQuote | src-tauri/src/harness/cli_allowlist.rs:31-33 | the word opens and closes with a single quote |
| CliAllowlist.CmdQuote | src-tauri/src/harness/cli_allowlist.rs:35-37 | the word opens and closes with a double quote |
| CliAllowlist.EscapeReadsBack | src-tauri/src/harness/cli_allowlist.rs:32 | a POSIX shell reads the quote escape as one single quote and goes on quoting |
| CliAllowlist.SingleQuotedBodyReadsBack | src-tauri/src/harness/cli_allowlist.rs:32 | inside the opening quote, the escaped body reads back as the value |
| CliAllowlist.ShellQuoteRoundTrip | src-tauri/src/harness/cli_allowlist.rs:31-33 | a POSIX shell reads back exactly the quoted value, whatever characters it holds |
| CliAllowlist.CmdQuoteRoundTrip | src-tauri/src/harness/cli_allowlist.rs:35-37 | cmd.exe reads back exactly the quoted value |
| CliAllowlist.PathKey | src-tauri/src/harness/cli_allowlist.rs:41-44 | a key that is "path" in any case: the name of an environment variable, or "PATH" when none is named so |
| CliAllowlist.VarOrEmpty | src-tauri/src/harness/cli_allowlist.rs:45 | empty when no variable has that exact name |
| CliAllowlist.PathEnvWithPrepend | src-tauri/src/harness/cli_allowlist.rs:39-54 | exactly one variable, under the PATH key; its value is the bin directory, followed by the delimiter and the old value when that is non-empty |
| CliAllowlist.BinDirComesFirst | src-tauri/src/harness/cli_allowlist.rs:46-50 | the new PATH starts with the bin directory, and a non-empty old PATH follows it after the platform's delimiter |
| CliAllowlist.TrimmedNames | src-tauri/src/harness/cli_allowlist.rs:79-80 | each entry's trimmed name, in entry order |
| CliAllowlist.FreshShimEntriesCons | src-tauri/src/harness/cli_allowlist.rs:79-86 | entries are valid and fresh exactly when the first one is, and the rest are with its name taken |
| CliAllowlist.ShimNamesAccepted | src-tauri/src/harness/cli_allowlist.rs:77-174 | shims are accepted exactly when every name is safe, no two trimmed names agree, none is already taken and every path is given |
| CliAllowlist.ShimNamesStep | src-tauri/src/harness/cli_allowlist.rs:79-86 | a good first entry hands on to the rest with its name taken; a bad one is a Policy error |
| CliAllowlist.ShimNamesInOrder | src-tauri/src/harness/cli_allowlist.rs:77-174 | accepted shims expose the taken names followed by the trimmed names in entry order; an error is a Policy error |
| CliAllowlist.PrepareShims | src-tauri/src/harness/cli_allowlist.rs:77-174 | the loop gives the shims check's result |
| CliAllowlist.FirstBadName | src-tauri/src/harness/cli_allowlist.rs:184-187 | none exactly when every entry name is safe; a bad name is a Policy error |
| CliAllowlist.CleanupPaths | src-tauri/src/harness/cli_allowlist.rs:69-72 | the bin directory is listed for removal exactly when it was made for the run and not kept; nothing else is listed |
| CliAllowlist.PrepareCliAllowlist | src-tauri/src/harness/cli_allowlist.rs:56-252 | no entries is "entries is required"; every refusal is a Policy error; on success the directory, PATH entry and cleanup list are as above; shims mode succeeds exactly for valid, fresh entries and exposes their trimmed names; wrapper mode succeeds exactly when the wrapper and entry names are safe and exposes the wrapper alone |
| CliAllowlist.DefaultWrapperName | src-tauri/src/harness/cli_allowlist.rs:176-182 | with no wrapper name configured and safe entry names, the wrapper is exposed as "kiingo-cli" |
| CliMissing.BuildCliMissingPayload | src-tauri/src/harness/cli_missing.rs:10-27 | no payload exactly when the lower-cased line holds none of the four phrases; otherwise provider name, the line itself and code "CLI_MISSING" |
| CliMissing.DetectionIgnoresCase | src-tauri/src/harness/cli_missing.rs:10-15 | a line and its lower-cased form are classified alike |
| CliMissing.PosixMessageIsDetected | src-tauri/src/harness/cli_missing.rs:33-35 | "command not found: claude" is detected, in any case |
| CliMissing.WindowsMessageIsDetected | src-tauri/src/harness/cli_missing.rs:33-36 | the Windows "is not recognized as an internal or external command" message is detected |
| CliMissing.OrdinaryLineIsNotDetected | src-tauri/src/harness/cli_missing.rs:33-37 | "normal stderr line" is not detected and yields no payload |
| Redaction.RedactTokens | src-tauri/src/redaction.rs:46-53 | one token per token, each hidden exactly when it is long |
| Redaction.LongTokenCount | src-tauri/src/redaction.rs:47-48 | at most one per token |
| Redaction.LongTokenPass | src-tauri/src/redaction.rs:43-57 | the loop gives the redacted tokens joined by single spaces and the number of long tokens |
| Redaction.WordsOfJoin | src-tauri/src/redaction.rs:44-55 | words joined by single spaces split on whitespace into the same words |
| Redaction.MarkIsShortWord | src-tauri/src/redaction.rs:49 | the marker is a single word that is not itself a long token |
| Redaction.LongTokenPassIsIdempotent | src-tauri/src/redaction.rs:43-57 | the aggressive pass keeps one token per word, and run again on its own output it hides nothing and changes nothing |
| Redaction.MatchCount | src-tauri/src/redaction.rs:60 | at most one match per piece |
| Redaction.RenderedHidesSecrets | src-tauri/src/redaction.rs:66-75 | with the intended replacement, texts whose pieces differ only in what was matched (same plain text, same keys) are rendered alike |
| Redaction.KeyedPatternsAreUnchanged | src-tauri/src/redaction.rs:7-75 | for the pattern whose group 1 is the key name, the intended replacement is the source's |
| Redaction.SecretSurvivesAsWritten | src-tauri/src/redaction.rs:9-75 | as written, a 32-character hex key is rewritten as itself followed by "=[REDACTED]", and two different sk- keys leave different output; the intended replacement gives "secret=[REDACTED]" |
| Redaction.SecretPass | src-tauri/src/redaction.rs:59-76 | counts the pattern's matches, and with none the text is unchanged |
| Redaction.NoMatchesKeepText | src-tauri/src/redaction.rs:59-76 | when no pattern matches, the text and the count stay as they were |
| Redaction.Redact | src-tauri/src/redaction.rs:32-82 | the loop gives the long-token pass (when aggressive) followed by every pattern's pass in order, counting long tokens and matches; empty input gives empty content and no redaction |
| Redaction.ApplyPatterns | src-tauri/src/redaction.rs:59-76 | the loop over the patterns gives the text and match count of applying each pass in turn |
| Redaction.PlainTextPassesThrough | src-tauri/src/redaction.rs:32-82 | without the aggressive pass and without matches the content is the input itself and the count is zero |
| CodexParser.CaptureModel | src-tauri/src/adapters/codex.rs:725-734 | a line naming a model replaces the remembered one; otherwise the model stays; session and items are untouched |
| CodexParser.NormalizeType | src-tauri/src/adapters/codex.rs:710-715 | a string type lower-cased; anything else gives "" |
| CodexParser.FirstField | src-tauri/src/adapters/codex.rs:587-595 | the value of one of the keys; none exactly when the item has none of them |
| CodexParser.McpToolName | src-tauri/src/adapters/codex.rs:782-786 | the tool name always starts with "mcp" or "MCP:" |
| CodexParser.McpToolInput | src-tauri/src/adapters/codex.rs:796-804 | an object input is kept as it is; a string input is its parse when it parses; a non-string input always becomes an object |
| CodexParser.ItemStarted | src-tauri/src/adapters/codex.rs:385-435 | an item with an id and a type is remembered under its id; nothing remembered is forgotten; session and model are untouched; at most one tool-start event |
| CodexParser.ReasoningText | src-tauri/src/adapters/codex.rs:454-460 | a reasoning text, when found, is not empty |
| CodexParser.DeltaText | src-tauri/src/adapters/codex.rs:470-477 | a delta text, when found, is not empty |
| CodexParser.DeltaEvents | src-tauri/src/adapters/codex.rs:437-489 | at most two events, each a non-empty text or thinking delta; none exactly when the line has neither a reasoning text nor a delta text |
| CodexParser.Strings | src-tauri/src/adapters/codex.rs:527-537 | at most one string per member |
| CodexParser.Stringify | src-tauri/src/adapters/codex.rs:812-818 | a string as it is, null as "" |
| CodexParser.ItemCompleted | src-tauri/src/adapters/codex.rs:490-606 | at most one event; a completed agent message reports its text complete exactly when the text is present and not empty |
| CodexParser.FailureEvent | src-tauri/src/adapters/codex.rs:626-656 | a rate-limit notice exactly when the message mentions a rate limit, too many requests or 429; otherwise an error with the message and the whole line |
| CodexParser.ObjectStep | src-tauri/src/adapters/codex.rs:369-656 | a known session id stays known and remembered items stay remembered |
| CodexParser.Step | src-tauri/src/adapters/codex.rs:340-657 | one line, stream events unwrapped: a known session id stays known and remembered items stay remembered |
| CodexParser.ParseRunKeepsSession | src-tauri/src/adapters/codex.rs:340-657 | over any sequence of lines, a known session id stays known and remembered items stay remembered |
| CodexParser.ThreadStartedRecordsSession | src-tauri/src/adapters/codex.rs:373-383 | `thread.started` makes the thread the session and announces it at once with the model |
| CodexParser.TurnCompletedReportsSession | src-tauri/src/adapters/codex.rs:608-624 | `turn.completed` reports the turn with its usage, then the session only when one is known |
| CodexParser.FailureIsClassified | src-tauri/src/adapters/codex.rs:626-656 | `turn.failed` and `error` lines give exactly one event, a rate-limit notice exactly when the message says so, and change no state |
| CodexParser.MessagelessFailureIsCodexError | src-tauri/src/adapters/codex.rs:627-637 | a failure without any message is reported as "Codex error" |
| CodexParser.ReasoningDeltaIsThinking | src-tauri/src/adapters/codex.rs:437-489 | a text delta of an item of type "reasoning" is reported as thinking |
| CodexParser.RecordedReasoningItemStreamsThinking | src-tauri/src/adapters/codex.rs:749-766 | an item remembered as reasoning turns a later delta that names only its id into thinking, and the line changes no state |
| CodexParser.LastMessageIndex | src-tauri/src/adapters/codex.rs:872-896 | the index of an agent-message line with non-blank text after which there is no other; none exactly when there is no such line |
| CodexParser.LastAgentMessage | src-tauri/src/adapters/codex.rs:872-896 | a found message is never empty |
| CodexParser.ExtractLastAgentMessage | src-tauri/src/adapters/codex.rs:872-896 | the corrected loop returns the trimmed text of the last agent message with non-blank text, passing over malformed lines |
| CodexParser.ExtractLastAgentMessageAsWritten | src-tauri/src/adapters/codex.rs:872-896 | the loop as written returns the scan in which a completed line without an item, or an agent message without text, ends it with no result |
| CodexParser.ReturnedStays | src-tauri/src/adapters/codex.rs:886-892 | once the scan as written has returned, later lines change nothing |
| CodexParser.AsWrittenAgreesWithoutStops | src-tauri/src/adapters/codex.rs:872-896 | without a line that makes the code return early, the code as written finds the intended message |
| CodexParser.MalformedLineLosesMessage | src-tauri/src/adapters/codex.rs:886 | after a final message "done", an `item.completed` line without an item makes the code as written return nothing, where the intended reading returns "done" |
| CodexParser.CodexAdapter.constructor | src-tauri/src/adapters/codex.rs:22-25 | no run has parser state |
| CodexParser.CodexAdapter.ParseSemanticEvents | src-tauri/src/adapters/codex.rs:327-659 | the run's lines are parsed from its state (fresh for a new run), the new state is kept for that run only, and the events are those of the lines in order |
| CodexParser.CodexAdapter.ClearSemanticState | src-tauri/src/adapters/codex.rs:661-665 | the run's state is dropped and no other run's |
| Adapters.FieldOrNull | src-tauri/src/adapters/codex.rs:403-404 | the member when present, else null |
| Adapters.GetObj | src-tauri/src/adapters/codex.rs:372 | the member exactly when it is present and an object |
| Adapters.PickString | src-tauri/src/adapters/codex.rs:717-723 | the first candidate that is present and non-empty; none exactly when there is no such candidate |
| Adapters.UnwrapStreamEvent | src-tauri/src/adapters/codex.rs:348-360 | a line that is not a stream event is kept; a replaced line is the object under its "event" |
| Adapters.ResumeSessionId | src-tauri/src/adapters/codex.rs:854-870 | the harness's session id, trimmed, when it is not blank; otherwise the internal resume flag's string, trimmed, exactly when it is not blank; never blank or padded |
| Adapters.AcceptedLine | src-tauri/src/adapters/codex.rs:340-347 | a line is read exactly when, trimmed, it is non-empty and opens with '{', and then it is the parse of the trimmed line |
| Adapters.ParseLinesAppend | src-tauri/src/adapters/codex.rs:340-657 | parsing two runs of lines in a row is parsing their concatenation: the final state and the events in order agree, so how lines are grouped into chunks does not matter |
| Adapters.IgnoredLinesChangeNothing | src-tauri/src/adapters/codex.rs:341-347 | blank, non-object and unparsable lines change no state and emit nothing |
| Adapters.StateFor | src-tauri/src/adapters/codex.rs:337 | the run's stored state, or the default for a run not seen yet |
| Adapters.Base64PayloadIsSuffix | src-tauri/src/adapters/codex.rs:842-848 | the payload is a suffix of the data URL: all of it without a "base64," marker, at least seven characters less with one |
| Adapters.Base64PayloadOfDataUrl | src-tauri/src/adapters/codex.rs:842-848 | "data:image/png;base64,iVBOR" gives "iVBOR" |
| ClaudeParser.BlockIndex | src-tauri/src/adapters/claude.rs:423-426 | the block's "index" when it is a non-negative integer, 0 otherwise |
| ClaudeParser.KindTextEmptyIff | src-tauri/src/adapters/claude.rs:669-692 | a message's text of one kind is empty exactly when no content part contributes text of that kind |
| ClaudeParser.PartIsOneKind | src-tauri/src/adapters/claude.rs:673-688 | no content part counts both as text and as thinking |
| ClaudeParser.ExtractMessageText | src-tauri/src/adapters/claude.rs:669-692 | the loop's text and thinking are the message content's text parts and thinking parts, each joined in order |
| ClaudeParser.ItemTexts | src-tauri/src/adapters/claude.rs:700-708 | at most one text per item of an array tool result |
| ClaudeParser.ToolResultText | src-tauri/src/adapters/claude.rs:694-713 | a string content is the result text; content that is neither a string nor an array gives the empty text |
| ClaudeParser.ToolResultPart | src-tauri/src/adapters/claude.rs:360-390 | a part that is not a tool result changes nothing; a tool result emits one ToolResult event for its id with the started tool's name and input, and forgets that id |
| ClaudeParser.UserParts | src-tauri/src/adapters/claude.rs:349-394 | a user message only forgets started tools, never adds or alters one, and emits at most one event per part |
| ClaudeParser.UserPartsOne | src-tauri/src/adapters/claude.rs:354-392 | a user message with one part acts as that one tool-result part |
| ClaudeParser.AssistantStep | src-tauri/src/adapters/claude.rs:326-348 | an assistant message never clears the text-seen flag and never changes the session |
| ClaudeParser.UserStep | src-tauri/src/adapters/claude.rs:349-394 | a user message changes only the started-tools table |
| ClaudeParser.MessageStartStep | src-tauri/src/adapters/claude.rs:395-407 | message_start changes only the input tokens and the model |
| ClaudeParser.MessageDeltaStep | src-tauri/src/adapters/claude.rs:408-421 | message_delta changes only the output and cached tokens |
| ClaudeParser.BlockStartStep | src-tauri/src/adapters/claude.rs:422-469 | content_block_start changes only the streaming-tools table |
| ClaudeParser.BlockDeltaStep | src-tauri/src/adapters/claude.rs:470-502 | content_block_delta never clears the text-seen flag and never changes the session |
| ClaudeParser.ToolInput | src-tauri/src/adapters/claude.rs:509-514 | a blank buffer gives an empty object, a parseable buffer its value, anything else an object holding the raw buffer |
| ClaudeParser.BlockStopStep | src-tauri/src/adapters/claude.rs:503-536 | content_block_stop leaves the text-seen flag and the session alone |
| ClaudeParser.ResultText | src-tauri/src/adapters/claude.rs:538-546 | a result reports its text exactly when no text was seen yet and the result is a non-blank string, and then reports that string |
| ClaudeParser.ResultStep | src-tauri/src/adapters/claude.rs:538-608 | a result never clears the text-seen flag and never loses the session |
| ClaudeParser.ErrorEvent | src-tauri/src/adapters/claude.rs:610-633 | an error is rate limiting exactly when its message (default "Unknown error") mentions a rate limit, too many requests or overload, carrying retry_after_ms or else retry_after; otherwise an Error with the message and the whole line |
| ClaudeParser.ObjectStep | src-tauri/src/adapters/claude.rs:321-634 | no line of any type clears the text-seen flag or loses the session |
| ClaudeParser.Step | src-tauri/src/adapters/claude.rs:298-634 | after unwrapping a stream_event, no line clears the text-seen flag or loses the session |
| ClaudeParser.ParseRunKeepsTextSeen | src-tauri/src/adapters/claude.rs:298-637 | across a whole chunk, once text is seen it stays seen and a known session stays known |
| ClaudeParser.ResultReportsTextOnce | src-tauri/src/adapters/claude.rs:538-608 | a result line emits its text first and only when none was seen, emits no other text, sets the text-seen flag accordingly, and always completes the turn with the usage and model |
| ClaudeParser.AssistantTextIsSeen | src-tauri/src/adapters/claude.rs:326-348 | an assistant message with text emits it first and marks text seen; without text it emits no text |
| ClaudeParser.ResultAfterAssistantAddsNoText | src-tauri/src/adapters/claude.rs:986-1017 | a result following an assistant message with text emits no second text, yet still completes the turn |
| ClaudeParser.ToolUseStartRegisters | src-tauri/src/adapters/claude.rs:422-469 | a tool_use block start registers the tool under its index with an empty object input and an empty buffer, and emits nothing |
| ClaudeParser.InputDeltaAppends | src-tauri/src/adapters/claude.rs:470-502 | an input_json_delta for a streaming tool appends its piece to that tool's buffer and emits nothing |
| ClaudeParser.BlockStopStarts | src-tauri/src/adapters/claude.rs:503-536 | stopping a streaming block removes it, records its name and parsed input under its id, and emits ToolStart with that input |
| ClaudeParser.ToolResultConsumes | src-tauri/src/adapters/claude.rs:349-394 | a tool result for a started id emits ToolResult with that tool's name and input and forgets the id |
| ClaudeParser.StreamedToolBuffered | src-tauri/src/adapters/claude.rs:422-536 | after a tool use's start and one input delta, the tool is held at its index with exactly that piece buffered and nothing else changes |
| ClaudeParser.StreamedToolStarts | src-tauri/src/adapters/claude.rs:422-536 | start, one input delta and stop emit exactly ToolStart with the parsed input, leave the streaming table as it was and record the tool by id |
| ClaudeParser.ToolLifecycle | src-tauri/src/adapters/claude.rs:1019-1050 | a streamed tool followed by its result emits ToolStart then ToolResult for the same tool and leaves both tables as before |
| ClaudeParser.LineResult | src-tauri/src/adapters/claude.rs:736-751 | a line's result text, when there is one, is non-blank and already trimmed |
| ClaudeParser.LastResultIndex | src-tauri/src/adapters/claude.rs:733-754 | the index of the last line carrying a result text, none exactly when no line carries one |
| ClaudeParser.ClaudeResultText | src-tauri/src/adapters/claude.rs:733-754 | none exactly when no line carries a result text; otherwise the text of a line after which no line carries one |
| ClaudeParser.ClaudeResultTextSnoc | src-tauri/src/adapters/claude.rs:735-752 | a later line's result text overrides any earlier one |
| ClaudeParser.ExtractClaudeResultText | src-tauri/src/adapters/claude.rs:733-754 | the scan returns the last result text of the output's lines |
| ClaudeParser.ResultTextOfStream | src-tauri/src/adapters/claude.rs:924-933 | system, assistant and result lines yield the result's text "final answer" |
| ClaudeParser.ClaudeAdapter.constructor | src-tauri/src/adapters/claude.rs:285-296 | a new adapter has no per-run parser state |
| ClaudeParser.ClaudeAdapter.ParseSemanticEvents | src-tauri/src/adapters/claude.rs:285-638 | the run's state (fresh when absent) is advanced over the chunk's lines, stored back under the run id, and the events are those of that run; other runs are untouched |
| ClaudeParser.ClaudeAdapter.ClearSemanticState | src-tauri/src/adapters/claude.rs:640-644 | the run's parser state is forgotten and no other run's |
| CodexCommand.Pairs | src-tauri/src/adapters/codex.rs:117-122 | each value follows its own copy of the flag, in order |
| CodexCommand.ModeArgs | src-tauri/src/adapters/codex.rs:42-62 | the mode part is non-empty exactly for a non-interactive run, and then starts with "exec" |
| CodexCommand.Approval | src-tauri/src/adapters/codex.rs:85-94 | auto-approve always gives "never"; the policy is always one of the four names codex accepts |
| CodexCommand.SandboxName | src-tauri/src/adapters/codex.rs:98-102 | the sandbox is always one of the three names codex accepts |
| CodexCommand.PermissionArgs | src-tauri/src/adapters/codex.rs:84-115 | the permission part is a list of options, each opening with a flag |
| CodexCommand.SearchIffNetworkAndWebSearch | src-tauri/src/adapters/codex.rs:106-114 | with permissions, --search is passed exactly when network access is on and web search is among the tools; approval and sandbox are always passed |
| CodexCommand.SanitizeChar | src-tauri/src/adapters/codex.rs:687-689 | every character becomes a safe one, and a safe one is kept |
| CodexCommand.SanitizeMcpKey | src-tauri/src/adapters/codex.rs:686-696 | the key is always a safe, non-empty name, of the same length as a non-empty name |
| CodexCommand.SanitizeKeepsSafeNames | src-tauri/src/adapters/codex.rs:686-696 | a name that is already safe is its own key |
| CodexCommand.SanitizeMcpKeyIdempotent | src-tauri/src/adapters/codex.rs:686-696 | sanitising a key again changes nothing |
| CodexCommand.SanitizeMergesUnsafeCharacters | src-tauri/src/adapters/codex.rs:686-696 | "my server" and "my.server" get the same key "my_server" |
| CodexCommand.EnvSettings | src-tauri/src/adapters/codex.rs:158-168 | the env settings of a server are --config options |
| CodexCommand.ServerTail | src-tauri/src/adapters/codex.rs:169-186 | a server's settings always end by enabling it under its key |
| CodexCommand.EnvNames | src-tauri/src/adapters/codex.rs:158-159 | only names of the server's own env are written |
| CodexCommand.ServerArgsShape | src-tauri/src/adapters/codex.rs:125-187 | a server contributes nothing exactly when it is disabled; otherwise its settings open with --config and end by enabling it under its sanitised key |
| CodexCommand.McpArgs | src-tauri/src/adapters/codex.rs:124-188 | the MCP part is a list of options |
| CodexCommand.StructuredPart | src-tauri/src/adapters/codex.rs:190-211 | without structured output nothing is added; with it the schema and output paths are passed, the output path, schema and strictness (default false) go to the meta, and both files are to be cleaned up |
| CodexCommand.ImageExtension | src-tauri/src/adapters/codex.rs:216-220 | "png" exactly when the lower-cased mime type mentions png, "jpg" otherwise |
| CodexCommand.PathsOf | src-tauri/src/adapters/codex.rs:213-230 | one file path per image |
| CodexCommand.ImagePathsFailIffUndecodable | src-tauri/src/adapters/codex.rs:213-230 | writing images fails exactly when some image does not decode, and then with the first such image's error |
| CodexCommand.NoComplaintIffNoneRaised | src-tauri/src/adapters/codex.rs:213-230 | the scan of a list finds no complaint exactly when no element raises one |
| CodexCommand.FirstComplaintIsFirstRaised | src-tauri/src/adapters/codex.rs:213-230 | a complaint found is that of the first element that raises one |
| CodexCommand.AddedDirs | src-tauri/src/adapters/codex.rs:232-241 | the directory part opens with --add-dir |
| CodexCommand.AddedDirsArePairs | src-tauri/src/adapters/codex.rs:232-241 | the arguments are --add-dir pairs for the added directories, and the set holds exactly those |
| CodexCommand.DirsAddedAreDistinct | src-tauri/src/adapters/codex.rs:232-241 | no image directory is added twice |
| CodexCommand.DirsAddedAreParents | src-tauri/src/adapters/codex.rs:232-241 | every image's parent directory is added, and nothing else is |
| CodexCommand.OptionArgs | src-tauri/src/adapters/codex.rs:83-211 | the harness options are a list of options |
| CodexCommand.ImageArgs | src-tauri/src/adapters/codex.rs:243-248 | the image part is a list of options |
| CodexCommand.HarnessPart | src-tauri/src/adapters/codex.rs:83-249 | a successful harness part is a list of options |
| CodexCommand.FlagPair | src-tauri/src/adapters/codex.rs:255-265 | false adds nothing; any other supported value adds its --key first |
| CodexCommand.FlagArgs | src-tauri/src/adapters/codex.rs:251-273 | successful optional flags are a list of options |
| CodexCommand.FlagArgsFailIffUnsupported | src-tauri/src/adapters/codex.rs:251-273 | the flags fail exactly when a passed-on flag has a value that is not a boolean, number or string, and then name the first such flag |
| CodexCommand.FlagArgsNameEveryFlag | src-tauri/src/adapters/codex.rs:251-265 | every passed-on flag that is not false appears as --key |
| CodexCommand.FlagArgsSkipInternal | src-tauri/src/adapters/codex.rs:252-254 | an internal flag's value never affects the arguments |
| CodexCommand.FlagArgsIgnoreKey | src-tauri/src/adapters/codex.rs:252-254 | changing an internal flag, present or not, does not change the arguments |
| CodexCommand.PromptArgs | src-tauri/src/adapters/codex.rs:280-291 | an interactive run has no prompt argument; a non-interactive one ends with the prompt, preceded by "--" when images are attached |
| CodexCommand.CommandEnv | src-tauri/src/adapters/codex.rs:275-278 | CODEX_NON_INTERACTIVE=1 is set exactly for a non-interactive run, and nothing else |
| CodexCommand.BlockedProfileRefuses | src-tauri/src/adapters/codex.rs:34-36 | a blocked profile refuses with the blocked message |
| CodexCommand.CommandArgsShape | src-tauri/src/adapters/codex.rs:38-291 | the arguments are the mode part, then options only, then the prompt part |
| CodexCommand.ExecIffNonInteractive | src-tauri/src/adapters/codex.rs:42-62 | the command starts with "exec" exactly when the run is non-interactive |
| CodexCommand.NonInteractiveFrame | src-tauri/src/adapters/codex.rs:42-57 | a non-interactive command starts with exec and ends with the prompt (after "--" with images); continuing resumes --last, otherwise a resume id resumes that session |
| CodexCommand.JsonEventsRequested | src-tauri/src/adapters/codex.rs:73-81 | a non-interactive run with no output format or a json, stream-json or text format passes --json |
| CodexCommand.CommandHarness | src-tauri/src/adapters/codex.rs:83-249 | a built command with harness options contains the harness part and carries its meta |
| CodexCommand.HarnessPartPassesOptions | src-tauri/src/adapters/codex.rs:84-211 | permissions pass approval and sandbox; structured output passes the schema and output flags and cleans up both files |
| CodexCommand.HarnessOptionsArePassed | src-tauri/src/adapters/codex.rs:1014-1043 | the built command passes approval and sandbox for permissions and the schema and output flags for structured output, cleaning up both files |
| CodexCommand.ImagesAreCleanedUp | src-tauri/src/adapters/codex.rs:243-248 | every attached image's file is to be cleaned up |
| CodexCommand.ResumeCommandAccepted | src-tauri/src/adapters/codex.rs:963-978 | an unblocked run with the internal resume id "session-123" and supported flags builds |
| CodexCommand.SupportedFlagsAccepted | src-tauri/src/adapters/codex.rs:251-273 | flags whose passed-on values are all booleans, numbers or strings are accepted |
| CodexCommand.AcceptedWithoutHarness | src-tauri/src/adapters/codex.rs:251-293 | with no harness and an unblocked profile, the command is built exactly when the flags are accepted |
| CodexCommand.FlagSessionId | src-tauri/src/adapters/codex.rs:991-998 | the internal resume id "session-123" is the session to resume, and the run does not continue the last one |
| CodexCommand.PushEnv | src-tauri/src/adapters/codex.rs:158-168 | the loop writes exactly the server's env settings |
| CodexCommand.PushServer | src-tauri/src/adapters/codex.rs:125-187 | the loop body writes exactly the server's settings |
| CodexCommand.CollectImages | src-tauri/src/adapters/codex.rs:213-230 | the loop gives the image paths, or the first decode error |
| CodexCommand.PushImageDirs | src-tauri/src/adapters/codex.rs:232-241 | the loop adds each distinct image directory once, in order |
| CodexCommand.PushFlags | src-tauri/src/adapters/codex.rs:251-273 | the loop gives the flag arguments, or the first unsupported flag's error |
| CodexCommand.PushMcp | src-tauri/src/adapters/codex.rs:124-188 | the loop gives the settings of every enabled server in order |
| CodexCommand.PushHarness | src-tauri/src/adapters/codex.rs:83-249 | the harness block gives the harness part or its error |
| CodexCommand.BuildCommand | src-tauri/src/adapters/codex.rs:28-301 | the built command is the one the specification of the command gives, whose properties are the lemmas above |
| ClaudeCommand.ModeArgs | src-tauri/src/adapters/claude.rs:47-66 | the mode part is non-empty exactly for a non-interactive run: "-p", then "--continue" when continuing, then "--resume" and the id when there is one, and nothing else |
| ClaudeCommand.ModelArgs | src-tauri/src/adapters/claude.rs:68-71 | "--model" and the model when one is chosen, nothing otherwise |
| ClaudeCommand.OutputFormat | src-tauri/src/adapters/claude.rs:83-94 | "json" exactly when structured output is requested without stream input, "stream-json" otherwise |
| ClaudeCommand.FormatArgs | src-tauri/src/adapters/claude.rs:96-103 | nothing for an interactive run; otherwise --output-format with the format, and --verbose and --include-partial-messages exactly for stream-json |
| ClaudeCommand.LimitArgs | src-tauri/src/adapters/claude.rs:106-115 | no limits add nothing; a turn limit comes first as --max-turns, a budget last as --max-budget-usd |
| ClaudeCommand.SystemPromptArgs | src-tauri/src/adapters/claude.rs:117-124 | the system prompt comes first and the appended prompt last, each under its flag; neither adds nothing |
| ClaudeCommand.CliToolName | src-tauri/src/adapters/claude.rs:779-792 | every tool name is non-empty, has no comma and does not look like an option |
| ClaudeCommand.CliToolNameInjective | src-tauri/src/adapters/claude.rs:781-791 | different tools have different names |
| ClaudeCommand.ToolNames | src-tauri/src/adapters/claude.rs:779-793 | one name per tool, in order |
| ClaudeCommand.Dedup | src-tauri/src/adapters/claude.rs:794-803 | the same names without repeats |
| ClaudeCommand.DedupKeepsDistinct | src-tauri/src/adapters/claude.rs:794-803 | names without repeats are kept as they are, in order |
| ClaudeCommand.DedupIdempotent | src-tauri/src/adapters/claude.rs:794-803 | removing repeats twice is removing them once |
| ClaudeCommand.ToolList | src-tauri/src/adapters/claude.rs:778-805 | the list is empty exactly when there are no tools |
| ClaudeCommand.ToolListNamesEachToolOnce | src-tauri/src/adapters/claude.rs:778-805 | splitting the list at commas gives each requested tool's name exactly once and no other name |
| ClaudeCommand.ToolListOfRepeats | src-tauri/src/adapters/claude.rs:778-805 | Shell, FileRead, Shell give "Bash,Read" |
| ClaudeCommand.ToolListIsNotAnOption | src-tauri/src/adapters/claude.rs:126-130 | a non-empty tool list never starts with "-" |
| ClaudeCommand.BypassArgs | src-tauri/src/adapters/claude.rs:134-137 | permissions are bypassed exactly when auto-approve is on |
| ClaudeCommand.ToolArgsShape | src-tauri/src/adapters/claude.rs:126-145 | tools pass --tools with their list, --allowedTools exactly with permissions and bypass exactly with auto-approve; without tools only auto-approve adds the bypass; an empty tool list adds nothing |
| ClaudeCommand.StreamArgs | src-tauri/src/adapters/claude.rs:147-151 | the input-format part is present exactly when stream input is used |
| ClaudeCommand.PipedParts | src-tauri/src/adapters/claude.rs:812-816 | piped content joins the text exactly when it is not blank |
| ClaudeCommand.StreamTextBlank | src-tauri/src/adapters/claude.rs:810-818 | the joined text is blank exactly when the prompt is blank and nothing is piped |
| ClaudeCommand.ImageBlocks | src-tauri/src/adapters/claude.rs:825-841 | one image block per image, in order |
| ClaudeCommand.Content | src-tauri/src/adapters/claude.rs:809-841 | the content is the text block when the text is not blank, followed by one block per image |
| ClaudeCommand.StreamJsonInputPresentIff | src-tauri/src/adapters/claude.rs:807-857 | a stream message is written exactly when there are harness options and a non-blank prompt, piped content or an image, and it is the rendered user message with that content and a newline |
| ClaudeCommand.BuildStreamJsonInput | src-tauri/src/adapters/claude.rs:807-857 | the loops give the stream message of the specification |
| ClaudeCommand.PushImageBlocks | src-tauri/src/adapters/claude.rs:825-841 | the loop appends one image block per image, in order |
| ClaudeCommand.OptField | src-tauri/src/adapters/claude.rs:157-174 | a present value is set under its key; an absent one leaves the object alone |
| ClaudeCommand.ServerObject | src-tauri/src/adapters/claude.rs:156-174 | a server's object has exactly the fields the server sets, among command, args, env, url, headers and type |
| ClaudeCommand.ServerMapNamesEveryServer | src-tauri/src/adapters/claude.rs:154-176 | the config names exactly the servers given |
| ClaudeCommand.ServerMapLastWins | src-tauri/src/adapters/claude.rs:175 | the last server of a name decides that name's entry |
| ClaudeCommand.McpArgs | src-tauri/src/adapters/claude.rs:153-182 | --mcp-config and the rendered config are passed exactly when MCP options are given |
| ClaudeCommand.BuildServerMap | src-tauri/src/adapters/claude.rs:154-176 | the loop gives the server map of the specification |
| ClaudeCommand.StructuredPart | src-tauri/src/adapters/claude.rs:184-200 | structured output always records its schema and strictness; without stream input it passes --json-schema with the schema file and cleans that file up; with stream input it passes nothing |
| ClaudeCommand.Stdin | src-tauri/src/adapters/claude.rs:147-151 | nothing is written to stdin without stream input |
| ClaudeCommand.HarnessArgsPassOptions | src-tauri/src/adapters/claude.rs:105-201 | stream input, tools, allowed tools, bypass, MCP config and the schema each reach the arguments when their option asks for them |
| ClaudeCommand.HarnessSegments | src-tauri/src/adapters/claude.rs:126-200 | every argument of the tool, stream, MCP and schema parts is among the harness arguments |
| ClaudeCommand.FlagPair | src-tauri/src/adapters/claude.rs:207-231 | false adds nothing; other values add --key, a string as it is, an array or object rendered |
| ClaudeCommand.FlagArgsFailIffNull | src-tauri/src/adapters/claude.rs:203-239 | the flags fail exactly when a passed-on flag is null, and then name the first such flag |
| ClaudeCommand.FlagArgsNameEveryFlag | src-tauri/src/adapters/claude.rs:203-231 | every passed-on flag that is not false appears as --key |
| ClaudeCommand.PushFlags | src-tauri/src/adapters/claude.rs:203-239 | the loop gives the flag arguments, or the first null flag's error |
| ClaudeCommand.PromptArgs | src-tauri/src/adapters/claude.rs:246-248 | the prompt is the last argument exactly for a non-interactive run without stream input |
| ClaudeCommand.CommandEnv | src-tauri/src/adapters/claude.rs:241-244 | CLAUDE_NON_INTERACTIVE=1 is set exactly for a non-interactive run, and nothing else |
| ClaudeCommand.BlockedProfileRefuses | src-tauri/src/adapters/claude.rs:39-41 | a blocked profile refuses with the blocked message |
| ClaudeCommand.CommandFailsIffNullFlag | src-tauri/src/adapters/claude.rs:33-258 | an unblocked command fails exactly when some passed-on optional flag is null |
| ClaudeCommand.Assembled | src-tauri/src/adapters/claude.rs:43-257 | a built command is the head, the harness part, the flags and the prompt in that order, with its stdin, meta, environment, program and directory |
| ClaudeCommand.NonInteractiveHead | src-tauri/src/adapters/claude.rs:47-62 | a non-interactive command starts with -p, then --continue when continuing, then --resume and the id |
| ClaudeCommand.OutputFormatPassed | src-tauri/src/adapters/claude.rs:96-103 | a non-interactive command passes its output format, with --verbose and --include-partial-messages for stream-json |
| ClaudeCommand.HarnessOptionsArePassed | src-tauri/src/adapters/claude.rs:105-201 | every harness argument reaches the built command |
| ClaudeCommand.PromptPlacement | src-tauri/src/adapters/claude.rs:147-151 | with stream input the prompt goes to stdin as the stream message, absent only when prompt, piped content and images are all empty; otherwise stdin is empty and a non-interactive command ends with the prompt |
| ClaudeCommand.StructuredOutputPassed | src-tauri/src/adapters/claude.rs:184-200 | structured output records schema and strictness; without stream input the format is json, the schema file is passed and is the only file cleaned up; with it nothing is cleaned up |
| ClaudeCommand.ResumeRunAccepted | src-tauri/src/adapters/claude.rs:906-922 | an unblocked run with only the internal resume id builds |
| ClaudeCommand.ResumeRunArgs | src-tauri/src/adapters/claude.rs:906-922 | that run passes --resume session-abc and stream-json output with --verbose |
| ClaudeCommand.StreamRunAccepted | src-tauri/src/adapters/claude.rs:958-984 | an unblocked run without optional flags builds |
| ClaudeCommand.StreamRunArgs | src-tauri/src/adapters/claude.rs:958-984 | a run with tools, permissions and piped content passes stream input, tools, allowed tools and the permission mode |
| ClaudeCommand.StreamTestHarnessOptions | src-tauri/src/adapters/claude.rs:958-984 | the harness part of that run holds those flags |
| ClaudeCommand.StreamRunWritesStdin | src-tauri/src/adapters/claude.rs:958-984 | that run writes a stream message to stdin |
| ClaudeCommand.ToClaudeTools | src-tauri/src/adapters/claude.rs:778-805 | the loop gives the tool list of the specification |
| ClaudeCommand.PushTools | src-tauri/src/adapters/claude.rs:126-145 | the block gives the tool part |
| ClaudeCommand.PushMcp | src-tauri/src/adapters/claude.rs:153-182 | the block gives the MCP part |
| ClaudeCommand.PushHarness | src-tauri/src/adapters/claude.rs:105-201 | the harness block gives the harness arguments, stdin and meta |
| ClaudeCommand.BuildCommand | src-tauri/src/adapters/claude.rs:33-258 | the built command is the one the specification of the command gives, whose properties are the lemmas above |
| WorkspaceIds.SanitizeChar | src-tauri/src/workspace.rs:2267-2273 | every character becomes a safe one, and a character is kept exactly when it is safe |
| WorkspaceIds.SanitizeChars | src-tauri/src/workspace.rs:2266-2274 | the mapped text has one sanitised character per input character |
| WorkspaceIds.SanitizeComponentIsClean | src-tauri/src/workspace.rs:2265-2280 | a sanitised component is non-empty, holds only safe characters and neither starts nor ends with '_' |
| WorkspaceIds.CleanComponentIsFixed | src-tauri/src/workspace.rs:2265-2280 | a component that is already clean is its own sanitisation |
| WorkspaceIds.SanitizeComponentIdempotent | src-tauri/src/workspace.rs:2265-2280 | sanitising twice is sanitising once |
| WorkspaceIds.SanitizeComponentFallback | src-tauri/src/workspace.rs:2275-2279 | a text with no letter, digit or '-' becomes "item" |
| WorkspaceIds.SanitizeComponentLoop | src-tauri/src/workspace.rs:2265-2280 | the loop gives the sanitised component, which is clean |
| WorkspaceIds.FnvStep | src-tauri/src/workspace.rs:488-489 | one step keeps the hash a 64-bit value |
| WorkspaceIds.Fnv1a | src-tauri/src/workspace.rs:485-492 | the hash is a 64-bit value |
| WorkspaceIds.Fnv1aTestVectors | src-tauri/src/workspace.rs:485-492 | the hash of "" is the FNV-1a offset basis and the hash of "a" is 0xaf63dc4c8601ec8c, the published FNV-1a values |
| WorkspaceIds.StableHash64 | src-tauri/src/workspace.rs:485-492 | the loop computes the 64-bit FNV-1a hash with wrapping multiplication |
| WorkspaceIds.HexDigits | src-tauri/src/workspace.rs:471 | the rendering has exactly the given width, all hexadecimal digits |
| WorkspaceIds.HexDigitsValue | src-tauri/src/workspace.rs:471 | the digits read back as the value modulo 16 to the width |
| WorkspaceIds.HexDigitsRoundTrip | src-tauri/src/workspace.rs:471 | a value that fits reads back from its digits unchanged |
| WorkspaceIds.Hex16 | src-tauri/src/workspace.rs:471 | a hash is rendered as 16 digits |
| WorkspaceIds.Hex16Injective | src-tauri/src/workspace.rs:471 | different 64-bit hashes render differently |
| WorkspaceIds.ImportBaseId | src-tauri/src/workspace.rs:471 | the base id is "atom_import_" followed by 16 hexadecimal digits, 28 characters |
| WorkspaceIds.SuffixedIdInjective | src-tauri/src/workspace.rs:476 | different suffix numbers give different ids |
| WorkspaceIds.TriedIds | src-tauri/src/workspace.rs:475-481 | the fallback ids base_1 to base_n are all among those tried |
| WorkspaceIds.TriedIdsCount | src-tauri/src/workspace.rs:475-481 | n fallback ids are n distinct ids, so the search must end |
| WorkspaceIds.NextImportedAtomId | src-tauri/src/workspace.rs:470-483 | the id is never taken; it is the base id when that is free, otherwise the first free base_n |
| AtomModels.NewTaskFacet | src-tauri/src/workspace.rs:2205-2210 | the facet has the given title, status and priority and every optional field unset |
| AtomModels.EffectiveLayer | src-tauri/src/workspace.rs:3125-3130 | a task's own layer wins when set; no layer means no attention facet either |
| AtomModels.EffectiveCommitment | src-tauri/src/workspace.rs:3140-3145 | a task's own commitment wins when set; no commitment means no commitment facet either |
| AtomText.FirstNonBlank | src-tauri/src/workspace.rs:2006-2008 | the line found is one of the lines and is not blank; nothing is found exactly when every line is blank |
| AtomText.TrimBullets | src-tauri/src/workspace.rs:2014 | the result is a suffix of the text that does not start with '-' or '*' |
| AtomText.Take | src-tauri/src/workspace.rs:2016-2018 | a prefix of at most n characters, the whole text when it is short enough |
| AtomText.DeriveTitle | src-tauri/src/workspace.rs:2005-2019 | a title is at most 120 characters |
| AtomText.TitleOfTaskLine | src-tauri/src/workspace.rs:2005-2019 | the title of a "- [ ] text" or "- [x] text" line is its text, cut to 120 characters |
| AtomText.BlankTextIsUntitled | src-tauri/src/workspace.rs:2005-2019 | a blank text is titled "Untitled task" |
| AtomText.TaskMarker | src-tauri/src/workspace.rs:627-631 | the marker is six characters, a dash first and a space last |
| AtomText.ClassifyText | src-tauri/src/workspace.rs:2021-2050 | a heuristic classification with a reason: task exactly for a task marker (88%), note exactly for a heading or quote that is not a task (72%), meta otherwise (55%) |
| AtomText.TaskLikeIsBulletLike | src-tauri/src/workspace.rs:2023-2026 | the checkbox markers add nothing: a text is task-like exactly when it starts with "- " or "* " |
| AtomText.JoinedBody | src-tauri/src/workspace.rs:2056-2060 | an empty base gives the value alone; otherwise base and value are separated by one newline |
| AtomText.ApplyBodyPatch | src-tauri/src/workspace.rs:2052-2075 | replace sets the value; append ends with the value after the old body; prepend starts with the value before the old body; either on no body gives the value; an unknown mode keeps the body |
| AtomText.AppendMirrorsPrepend | src-tauri/src/workspace.rs:2054-2072 | appending b to a and prepending a to b give the same body |
| AtomText.BodyPatchEdgeCases | src-tauri/src/workspace.rs:2052-2075 | replacing twice is replacing once, and appending to no body is appending to an empty one |
| TaskLines.ParseTaskLine | src-tauri/src/workspace.rs:90-92 | a recognised task's text is non-empty and trimmed, and holds no newline when the line holds none |
| TaskLines.ParseBulleted | src-tauri/src/workspace.rs:91 | after the bullet, a recognised task's text is non-empty and trimmed |
| TaskLines.ParseBoxed | src-tauri/src/workspace.rs:91 | after the box, a recognised task's text is non-empty and trimmed |
| TaskLines.BoxedWellFormed | src-tauri/src/workspace.rs:91 | a box, whitespace and trimmed text followed by blanks is recognised with that text, ticked unless the box is blank |
| TaskLines.BulletedWellFormed | src-tauri/src/workspace.rs:91 | a bullet and whitespace before a box are skipped |
| TaskLines.ParseWellFormedLine | src-tauri/src/workspace.rs:90-92 | every line of the pattern's shape is recognised with its text and tick |
| TaskLines.ParsedLineShape | src-tauri/src/workspace.rs:90-92 | every recognised line has the pattern's shape, with the text and tick it reports |
| TaskLines.BoxedShape | src-tauri/src/workspace.rs:91 | a recognised box part is a box, whitespace, the text and trailing blanks |
| TaskLines.BulletedShape | src-tauri/src/workspace.rs:91 | a recognised bulleted part is a bullet, whitespace and a recognised box part |
| ObsidianTasks.TaskOf | src-tauri/src/workspace.rs:609-638 | a line yields a task exactly when it is a task line; that task cites the file and line, its raw text is the canonical "- [ ] " or "- [x] " marker and the text, it is Done exactly when ticked and Todo otherwise, and its title is the text cut to 120 characters |
| ObsidianTasks.Numbered | src-tauri/src/workspace.rs:597-606 | at most one result per line scanned |
| ObsidianTasks.NumberedSources | src-tauri/src/workspace.rs:597-606 | every result comes from one scanned line, numbered from 1 |
| ObsidianTasks.NumberedComplete | src-tauri/src/workspace.rs:597-606 | every scanned line that yields a task contributes it |
| ObsidianTasks.NumberedSplit | src-tauri/src/workspace.rs:597-606 | scanning two adjacent ranges is scanning their union, in order |
| ObsidianTasks.FrontmatterClose | src-tauri/src/workspace.rs:598-603 | the frontmatter ends at the first "---" or "..." line after it opens, or runs to the end when there is none |
| ObsidianTasks.BodyResultsSources | src-tauri/src/workspace.rs:581-607 | every imported task comes from a line outside the frontmatter |
| ObsidianTasks.BodyResultsComplete | src-tauri/src/workspace.rs:581-607 | every task line outside the frontmatter is imported |
| ObsidianTasks.ParseImportableTasks | src-tauri/src/workspace.rs:581-607 | the scan gives all tasks of the note's lines outside its frontmatter, in order |
| ObsidianTasks.ScanLines | src-tauri/src/workspace.rs:586-606 | the loop with its frontmatter flag gives the results of the lines outside the frontmatter |
| ObsidianTasks.ShortTaskOf | src-tauri/src/workspace.rs:609-638 | a canonical task line with a short text is imported as itself, titled by its text |
| ObsidianTasks.InboxNoteTasks | src-tauri/src/workspace.rs:6733 | the inbox note of the sync test yields "call client" as Todo from line 5 and "shipped release" as Done from line 6, and nothing from its frontmatter |
| TaskImport.BaseTask | src-tauri/src/workspace.rs:2200-2212 | an existing task facet is kept; otherwise a new one is titled from the raw text, is Todo with priority 3 and has no dates |
| TaskImport.UpsertTaskFacet | src-tauri/src/workspace.rs:2200-2212 | the atom gains a task facet kind once and a task facet, and nothing else changes |
| TaskImport.ApplyTaskFields | src-tauri/src/workspace.rs:438-456 | that task takes the candidate's title and status; it has a completion time exactly when Done, keeping an existing one; changed exactly when that task differs; nothing else changes |
| TaskImport.ApplyArchiveStamp | src-tauri/src/workspace.rs:458-466 | the atom has an archive time exactly when Archived, keeping an existing one; changed exactly when it differs |
| TaskImport.ApplyRecordFields | src-tauri/src/workspace.rs:417-436 | the atom takes the candidate's raw text, the Import source, a task kind and imported governance citing the candidate; changed exactly when the atom differs |
| TaskImport.ApplyImportedTaskCandidate | src-tauri/src/workspace.rs:412-468 | the candidate is applied; a reported change is a real change and an unreported one at most adds the default task facet; an atom that already matches is unchanged; completion and archive times keep an existing stamp and otherwise take now; nothing else changes |
| TaskImport.ReimportIsUnchanged | src-tauri/src/workspace.rs:412-468 | applying the same candidate a second time, at any later time, reports no change and leaves the atom as it was |
| AtomState.PatchOr | src-tauri/src/workspace.rs:2079-2087 | a patch value wins over the existing one; no patch keeps it |
| AtomState.MergeAtomFacets | src-tauri/src/workspace.rs:2077-2089 | merging an empty patch, or into empty facets, changes nothing |
| AtomState.MergedFacetsAreUnion | src-tauri/src/workspace.rs:2077-2089 | the merged atom carries exactly the facets the existing atom or the patch carries |
| AtomState.MergeAtomFacetsCompose | src-tauri/src/workspace.rs:2077-2089 | merging two patches in turn is merging their merge once |
| AtomState.MergeAtomFacetsIdempotent | src-tauri/src/workspace.rs:2077-2089 | merging the same patch twice is merging it once |
| AtomState.MergeAtomRelations | src-tauri/src/workspace.rs:2091-2098 | a relation is set after the merge exactly when the patch or the existing record sets it, and the thread list is kept when the patch has none |
| AtomState.MergeAtomRelationsProperties | src-tauri/src/workspace.rs:2091-2098 | an empty patch changes nothing, a set relation is never cleared, and merging the same patch twice is merging it once |
| AtomState.MergeFullRelationsPatch | src-tauri/src/workspace.rs:2091-2098 | a patch setting every relation replaces them all |
| AtomState.AtomStatus | src-tauri/src/workspace.rs:2214-2222 | a task's status when there is a task; otherwise Archived exactly when the atom is archived, else Todo |
| AtomState.BlockLifecycleOf | src-tauri/src/workspace.rs:2807-2828 | archived exactly when the atom or its task is archived; completed exactly when not archived and that task is Done; active otherwise |
| AtomState.LifecycleFollowsStatus | src-tauri/src/workspace.rs:2807-2828 | the lifecycle is archived for an archived atom and otherwise follows the atom's status |
| AtomState.LifecycleNameInjective | src-tauri/src/workspace.rs:2807-2828 | the three lifecycle names "active", "completed" and "archived" are distinct, so the name determines the lifecycle |
| AtomState.WholeMinutesThreshold | src-tauri/src/workspace.rs:5748-5749 | a dwell reaches 90 whole minutes exactly when it reaches 5400 seconds |
| AtomState.ShouldPreserveDwell | src-tauri/src/workspace.rs:5736-5762 | a preserved dwell is that of a non-urgent task moving to another layer whose dwell started under 90 minutes ago |
| AtomState.ShouldPreserveDwellIff | src-tauri/src/workspace.rs:5736-5762 | the dwell is kept exactly when that task changes layer, a dwell has started less than 90 minutes ago, and that task is not urgent |
| AtomState.SameLayerNeverPreserves | src-tauri/src/workspace.rs:5740-5742 | staying in the same layer never keeps the dwell |
| AtomFilter.Retain | src-tauri/src/workspace.rs:3048 | keeping by a predicate never adds elements |
| AtomFilter.RetainMembers | src-tauri/src/workspace.rs:3048 | an element is kept exactly when it was there and passes the predicate |
| AtomFilter.RetainIdempotent | src-tauri/src/workspace.rs:3048 | filtering twice by the same predicate is filtering once |
| AtomFilter.RetainAll | src-tauri/src/workspace.rs:3048 | when every element passes, the sequence is kept whole and in order |
| AtomFilter.DueDay | src-tauri/src/workspace.rs:3155-3164 | only an atom with a task has a due day |
| AtomFilter.ApplyAtomFilter | src-tauri/src/workspace.rs:3031-3195 | the filter never adds atoms |
| AtomFilter.ApplyAtomFilterMembers | src-tauri/src/workspace.rs:3031-3195 | an atom survives exactly when it was listed and passes every criterion of the filter |
| AtomFilter.ApplyAtomFilterIdempotent | src-tauri/src/workspace.rs:3031-3195 | filtering twice with the same filter is filtering once |
| AtomFilter.ArchivedHiddenByDefault | src-tauri/src/workspace.rs:3032-3052 | unless archived atoms are asked for, none survives |
| AtomFilter.NoFilterKeepsUnarchived | src-tauri/src/workspace.rs:3032-3035 | with no filter exactly the unarchived atoms survive, all of them in order when none is archived |
| AtomFilter.EverythingFilterKeepsAll | src-tauri/src/workspace.rs:3037-3195 | a filter that includes archived atoms and sets no criterion keeps every atom in order |
| AtomFilter.StatusFilterNeedsTask | src-tauri/src/workspace.rs:3059-3066 | under a status filter only atoms with a task in one of the statuses survive |
| AtomFilter.LabelMatchIgnoresCase | src-tauri/src/workspace.rs:3086-3103 | labels equal up to ASCII case match |
| AtomFilter.UnparsableDueBoundsIgnored | src-tauri/src/workspace.rs:3045-3046 | due bounds that do not parse restrict nothing |
| AtomFilter.DueFromBound | src-tauri/src/workspace.rs:3154-3172 | under a lower due bound only atoms due on or after it survive |
| AtomOrder.Ordering.Reverse | src-tauri/src/workspace.rs:3254-3258 | reversing swaps Less and Greater and keeps Equal |
| AtomOrder.CompareInts | src-tauri/src/workspace.rs:3207 | Less exactly when the first is smaller, Equal exactly when they are equal |
| AtomOrder.CompareStrings | src-tauri/src/workspace.rs:3240-3251 | Less exactly when the first title comes first lexicographically: a proper prefix, or smaller at the first place they differ |
| AtomOrder.LexLessTail | src-tauri/src/workspace.rs:3240-3251 | after a common first character the lexicographic order is decided by the rest |
| AtomOrder.CompareOptionalDatetime | src-tauri/src/workspace.rs:3268-3270 | Equal exactly when both are the same; Less exactly when the first is present and the second absent or later |
| AtomOrder.AttentionRank | src-tauri/src/workspace.rs:3272-3287 | 99 exactly when the atom has no layer, otherwise a rank from 0 to 4 |
| AtomOrder.CompareBySorts | src-tauri/src/workspace.rs:3203-3265 | two atoms tie only when they were updated at the same time |
| AtomOrder.CompareAtoms | src-tauri/src/workspace.rs:3202-3266 | two atoms tie only when they were updated at the same time |
| AtomOrder.CompareStringsAntisymmetric | src-tauri/src/workspace.rs:3240-3251 | comparing titles the other way round reverses the result |
| AtomOrder.CompareStringsEqual | src-tauri/src/workspace.rs:3240-3251 | titles compare equal exactly when they are equal |
| AtomOrder.CompareStringsChain | src-tauri/src/workspace.rs:3240-3251 | the title order is transitive |
| AtomOrder.CompareFieldAntisymmetric | src-tauri/src/workspace.rs:3205-3252 | every sort field compares antisymmetrically |
| AtomOrder.CompareFieldChain | src-tauri/src/workspace.rs:3205-3252 | every sort field compares transitively |
| AtomOrder.CompareBySortsAntisymmetric | src-tauri/src/workspace.rs:3203-3265 | a list of sorts compares antisymmetrically |
| AtomOrder.CompareBySortsChain | src-tauri/src/workspace.rs:3203-3265 | a list of sorts compares transitively |
| AtomOrder.CompareAtomsIsTotalPreorder | src-tauri/src/workspace.rs:3197-3266 | the comparator handed to the sort is antisymmetric, reflexive and transitive, as a sort requires |
| AtomOrder.UnknownSortsOrderByRecency | src-tauri/src/workspace.rs:3251-3265 | sorts on unknown fields change nothing: the most recently updated atom comes first |
| AtomOrder.DueBeforeUndue | src-tauri/src/workspace.rs:3268-3270 | sorting by hard due date ascending puts an atom with a due date before one without |
| Pagination.ParseCursor | src-tauri/src/workspace.rs:3324-3331 | no cursor is offset 0; a cursor is accepted exactly when it is a decimal number that fits, giving its value, and is otherwise refused with "Invalid cursor '<cursor>': expected numeric offset" |
| Pagination.PageSize | src-tauri/src/workspace.rs:3306 | the page size is between 1 and 500, 100 by default, and a limit within the range is kept |
| Pagination.Paginate | src-tauri/src/workspace.rs:3303-3322 | pagination fails exactly when the cursor is refused, with its error; otherwise it is the page at the cursor's offset |
| Pagination.PageAtContents | src-tauri/src/workspace.rs:3308-3321 | a page holds the next page-size items from the offset, in order; it has a next cursor exactly when items remain, naming the offset after the page; the total is the item count |
| Pagination.PageThenRest | src-tauri/src/workspace.rs:3308-3310 | the page followed by the items after it are all items from the offset |
| Pagination.PagePastEnd | src-tauri/src/workspace.rs:3308-3316 | an offset at or past the end gives an empty last page |
| Pagination.NextCursorRoundTrip | src-tauri/src/workspace.rs:3303-3331 | a page's next cursor parses back to the offset right after the page |
| Pagination.PagesFromCoverAll | src-tauri/src/workspace.rs:3303-3322 | following next cursors from an offset visits every later item once, in order |
| Pagination.PaginationWalksEverything | src-tauri/src/workspace.rs:3303-3322 | starting without a cursor succeeds and the pages together are the whole list |
| Pagination.PaginateExamples | src-tauri/src/workspace.rs:3303-3331 | "abc" is refused as a cursor, a limit of 0 gives one item, 1000 gives at most 500, and the last partial page has no next cursor |
| Chunking.ChunkText | src-tauri/src/workspace.rs:5959-5979 | the loop gives the chunks of the packing specification |
| Chunking.StepKeeps | src-tauri/src/workspace.rs:5962-5971 | packing one more word keeps every finished chunk within the target (unless it is a single word), leaves a non-empty current chunk, and the text so far is the old text with the word appended after a space |
| Chunking.FinishKeeps | src-tauri/src/workspace.rs:5972-5977 | finishing gives at least one chunk, whose space-joined text is the text so far, with every multi-word chunk within the target and no empty chunk once anything was packed |
| Chunking.ChunkFoldProps | src-tauri/src/workspace.rs:5962-5977 | packing a run of words keeps the chunks within the target and their joined text is the text so far followed by the words |
| Chunking.ChunkTextProperties | src-tauri/src/workspace.rs:5959-5979 | there is always a chunk; the chunks joined by spaces are the input's words joined by spaces; every chunk of more than one word is within the target; the result is a single empty chunk exactly when the input is blank |
| Idempotency.RequireIdempotencyKey | src-tauri/src/workspace.rs:2147-2156 | a key is accepted exactly when present and not blank, and is then the trimmed key; otherwise IDEMPOTENCY_REQUIRED names the operation |
| Idempotency.IdempotentCall | src-tauri/src/workspace.rs:2100-2145 | a missing or blank key fails with IDEMPOTENCY_REQUIRED and stores nothing; any failure stores nothing; the store only ever gains the one new slot of the trimmed key, with the payload and the result, and never overwrites a record |
| Idempotency.CallWithKey | src-tauri/src/workspace.rs:2120-2145 | a failure stores nothing; a change to the store is the one new record for the slot, holding the payload and the result |
| Idempotency.IdempotencyStore.constructor | src-tauri/src/workspace.rs:2115-2118 | a new store has no records |
| Idempotency.IdempotencyStore.WithIdempotency | src-tauri/src/workspace.rs:2100-2145 | the call's result and the new records are those the replay specification gives for the old records |
| Idempotency.FailureStoresNothing | src-tauri/src/workspace.rs:2136-2144 | a first call that fails stores nothing and returns the failure; one that succeeds stores the payload and result under its slot |
| Idempotency.ReplayReturnsFirstResult | src-tauri/src/workspace.rs:2126-2134 | once a key succeeded, calling again with the same payload returns the first result, whatever the operation would do now, and stores nothing |
| Idempotency.ChangedPayloadConflicts | src-tauri/src/workspace.rs:2126-2132 | once a key succeeded, a different payload under it fails with IDEMPOTENCY_CONFLICT naming the key and stores nothing |
| Idempotency.StoredAfterSuccess | src-tauri/src/workspace.rs:2136-2144 | after a success the slot holds the payload and the result returned |
| Idempotency.KeyWhitespaceIgnored | src-tauri/src/workspace.rs:2147-2149 | a key padded with whitespace acts as the trimmed key |
| Idempotency.SanitisedKeysShareARecord | src-tauri/src/workspace.rs:2115-2120 | the keys "a b" and "a_b" share one record, since both sanitise to "a_b" |
| Idempotency.ReplayThroughStore | src-tauri/src/workspace.rs:6363-6377 | two calls through the store with the same key and payload both return the first result |
| JsonEntities.AsI64 | src-tauri/src/workspace.rs:5985 | a value reads as an i64 exactly when it is a number within the i64 range |
| JsonEntities.Revision | src-tauri/src/workspace.rs:6148-6151 | a stored revision is an i64, 0 when absent |
| JsonEntities.PopExpectedRevision | src-tauri/src/workspace.rs:5981-5986 | the expected revision is taken out of an object and every other member is kept; it is returned when it reads as an i64 |
| JsonEntities.PopExpectedRevisionOnce | src-tauri/src/workspace.rs:5981-5986 | popping again finds nothing and changes nothing |
| JsonEntities.Stamp | src-tauri/src/workspace.rs:6065-6074 | the saved entity has the members plus id, createdAt, updatedAt and revision, with the given values, and every other member unchanged |
| JsonEntities.FindById | src-tauri/src/workspace.rs:6012-6023 | nothing is found exactly when no listed entity has that id; a found entity is a listed one with that id |
| JsonEntities.UpsertJsonEntity | src-tauri/src/workspace.rs:6025-6081 | a failed upsert writes nothing; a saved one is an object and writes exactly the file of its id |
| JsonEntities.UpsertAt | src-tauri/src/workspace.rs:6043-6080 | a failure writes nothing; a success writes the saved object to that file only |
| JsonEntities.PatchJsonEntity | src-tauri/src/workspace.rs:6083-6124 | a failed patch writes nothing; a saved one is an object and writes exactly the file of the entity id |
| JsonEntities.PatchAt | src-tauri/src/workspace.rs:6102-6123 | a failure writes nothing; a success writes the saved object to that file only |
| JsonEntities.BumpJsonRevision | src-tauri/src/workspace.rs:6146-6157 | the revision goes up by one, updatedAt is now, createdAt is kept or else set to now, and nothing else changes |
| JsonEntities.BumpTwice | src-tauri/src/workspace.rs:6146-6157 | two bumps raise the revision by two and keep the first createdAt |
| JsonEntities.MergeJsonValues | src-tauri/src/workspace.rs:6126-6144 | the in-place merge gives the recursive JSON merge: objects merge key by key, anything else is replaced |
| JsonEntities.EntityDirectory.constructor | src-tauri/src/workspace.rs:5988-5991 | the directory holds the given files |
| JsonEntities.EntityDirectory.Upsert | src-tauri/src/workspace.rs:6025-6081 | the result and the files afterwards are those the upsert specification gives |
| JsonEntities.EntityDirectory.UpsertInFile | src-tauri/src/workspace.rs:6043-6080 | the result and the files afterwards are those of the upsert into that file |
| JsonEntities.EntityDirectory.Patch | src-tauri/src/workspace.rs:6083-6124 | the result and the files afterwards are those the patch specification gives |
| JsonEntities.EntityDirectory.PatchInFile | src-tauri/src/workspace.rs:6102-6123 | the result and the files afterwards are those of the patch written to that file |
| JsonEntities.UpsertFailsOnlyOnConflict | src-tauri/src/workspace.rs:6025-6081 | an upsert fails exactly when the value is not an object or an expected revision differs from the stored one; a failure writes nothing |
| JsonEntities.UpsertStamps | src-tauri/src/workspace.rs:6065-6080 | a saved upsert keeps the members, sets the id, now as updatedAt, the stored revision plus one and the old createdAt (else now), and writes exactly that file |
| JsonEntities.UpsertNewEntity | src-tauri/src/workspace.rs:6025-6081 | a new entity is saved with revision 1 and created now |
| JsonEntities.UpsertRevisionHandshake | src-tauri/src/workspace.rs:6025-6081 | after an upsert, a second one succeeds exactly when it expects the new revision, and then raises it by one more and keeps createdAt |
| JsonEntities.PatchOutcomes | src-tauri/src/workspace.rs:6083-6124 | a missing entity is NotFound; a wrong expected revision is a CONFLICT carrying the latest entity; a patch succeeds exactly when the entity exists, the revision matches and the patch is an object; a failure writes nothing |
| JsonEntities.PatchStamps | src-tauri/src/workspace.rs:6117-6123 | a saved patch is the merge with the entity's id, now as updatedAt, the merged revision plus one and a createdAt, written to the entity's file |
| JsonEntities.PatchBumpsStoredRevision | src-tauri/src/workspace.rs:6117-6123 | a patch that does not touch the revision raises the stored one by one, keeps createdAt and every member it does not set |
| JsonEntities.PatchByScanLeavesOriginal | src-tauri/src/workspace.rs:6091-6093 | an entity found only by scanning is written to its id's file and the file it was found in stays as it was |
| Rules.LookupByPath | src-tauri/src/workspace.rs:5932-5938 | the loop gives the value reached by following the field's dot-separated segments, none when a segment is missing |
| Rules.LookupPath | src-tauri/src/workspace.rs:5932-5938 | a field without a dot is a plain member lookup |
| Rules.PathLookupAppend | src-tauri/src/workspace.rs:5932-5938 | following two runs of segments is following the first, then the second from where it ends |
| Rules.DottedPathWalksSegments | src-tauri/src/workspace.rs:5932-5938 | a dotted path made of dot-free segments follows exactly those segments |
| Rules.NestedField | src-tauri/src/workspace.rs:5932-5938 | "outer.inner" is the inner member of the outer member, none when the outer one is missing |
| Rules.EvaluateRuleCondition | src-tauri/src/workspace.rs:5379-5414 | a condition that holds has a string field and one of the eleven known operators, "eq" when none is given |
| Rules.NegatedOperators | src-tauri/src/workspace.rs:5387-5388 | neq is the negation of eq |
| Rules.NegatedMembership | src-tauri/src/workspace.rs:5389-5396 | for an array value nin is the negation of in |
| Rules.MembershipNeedsArray | src-tauri/src/workspace.rs:5389-5396 | in and nin both fail when the value is not an array |
| Rules.OrderingOperators | src-tauri/src/workspace.rs:5397-5400 | when both sides are numbers gt holds exactly when the actual value is greater, and lte is its negation; otherwise neither holds |
| Rules.DefaultOperatorIsEq | src-tauri/src/workspace.rs:5383-5387 | a condition without an operator holds exactly when the looked-up value equals the value |
| Rules.ExistsAndUnknown | src-tauri/src/workspace.rs:5401-5412 | exists holds exactly when the path leads somewhere; an unknown operator never holds |
| Rules.BadPatternNeverMatches | src-tauri/src/workspace.rs:5407-5411 | a pattern that does not compile never matches |
| Recurrence.WeekdayNumber | src-tauri/src/workspace.rs:5906-5917 | the weekdays are numbered below 7 |
| Recurrence.WeekdayFromNumber | src-tauri/src/workspace.rs:5906-5917 | every number below 7 is some weekday's number |
| Recurrence.WeekdayOf | src-tauri/src/workspace.rs:5892 | the weekday of a time is its day count plus 3, modulo 7 (1970-01-01 was a Thursday) |
| Recurrence.ParseWeekdayList | src-tauri/src/workspace.rs:5899-5904 | the set holds exactly the weekdays some item names |
| Recurrence.Interval | src-tauri/src/workspace.rs:5877 | the interval is at least 1 |
| Recurrence.FirstMatch | src-tauri/src/workspace.rs:5889-5894 | the probe finds the first day offset within the bound whose weekday is listed, or none when no offset within it is |
| Recurrence.NextRecurrenceRun | src-tauri/src/workspace.rs:5876-5897 | the loop gives the next run of the specification |
| Recurrence.WeekdayAdvances | src-tauri/src/workspace.rs:5890-5892 | k days later the weekday has moved on by k, modulo 7 |
| Recurrence.EveryWeekdayWithinAWeek | src-tauri/src/workspace.rs:5889-5894 | every weekday comes within 1 to 7 days, so the probe always finds a listed day |
| Recurrence.NextRun | src-tauri/src/workspace.rs:5876-5897 | the next run is strictly after the given time, by a whole number of days |
| Recurrence.StepDays | src-tauri/src/workspace.rs:5877-5896 | every frequency steps forward by at least one day |
| Recurrence.WeeklyByDayIsNextListedDay | src-tauri/src/workspace.rs:5880-5895 | a weekly rule with listed days runs on the first listed weekday within the next 7 days, whatever the interval |
| Recurrence.FixedSteps | src-tauri/src/workspace.rs:5876-5897 | monthly is 30 days times the interval; weekly without listed days is the interval in weeks; daily and unknown frequencies are the interval in days |
| Recurrence.WeekdayNamesParse | src-tauri/src/workspace.rs:5906-5917 | every weekday's full name and three-letter abbreviation parse to it |
| Recurrence.ParseWeekday | src-tauri/src/workspace.rs:5906-5917 | an accepted entry, trimmed and lower-cased, is a prefix of the weekday's full name of at least three letters, starting with its abbreviation |
| Recurrence.WeekdayWord | src-tauri/src/workspace.rs:5907-5916 | every accepted word is a prefix of the named day's full name, at least three letters long |
| Recurrence.LeadingSpaceIgnored | src-tauri/src/workspace.rs:5907 | one leading space does not change the weekday parsed |
| Recurrence.LeadingBlankIgnored | src-tauri/src/workspace.rs:5907 | any run of leading whitespace does not change the weekday parsed |
| Recurrence.SurroundingBlankIgnored | src-tauri/src/workspace.rs:5907 | an entry parses as its trimmed text does |
| ObsidianCli.NormalizeNewlines | src-tauri/src/workspace.rs:2487-2489 | normalised text has no carriage return |
| ObsidianCli.EscapeChar | src-tauri/src/workspace.rs:2482-2484 | a character is escaped with a backslash exactly when it is a backslash, newline or tab |
| ObsidianCli.NormalizeNewlinesIdempotent | src-tauri/src/workspace.rs:2487-2489 | normalising twice is normalising once, and text without carriage returns is left alone |
| ObsidianCli.CrLfEnding | src-tauri/src/workspace.rs:2488 | a CRLF line ending becomes a single newline |
| ObsidianCli.LoneCrEnding | src-tauri/src/workspace.rs:2488 | a lone CR becomes a newline |
| ObsidianCli.EncodeContent | src-tauri/src/workspace.rs:2480-2485 | the three chained replacements escape the normalised text one character at a time; reading the argument back gives the normalised content; the argument holds no newline, tab or carriage return, so it fits one argument line |
| ObsidianCli.UnescapeEscape | src-tauri/src/workspace.rs:2482-2484 | unescaping an escaped text gives the text back |
| ObsidianCli.EscapeHasNoBreaks | src-tauri/src/workspace.rs:2482-2484 | escaping leaves no newline, tab or carriage return |
| ObsidianCli.WriteApplied | src-tauri/src/workspace.rs:2491-2505 | a write counts only when the note could be read back and, up to line endings, ends with the expected content |
| ObsidianCli.WriteAppliedCases | src-tauri/src/workspace.rs:2491-2505 | content equal up to newlines counts as written; if the file still holds the previous content, or nothing was previously known, only equal content counts |
| ObsidianCli.AppendedCounts | src-tauri/src/workspace.rs:2500-2502 | a file that changed and now ends with the expected content counts as written |
| Registry.AliasStrings | src-tauri/src/workspace.rs:6203-6213 | the aliases are exactly the trimmed, lower-cased string items |
| Registry.NonEmpty | src-tauri/src/workspace.rs:6211 | the kept aliases are exactly the non-empty ones |
| Registry.CandidateOf | src-tauri/src/workspace.rs:6189-6214 | a candidate's normalised aliases are never empty |
| Registry.ValidateRegistryUniqueness | src-tauri/src/workspace.rs:6216-6285 | the candidate read from the payload is accepted exactly when its name is non-empty, no alias is the name, the aliases are distinct and no stored entry clashes |
| Registry.FirstClash | src-tauri/src/workspace.rs:6237-6284 | a reported entry is one that clashes with the candidate, and none is reported exactly when no entry clashes |
| Registry.CheckUniqueness | src-tauri/src/workspace.rs:6216-6285 | the loops give the verdict of the specification |
| Registry.ScanAliases | src-tauri/src/workspace.rs:6222-6234 | the alias loop gives the first fault of the specification |
| Registry.ScanEntries | src-tauri/src/workspace.rs:6237-6284 | the entry loop gives the first clashing entry |
| Registry.PrefixFault | src-tauri/src/workspace.rs:6222-6234 | a fault found in the first aliases is the fault of the whole list |
| Registry.AliasFaultNone | src-tauri/src/workspace.rs:6222-6234 | the aliases pass exactly when none equals the name and no two are equal |
| Registry.ValidateAcceptsIff | src-tauri/src/workspace.rs:6216-6285 | a candidate is accepted exactly when its name is non-empty, no alias is the name, the aliases are distinct and no entry clashes |
| Registry.AcceptedIsUnique | src-tauri/src/workspace.rs:6188-6285 | once accepted, the candidate's name and aliases differ from the name and aliases of every other entry of its kind |
| Registry.RejectionReasons | src-tauri/src/workspace.rs:6216-6283 | a rejection is an empty name, an alias equal to the name, repeated aliases, or a conflict carrying the first clashing entry |
| Registry.AliasFaultMessages | src-tauri/src/workspace.rs:6224-6233 | the alias check can only fail with the alias-is-name or the aliases-not-unique message |
| Registry.ClashIndex | src-tauri/src/workspace.rs:6237-6284 | the reported entry is the first in the list that clashes |
| Registry.SelfAndOtherKindsIgnored | src-tauri/src/workspace.rs:6238-6249 | an entry with the candidate's own id or of another kind never changes the verdict |
| Registry.FirstClashSkipsTail | src-tauri/src/workspace.rs:6237-6284 | appending an entry that does not clash leaves the first clash unchanged |
| Registry.IdlessEntriesSkipped | src-tauri/src/workspace.rs:6189-6191 | when neither the candidate nor an entry has an id, the ids count as equal and the entry is skipped |
| Registry.NamesCompareLoosely | src-tauri/src/workspace.rs:6251-6269 | a same-kind entry whose name trims and lower-cases to the candidate's name clashes |
| Placements.ById | src-tauri/src/workspace.rs:1256-1259 | the map's keys are exactly the placements' ids, each mapped to a placement with that id |
| Placements.ExpectedMap | src-tauri/src/workspace.rs:1270-1281 | every id with a paired revision is a key, and each key maps to a revision paired with it by position |
| Placements.MovesFrom | src-tauri/src/workspace.rs:1284-1314 | the moves follow the ordered ids, each with its position, and there are at most as many as ids left |
| Placements.Reorder | src-tauri/src/workspace.rs:1251-1325 | an empty view moves nothing without error; a list of the wrong length fails before any move; the moves made, even before a failure, are the first listed ids, each at its position |
| Placements.ReorderPlacements | src-tauri/src/workspace.rs:1251-1325 | the method gives the outcome of the specification |
| Placements.MovePlacements | src-tauri/src/workspace.rs:1284-1314 | the loop gives the moves and the first error of the specification |
| Placements.Padded | src-tauri/src/workspace.rs:2956 | the zero-padded number has exactly the given width |
| Placements.PaddedOrder | src-tauri/src/workspace.rs:2956 | a smaller number's padding comes first in text order |
| Placements.Pow10 | src-tauri/src/workspace.rs:2956 | a power of ten is at least one |
| Placements.OrderKeysFollowPositions | src-tauri/src/workspace.rs:2954-2960 | for positions below 10^8 the order key of the earlier position sorts first whatever the suffixes, so sorting by key restores the requested order |
| Placements.EmptyViewUnchanged | src-tauri/src/workspace.rs:1261-1263 | a view without placements reorders to nothing, without error |
| Placements.MovesFromComplete | src-tauri/src/workspace.rs:1284-1314 | the moves succeed exactly when every remaining id is present once and matches its expected revision, and then each move carries the stored revision |
| Placements.ReorderSucceedsIff | src-tauri/src/workspace.rs:1251-1314 | a reorder succeeds exactly when the ordered ids list every placement once and every expected revision matches; then each placement moves to its position with its stored revision |

## Left out

- Processes, PTYs, shells, timeouts, cancellation, stream-reader tasks, the keyring, artifact encryption and Tauri event emission in the runner: these are I/O and concurrency; only the helpers they call are modelled.
- The scheduler's run loop, start-up and task spawning: their point is concurrency.
- The pending-snapshot check and the snapshot insert in `refresh_metric` take the database lock separately; the model runs them one after the other and claims no mutual exclusion.
- SQL itself (DDL, migrations, conversation backfill, retention pruning, the storage cap with VACUUM, the bootstrap grant): tables are in-memory sequences and maps, and each `UPDATE … WHERE` is a guarded transition.
- Clock readings, uuids, `is_git_repo`, temporary files, directory listings and the base64 decoding of images are parameters of the operations that use them.
- JSON parsing and rendering (serde_json, TOML rendering of MCP values) are codec parameters; JSON numbers are integers, floating-point values are not modelled.
- Regular expressions: the redaction patterns are given as a segmentation of the text into plain text and matches; the markdown task-line pattern is a hand-written matcher; the rule operator "matches" takes the regex engine as a parameter; `sanitize_mcp_key` is hand-written per character.
- The jsonschema crate: schema compilation and validation are parameters of the structured-output validation.
- Provider::KiingoMcp, used by the compatibility matrix but missing from the provider enum, is not modelled; providers are Codex and Claude.
- The time-based fallback of `extract_semver` and the probe process of `detect_profile_uncached`: the detected version or failure is a parameter.
- Floating-point parts of the workspace: heat score, attention-layer thresholds, lexical score and semantic ranking. Rule conditions compare integer JSON numbers exactly, not as f64.
- Filesystem and Obsidian parts of the workspace: markdown and YAML file I/O, the Obsidian CLI process and its circuit breaker, event ndjson files; `load_placements_for_view` is a parameter and file read/write errors are not modelled.
- Chrono overflow when adding days and the i64 overflow of revision counters are not modelled (integers are unbounded).
- AtomOrder.CompareAtoms: only the comparator of `sort_atoms` is modelled and proved a total preorder; the stable sort itself is the standard library's.
- AtomFilter.ApplyAtomFilter: the in-place `retain` is modelled on sequences; `parse_filter_date` is a parameter.
- Placements.ReorderPlacements: the per-placement patch writes and the final sort by order key are not modelled; Placements.OrderKeysFollowPositions proves instead that sorting by the new keys gives the requested order.
- WorkspaceIds.StableHash64: a character is hashed as its code modulo 256, which is its UTF-8 byte for ASCII text only.
- Idempotency.IdempotencyStore.WithIdempotency: the record files and the serde round trip of the stored result are not modelled; the store is a map from sanitised key to record.
- Transcript.TranscriptCollector.StructuredOutput: the collector keeps the JSON value; its rendering to text is the codec's.
- CliAllowlist.PrepareCliAllowlist: writing the shim scripts and setting file permissions are not modelled.
- Adapter parsers: the parse of each raw line into JSON is a parameter.
- Redaction.SecretPass: a match is rewritten with the corrected rendering, "<key name>=[REDACTED]" for the keyed pattern and "secret=[REDACTED]" otherwise, not with the source's lower-cased capture group 1, which for the sk-, AKIA and hex patterns is the secret itself (redaction.rs:66-75); the as-written replacement is modelled separately and shown to leak (see Findings).
- Redaction.Redact: inherits the corrected rendering of Redaction.SecretPass for every pattern pass; the counts and the order of the passes are those of the source.
- Placements.Padded: keeps the low `width` digits, whereas `{:08}` prints every digit of a position of 10^8 or more; Placements.OrderKeysFollowPositions is stated for positions below 10^8 for that reason.
- The Python seed scripts, lib.rs command wiring, the session channel registry, the integration tests and the shell-prelude file writing are outside the modelled core.

## Findings

| source | as written | input that shows it | evidently intended | confidence | as-written member | corrected member |
|---|---|---|---|---|---|---|
| src-tauri/src/db/mod.rs:1530-1532 | the newest `completed_at` (RFC 3339 text with a 'T') is compared as text with `datetime('now', '-N seconds')` (text with a space), so on the threshold's own calendar day it never compares smaller | ttl 3600, completed at 01:00:00, checked at 23:00:00 the same day: 22 hours old, not picked for refresh | pick the metric once its newest completion is more than ttl seconds old | not executed | Staleness.AsWrittenMissesSameDay, Staleness.SameDayCounterexample | Staleness.IsStaleMeansOlderThanTtl |
| src-tauri/src/redaction.rs:66-75 | the replacement writes capture group 1 before "=[REDACTED]", and for the sk-, AKIA and hex patterns group 1 is the secret itself | a 32-character hex key such as "0123456789abcdef0123456789abcdef" comes out as that key followed by "=[REDACTED]" | replace a match without a key name by "secret=[REDACTED]" | not executed | Redaction.SecretSurvivesAsWritten | Redaction.RenderedHidesSecrets |
| src-tauri/src/adapters/codex.rs:886 | `parsed.get("item")?` returns from the whole function when an `item.completed` line has no item | an agent message "done" followed by the line {"type":"item.completed"} gives no message | skip such a line and keep the last message found | not executed | CodexParser.MalformedLineLosesMessage | CodexParser.ExtractLastAgentMessage |
