/**
 * When a metric counts as stale (db/mod.rs): the dashboard's rule in `list_screen_metrics`,
 * and the refresh queries `find_stale_metrics_for_screen` / `find_proactive_stale_metrics`.
 *
 * The refresh queries compare the newest completed_at, stored as RFC 3339 text
 * ("YYYY-MM-DDTHH:MM:SS...+00:00"), with SQLite's `datetime('now', '-N seconds')`, which
 * renders as "YYYY-MM-DD HH:MM:SS", and they compare the two as TEXT. Both start with the same
 * fixed-width date; the next character is 'T' in one and ' ' in the other. The model renders
 * both formats (the calendar date as a fixed-width field of the day number, the time of day
 * as a fixed-width field of the second within the day: both are ordered like the instant they
 * name, as YYYY-MM-DD and HH:MM:SS are) and compares them byte by byte as SQLite does.
 */
module Staleness {
  import opened Wrappers
  import Text
  import opened MetricSnapshots
  import Json
  import Models

  const SECONDS_PER_DAY: nat := 86400
  const DAY_DIGITS: nat := 8
  const TIME_DIGITS: nat := 5

  // ---------------------------------------------------------------------------------------
  // The dashboard's rule (list_screen_metrics)
  // ---------------------------------------------------------------------------------------

  /**
   * `is_stale` in `list_screen_metrics`: stale without a completed snapshot, when the latest
   * lacks completed_at, or once at least ttl seconds have passed since it completed.
   */
  function ScreenMetricIsStale(latest: Option<MetricSnapshot>, ttlSeconds: int, now: nat): (r: bool)
    ensures latest.None? ==> r
    ensures latest.Some? && latest.value.completedAt.None? ==> r
    ensures !r ==> latest.Some? && latest.value.completedAt.Some? && now < latest.value.completedAt.value + ttlSeconds
  {
    match latest
    case None => true
    case Some(snap) =>
      match snap.completedAt
      case None => true
      case Some(completed) => now - completed >= ttlSeconds
  }

  /** Without a newer snapshot, a stale metric stays stale as time passes. */
  lemma StaleStaysStale(latest: Option<MetricSnapshot>, ttlSeconds: int, now: nat, later: nat)
    requires now <= later
    requires ScreenMetricIsStale(latest, ttlSeconds, now)
    ensures ScreenMetricIsStale(latest, ttlSeconds, later)
  {
  }

  /** A snapshot that has just completed is fresh for ttl seconds, when ttl is positive. */
  lemma FreshUntilTtl(snap: MetricSnapshot, ttlSeconds: int, now: nat)
    requires snap.completedAt.Some? && snap.completedAt.value <= now < snap.completedAt.value + ttlSeconds
    ensures !ScreenMetricIsStale(Some(snap), ttlSeconds, now)
  {
  }

  // ---------------------------------------------------------------------------------------
  // Timestamp text
  // ---------------------------------------------------------------------------------------

  function Pow10(n: nat): (r: nat)
    ensures r >= 1
  {
    if n == 0 then 1 else 10 * Pow10(n - 1)
  }

  /** The last `width` decimal digits of `n`, zero-padded: a fixed-width numeric field. */
  function Digits(n: nat, width: nat): (r: string)
    ensures |r| == width
  {
    if width == 0 then [] else Digits(n / 10, width - 1) + [Text.DigitChar(n % 10)]
  }

  /** Instants this rendering covers: the day number fits its field, as the year fits YYYY. */
  const TIME_LIMIT: nat := SECONDS_PER_DAY * Pow10(DAY_DIGITS)

  function DateText(t: nat): string
  {
    Digits(t / SECONDS_PER_DAY, DAY_DIGITS)
  }

  function TimeOfDayText(t: nat): string
  {
    Digits(t % SECONDS_PER_DAY, TIME_DIGITS)
  }

  /** chrono's `to_rfc3339` for a UTC instant: date, 'T', time, offset. */
  function Rfc3339Text(t: nat): string
  {
    DateText(t) + ("T" + (TimeOfDayText(t) + "+00:00"))
  }

  /** SQLite's `datetime(...)`: date, a space, time. */
  function SqliteDatetimeText(t: nat): string
  {
    DateText(t) + (" " + TimeOfDayText(t))
  }

  /** SQLite's BINARY collation: byte-wise, with a proper prefix sorting first. */
  predicate TextLess(a: string, b: string)
    decreases |a|
  {
    if a == [] then b != []
    else b != [] && (a[0] < b[0] || (a[0] == b[0] && TextLess(a[1..], b[1..])))
  }

  lemma {:induction false} TextLessCommonPrefix(p: string, x: string, y: string)
    ensures TextLess(p + x, p + y) == TextLess(x, y)
    decreases |p|
  {
    if p != [] {
      assert (p + x)[0] == p[0] && (p + y)[0] == p[0];
      assert TextLess(p + x, p + y) == TextLess((p + x)[1..], (p + y)[1..]);
      assert (p + x)[1..] == p[1..] + x;
      assert (p + y)[1..] == p[1..] + y;
      TextLessCommonPrefix(p[1..], x, y);
    } else {
      assert p + x == x && p + y == y;
    }
  }

  lemma {:induction false} TextLessFirstDifference(a: string, b: string, x: string, y: string)
    requires |a| == |b| && a != b
    ensures TextLess(a + x, b + y) == TextLess(a, b)
    decreases |a|
  {
    assert a[0] == (a + x)[0] && b[0] == (b + y)[0];
    if a[0] == b[0] {
      assert (a + x)[1..] == a[1..] + x;
      assert (b + y)[1..] == b[1..] + y;
      TextLessFirstDifference(a[1..], b[1..], x, y);
    }
  }

  /** Fixed-width digit fields compare as text exactly as their numbers compare. */
  lemma {:induction false} DigitsOrder(m: nat, n: nat, width: nat)
    requires m < Pow10(width) && n < Pow10(width)
    ensures TextLess(Digits(m, width), Digits(n, width)) <==> m < n
    ensures Digits(m, width) == Digits(n, width) <==> m == n
  {
    if width > 0 {
      DigitsOrder(m / 10, n / 10, width - 1);
      var pm, pn := Digits(m / 10, width - 1), Digits(n / 10, width - 1);
      var dm, dn := Text.DigitChar(m % 10), Text.DigitChar(n % 10);
      assert Digits(m, width) == pm + [dm] && Digits(n, width) == pn + [dn];
      assert Digits(m, width)[..width - 1] == pm && Digits(n, width)[..width - 1] == pn;
      if m / 10 != n / 10 {
        TextLessFirstDifference(pm, pn, [dm], [dn]);
      } else {
        TextLessCommonPrefix(pm, [dm], [dn]);
        assert TextLess([dm], [dn]) <==> dm < dn;
        assert dm as int == '0' as int + m % 10 && dn as int == '0' as int + n % 10;
        if Digits(m, width) == Digits(n, width) {
          assert Digits(m, width)[width - 1] == dm && Digits(n, width)[width - 1] == dn;
        }
      }
    }
  }

  /** The RFC 3339 text orders instants correctly, so SQL's MAX over it picks the newest. */
  lemma Rfc3339KeepsOrder(c1: nat, c2: nat)
    requires c1 < c2 < TIME_LIMIT
    ensures TextLess(Rfc3339Text(c1), Rfc3339Text(c2))
  {
    DigitsOrder(c1 / SECONDS_PER_DAY, c2 / SECONDS_PER_DAY, DAY_DIGITS);
    var d1, d2 := DateText(c1), DateText(c2);
    var rest1 := TimeOfDayText(c1) + "+00:00";
    var rest2 := TimeOfDayText(c2) + "+00:00";
    if d1 != d2 {
      TextLessFirstDifference(d1, d2, "T" + rest1, "T" + rest2);
    } else {
      DigitsOrder(c1 % SECONDS_PER_DAY, c2 % SECONDS_PER_DAY, TIME_DIGITS);
      TextLessCommonPrefix(d1, "T" + rest1, "T" + rest2);
      TextLessCommonPrefix("T", rest1, rest2);
      TextLessFirstDifference(TimeOfDayText(c1), TimeOfDayText(c2), "+00:00", "+00:00");
    }
  }

  /**
   * What the text comparison in the refresh queries actually decides: a stored completed_at
   * sorts before SQLite's threshold exactly when it falls on an EARLIER calendar day; the time
   * of day plays no part, because on the same day 'T' sorts after ' '.
   */
  lemma TextComparisonComparesDays(completed: nat, threshold: nat)
    requires completed < TIME_LIMIT && threshold < TIME_LIMIT
    ensures TextLess(Rfc3339Text(completed), SqliteDatetimeText(threshold))
            <==> completed / SECONDS_PER_DAY < threshold / SECONDS_PER_DAY
  {
    DigitsOrder(completed / SECONDS_PER_DAY, threshold / SECONDS_PER_DAY, DAY_DIGITS);
    var dc, dt := DateText(completed), DateText(threshold);
    var restC := "T" + (TimeOfDayText(completed) + "+00:00");
    var restT := " " + TimeOfDayText(threshold);
    if dc != dt {
      TextLessFirstDifference(dc, dt, restC, restT);
    } else {
      TextLessCommonPrefix(dc, restC, restT);
      assert restC[0] == 'T' && restT[0] == ' ';
    }
  }

  // ---------------------------------------------------------------------------------------
  // The refresh queries
  // ---------------------------------------------------------------------------------------

  /** `datetime('now', '-ttl seconds')`; instants before the epoch are taken as the epoch. */
  function Threshold(now: nat, ttlSeconds: int): (r: nat)
    ensures now - ttlSeconds >= 0 ==> r == now - ttlSeconds
  {
    if now - ttlSeconds < 0 then 0 else now - ttlSeconds
  }

  predicate IsCompletedFor(row: MetricSnapshot, metricId: string)
  {
    row.metricId == metricId && row.status == Completed
  }

  predicate HasCompleted(rows: seq<MetricSnapshot>, metricId: string)
  {
    exists i :: 0 <= i < |rows| && IsCompletedFor(rows[i], metricId)
  }

  /** `SELECT MAX(completed_at) ... WHERE status = 'completed'`: NULL completed_at values are skipped. */
  function MaxCompletedAt(rows: seq<MetricSnapshot>, metricId: string): (r: Option<nat>)
    ensures r.Some? ==> exists i :: 0 <= i < |rows| && IsCompletedFor(rows[i], metricId) && rows[i].completedAt == r
    ensures forall i :: 0 <= i < |rows| && IsCompletedFor(rows[i], metricId) && rows[i].completedAt.Some?
              ==> r.Some? && rows[i].completedAt.value <= r.value
  {
    if rows == [] then None
    else
      var init := rows[..|rows| - 1];
      var last := rows[|rows| - 1];
      var rest := MaxCompletedAt(init, metricId);
      assert forall i :: 0 <= i < |init| ==> rows[i] == init[i];
      if IsCompletedFor(last, metricId) && last.completedAt.Some?
         && (rest.None? || rest.value <= last.completedAt.value) then
        last.completedAt
      else
        rest
  }

  /** Enabled, not archived, and no refresh already in flight. */
  predicate Refreshable(def: MetricDefinition, rows: seq<MetricSnapshot>)
  {
    def.enabled && def.archivedAt.None? && !HasPendingSnapshot(rows, def.id)
  }

  /** The comparison AS WRITTEN: RFC 3339 text against SQLite datetime text. */
  predicate CompletedBeforeThresholdAsWritten(completed: nat, now: nat, ttlSeconds: int)
  {
    TextLess(Rfc3339Text(completed), SqliteDatetimeText(Threshold(now, ttlSeconds)))
  }

  /** The comparison as intended: the newest completion is more than ttl seconds old. */
  predicate CompletedBeforeThreshold(completed: nat, now: nat, ttlSeconds: int)
  {
    completed < now - ttlSeconds
  }

  /** The WHERE clause of the refresh queries, as written. */
  predicate IsStaleAsWritten(def: MetricDefinition, rows: seq<MetricSnapshot>, now: nat)
  {
    Refreshable(def, rows)
    && (!HasCompleted(rows, def.id)
        || (MaxCompletedAt(rows, def.id).Some?
            && CompletedBeforeThresholdAsWritten(MaxCompletedAt(rows, def.id).value, now, def.ttlSeconds)))
  }

  /** The WHERE clause of the refresh queries, with the comparison made on instants. */
  predicate IsStale(def: MetricDefinition, rows: seq<MetricSnapshot>, now: nat)
  {
    Refreshable(def, rows)
    && (!HasCompleted(rows, def.id)
        || (MaxCompletedAt(rows, def.id).Some?
            && CompletedBeforeThreshold(MaxCompletedAt(rows, def.id).value, now, def.ttlSeconds)))
  }

  /**
   * As written, a metric whose newest completion lies on the same calendar day as the
   * threshold is never picked for refresh, whatever its ttl.
   */
  lemma AsWrittenMissesSameDay(def: MetricDefinition, rows: seq<MetricSnapshot>, now: nat)
    requires HasCompleted(rows, def.id) && MaxCompletedAt(rows, def.id).Some?
    requires MaxCompletedAt(rows, def.id).value < TIME_LIMIT && Threshold(now, def.ttlSeconds) < TIME_LIMIT
    requires MaxCompletedAt(rows, def.id).value / SECONDS_PER_DAY == Threshold(now, def.ttlSeconds) / SECONDS_PER_DAY
    ensures !IsStaleAsWritten(def, rows, now)
  {
    TextComparisonComparesDays(MaxCompletedAt(rows, def.id).value, Threshold(now, def.ttlSeconds));
  }

  /**
   * The input that shows it: hourly metric (ttl 3600), last completed at 01:00, checked at
   * 23:00 the same day. It is 22 hours old, yet the as-written query does not return it.
   */
  lemma SameDayCounterexample()
    ensures var def := MetricDefinition("m", "Revenue", "", "", 3600, Models.Codex, None, None, None, true, false, None);
            var rows := [MetricSnapshot("s", "m", Some("r"), Json.EmptyObject, "", Completed, None, 0, Some(3600))];
            IsStale(def, rows, 82800) && !IsStaleAsWritten(def, rows, 82800)
  {
    var def := MetricDefinition("m", "Revenue", "", "", 3600, Models.Codex, None, None, None, true, false, None);
    var rows := [MetricSnapshot("s", "m", Some("r"), Json.EmptyObject, "", Completed, None, 0, Some(3600))];
    assert IsCompletedFor(rows[0], "m");
    assert MaxCompletedAt(rows, "m") == Some(3600) by {
      assert rows[..0] == [];
    }
    assert !HasPendingSnapshot(rows, "m");
    AsWrittenMissesSameDay(def, rows, 82800);
  }

  /**
   * With the comparison made on instants, a refreshable metric is picked exactly when it has
   * no completed snapshot or its newest completion is more than ttl seconds old.
   */
  lemma IsStaleMeansOlderThanTtl(def: MetricDefinition, rows: seq<MetricSnapshot>, now: nat, k: nat)
    requires Refreshable(def, rows)
    requires k < |rows| && IsCompletedFor(rows[k], def.id) && rows[k].completedAt.Some?
    requires MaxCompletedAt(rows, def.id) == rows[k].completedAt
    ensures IsStale(def, rows, now) <==> now - rows[k].completedAt.value > def.ttlSeconds
  {
  }

  /**
   * The corrected refresh query agrees with the dashboard whenever the latest snapshot the
   * dashboard shows carries the newest completion: what the query picks, the dashboard shows
   * as stale.
   */
  lemma StaleForRefreshIsShownStale(def: MetricDefinition, rows: seq<MetricSnapshot>, now: nat)
    requires IsStale(def, rows, now)
    requires var latest := LatestCompleted(rows, def.id);
             latest.Some? ==> latest.value.completedAt == MaxCompletedAt(rows, def.id)
    ensures ScreenMetricIsStale(LatestCompleted(rows, def.id), def.ttlSeconds, now)
  {
    var latest := LatestCompleted(rows, def.id);
    if latest.Some? {
      var j :| 0 <= j < |rows| && rows[j] == latest.value;
      assert IsCompletedFor(rows[j], def.id);
    }
  }

  /** A metric that completed within its ttl is not picked. */
  lemma FreshMetricIsNotPicked(def: MetricDefinition, rows: seq<MetricSnapshot>, now: nat)
    requires MaxCompletedAt(rows, def.id).Some?
    requires now - MaxCompletedAt(rows, def.id).value <= def.ttlSeconds
    ensures !IsStale(def, rows, now)
  {
    var i :| 0 <= i < |rows| && IsCompletedFor(rows[i], def.id) && rows[i].completedAt == MaxCompletedAt(rows, def.id);
  }

  /** The definitions of `defs`, in order, that satisfy `keep`. */
  function Filter(defs: seq<MetricDefinition>, keep: MetricDefinition -> bool): (r: seq<MetricDefinition>)
    ensures |r| <= |defs|
    ensures forall d :: d in r <==> d in defs && keep(d)
  {
    if defs == [] then []
    else
      var rest := Filter(defs[1..], keep);
      assert forall d :: d in defs <==> d == defs[0] || d in defs[1..];
      if keep(defs[0]) then [defs[0]] + rest else rest
  }

  /**
   * `find_stale_metrics_for_screen`, with the comparison made on instants: of the definitions
   * bound to the screen, exactly the stale ones.
   */
  function FindStaleMetricsForScreen(bound: seq<MetricDefinition>, rows: seq<MetricSnapshot>, now: nat): (r: seq<MetricDefinition>)
    ensures forall d :: d in r <==> d in bound && IsStale(d, rows, now)
    ensures forall d :: d in r ==> d.enabled && d.archivedAt.None? && !HasPendingSnapshot(rows, d.id)
  {
    Filter(bound, (d: MetricDefinition) => IsStale(d, rows, now))
  }

  /** `find_proactive_stale_metrics`, with the comparison made on instants. */
  function FindProactiveStaleMetrics(defs: seq<MetricDefinition>, rows: seq<MetricSnapshot>, now: nat): (r: seq<MetricDefinition>)
    ensures forall d :: d in r <==> d in defs && d.proactive && IsStale(d, rows, now)
  {
    Filter(defs, (d: MetricDefinition) => d.proactive && IsStale(d, rows, now))
  }
}
