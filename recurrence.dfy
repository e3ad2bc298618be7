/**
 * Recurrence stepping of workspace.rs (`next_recurrence_run`, `parse_weekday`,
 * `parse_weekday_list`). Times are whole seconds since the Unix epoch, UTC; the day of a
 * time is `floor(t / 86400)` and 1970-01-01 was a Thursday.
 */
module Recurrence {
  import opened Wrappers
  import opened Text

  const SecondsPerDay: int := 86400

  datatype Weekday = Mon | Tue | Wed | Thu | Fri | Sat | Sun

  /** Monday-based day number, as `Weekday::num_days_from_monday`. */
  function WeekdayNumber(d: Weekday): (n: nat)
    ensures n < 7
  {
    match d
    case Mon => 0
    case Tue => 1
    case Wed => 2
    case Thu => 3
    case Fri => 4
    case Sat => 5
    case Sun => 6
  }

  function WeekdayFromNumber(n: nat): (d: Weekday)
    requires n < 7
    ensures WeekdayNumber(d) == n
  {
    [Mon, Tue, Wed, Thu, Fri, Sat, Sun][n]
  }

  /** The weekday of a time. */
  function WeekdayOf(t: int): (d: Weekday)
    ensures WeekdayNumber(d) == (t / SecondsPerDay + 3) % 7
  {
    WeekdayFromNumber((t / SecondsPerDay + 3) % 7)
  }

  /** `parse_weekday`: trimmed, ASCII case ignored, short and long English names. */
  function ParseWeekday(value: string): (r: Option<Weekday>)
    ensures r.Some? ==> var v := Lower(Trim(value));
                        3 <= |v| && v[..3] == WeekdayName(r.value)[..3] && v <= WeekdayName(r.value)
  {
    WeekdayWord(Lower(Trim(value)))
  }

  /** The weekday a trimmed, lower-case word names. */
  function WeekdayWord(v: string): (r: Option<Weekday>)
    ensures r.Some? ==> 3 <= |v| && v[..3] == WeekdayName(r.value)[..3] && v <= WeekdayName(r.value)
  {
    if v == "mon" || v == "monday" then Some(Mon)
    else if v == "tue" || v == "tues" || v == "tuesday" then Some(Tue)
    else if v == "wed" || v == "wednesday" then Some(Wed)
    else if v == "thu" || v == "thurs" || v == "thursday" then Some(Thu)
    else if v == "fri" || v == "friday" then Some(Fri)
    else if v == "sat" || v == "saturday" then Some(Sat)
    else if v == "sun" || v == "sunday" then Some(Sun)
    else None
  }

  /** `parse_weekday_list`: the weekdays the list names, unparsable entries dropped. */
  function ParseWeekdayList(items: seq<string>): (r: set<Weekday>)
    ensures forall d :: d in r <==> exists i :: 0 <= i < |items| && ParseWeekday(items[i]) == Some(d)
  {
    set i, d | 0 <= i < |items| && d in [Mon, Tue, Wed, Thu, Fri, Sat, Sun] && ParseWeekday(items[i]) == Some(d) :: d
  }

  /** The fields of a recurrence template the stepping reads. */
  datatype RecurrenceTemplate = RecurrenceTemplate(frequency: string, interval: int, byDay: seq<string>)

  /** The template's interval, at least 1. */
  function Interval(template: RecurrenceTemplate): (n: int)
    ensures n >= 1
  {
    if template.interval < 1 then 1 else template.interval
  }

  /** The time `days` whole days after `from`. */
  function DaysAfter(from: int, days: int): (r: int)
    ensures r - from == days * SecondsPerDay
    ensures (r - from) % SecondsPerDay == 0
  {
    from + days * SecondsPerDay
  }

  /** The weekday `offset` days after `from`. */
  function ProbeWeekday(from: int, offset: int): Weekday
  {
    WeekdayOf(DaysAfter(from, offset))
  }

  /** The first offset in `offset..=limit` whose day falls on one of `days`. */
  function FirstMatch(from: int, days: set<Weekday>, offset: nat, limit: nat): (r: Option<nat>)
    ensures r.Some? ==> offset <= r.value <= limit && ProbeWeekday(from, r.value) in days
    ensures r.Some? ==> forall k :: offset <= k < r.value ==> ProbeWeekday(from, k) !in days
    ensures r.None? ==> forall k :: offset <= k <= limit ==> ProbeWeekday(from, k) !in days
    decreases limit + 1 - offset
  {
    if offset > limit then None
    else if ProbeWeekday(from, offset) in days then Some(offset)
    else FirstMatch(from, days, offset + 1, limit)
  }

  /** `next_recurrence_run`: the run is a whole number of days after `from`, at least one. */
  function NextRun(template: RecurrenceTemplate, from: int): (r: int)
    ensures r > from && (r - from) % SecondsPerDay == 0
  {
    DaysAfter(from, StepDays(template, from))
  }

  /** The days from `from` to the next run, per frequency. */
  function StepDays(template: RecurrenceTemplate, from: int): (n: int)
    ensures n >= 1
  {
    var interval := Interval(template);
    var frequency := Lower(template.frequency);
    if frequency == "daily" then interval
    else if frequency == "weekly" then
      var days := ParseWeekdayList(template.byDay);
      if days == {} then 7 * interval
      else
        var hit := FirstMatch(from, days, 1, 14 * interval);
        if hit.Some? then hit.value else 7 * interval
    else if frequency == "monthly" then 30 * interval
    else interval
  }

  /** `next_recurrence_run`, probing day by day for a weekly template with weekdays. */
  method NextRecurrenceRun(template: RecurrenceTemplate, from: int) returns (r: int)
    ensures r == NextRun(template, from)
  {
    var interval := Interval(template);
    var frequency := Lower(template.frequency);
    if frequency == "daily" {
      return DaysAfter(from, interval);
    } else if frequency == "weekly" {
      var days := ParseWeekdayList(template.byDay);
      if days == {} {
        return DaysAfter(from, 7 * interval);
      }
      var limit := 14 * interval;
      for offset := 1 to limit + 1
        invariant FirstMatch(from, days, 1, limit) == FirstMatch(from, days, offset, limit)
      {
        if ProbeWeekday(from, offset) in days {
          return DaysAfter(from, offset);
        }
      }
      return DaysAfter(from, 7 * interval);
    } else if frequency == "monthly" {
      return DaysAfter(from, 30 * interval);
    }
    return DaysAfter(from, interval);
  }

  // ---------------------------------------------------------------- properties

  /** A day later is the next weekday; a week later is the same weekday. */
  lemma WeekdayAdvances(t: int, days: int)
    ensures WeekdayNumber(WeekdayOf(DaysAfter(t, days))) == (WeekdayNumber(WeekdayOf(t)) + days) % 7
  {
    DayOfDaysAfter(t, days);
    ShiftWeekday(t / SecondsPerDay, days);
  }

  /** `days` days later is `days` whole days further on. */
  lemma DayOfDaysAfter(t: int, days: int)
    ensures DaysAfter(t, days) / SecondsPerDay == t / SecondsPerDay + days
  {
    assert DaysAfter(t, days) == t + days * SecondsPerDay;
  }

  /** Adding days before or after reducing modulo 7 gives the same weekday number. */
  lemma ShiftWeekday(d: int, days: int)
    ensures (d + days + 3) % 7 == ((d + 3) % 7 + days) % 7
  {
  }

  /** Every weekday comes up within the seven days after any time. */
  lemma EveryWeekdayWithinAWeek(from: int, day: Weekday) returns (k: nat)
    ensures 1 <= k <= 7 && ProbeWeekday(from, k) == day
  {
    var now := WeekdayNumber(WeekdayOf(from));
    k := (WeekdayNumber(day) - now) % 7;
    if k == 0 {
      k := 7;
    }
    WeekdayAdvances(from, k);
    assert WeekdayNumber(ProbeWeekday(from, k)) == WeekdayNumber(day);
  }

  /**
   * A weekly template naming weekdays runs next on the first later day that falls on one of
   * them, at most a week away, whatever its interval; the fallback after the probe is never
   * reached.
   */
  lemma WeeklyByDayIsNextListedDay(template: RecurrenceTemplate, from: int)
    requires Lower(template.frequency) == "weekly" && ParseWeekdayList(template.byDay) != {}
    ensures exists k :: 1 <= k <= 7 && NextRun(template, from) == DaysAfter(from, k)
              && ProbeWeekday(from, k) in ParseWeekdayList(template.byDay)
              && forall j :: 1 <= j < k ==> ProbeWeekday(from, j) !in ParseWeekdayList(template.byDay)
  {
    var days := ParseWeekdayList(template.byDay);
    var day :| day in days;
    var k := EveryWeekdayWithinAWeek(from, day);
    var hit := FirstMatch(from, days, 1, 14 * Interval(template));
    assert hit.Some? && hit.value <= k;
    assert "weekly" != "daily" by { assert "weekly"[0] != "daily"[0]; }
    assert StepDays(template, from) == hit.value;
    assert NextRun(template, from) == DaysAfter(from, hit.value);
  }

  /** Daily and unknown frequencies step by the interval in days, monthly by 30 days per interval. */
  lemma FixedSteps(template: RecurrenceTemplate, from: int)
    ensures Lower(template.frequency) == "monthly" ==> NextRun(template, from) == from + 30 * Interval(template) * SecondsPerDay
    ensures Lower(template.frequency) !in ["weekly", "monthly"] ==> NextRun(template, from) == from + Interval(template) * SecondsPerDay
    ensures Lower(template.frequency) == "weekly" && ParseWeekdayList(template.byDay) == {} ==>
              NextRun(template, from) == from + 7 * Interval(template) * SecondsPerDay
  {
  }

  /** The English name of a weekday, in lower case. */
  function WeekdayName(d: Weekday): string
  {
    match d
    case Mon => "monday"
    case Tue => "tuesday"
    case Wed => "wednesday"
    case Thu => "thursday"
    case Fri => "friday"
    case Sat => "saturday"
    case Sun => "sunday"
  }

  /** A non-empty run of lower-case ASCII letters is its own trimmed lower-case form. */
  lemma PlainWord(s: string)
    requires s != [] && forall i :: 0 <= i < |s| ==> 'a' <= s[i] <= 'z'
    ensures Lower(Trim(s)) == s
  {
    assert !IsWhitespace(s[0]) && !IsWhitespace(s[|s| - 1]);
    assert Trim(s) == s;
  }

  /** Every weekday's name and its three-letter abbreviation parse back to it. */
  lemma WeekdayNamesParse(d: Weekday)
    ensures ParseWeekday(WeekdayName(d)) == Some(d)
    ensures ParseWeekday(WeekdayName(d)[..3]) == Some(d)
  {
    var name := WeekdayName(d);
    NameIsLowerCase(d);
    FullNameNamesDay(d);
    ShortNameNamesDay(d);
    PlainWord(name);
    PlainWord(name[..3]);
  }

  /** A weekday's name is at least three lower-case letters. */
  lemma NameIsLowerCase(d: Weekday)
    ensures |WeekdayName(d)| >= 3 && forall i :: 0 <= i < |WeekdayName(d)| ==> 'a' <= WeekdayName(d)[i] <= 'z'
  {
  }

  /** The full name is one of the words for its day. */
  lemma FullNameNamesDay(d: Weekday)
    ensures WeekdayWord(WeekdayName(d)) == Some(d)
  {
  }

  /** So is its three-letter abbreviation. */
  lemma ShortNameNamesDay(d: Weekday)
    requires |WeekdayName(d)| >= 3
    ensures WeekdayWord(WeekdayName(d)[..3]) == Some(d)
  {
    match d
    case Mon => assert WeekdayName(d)[..3] == "mon";
    case Tue => assert WeekdayName(d)[..3] == "tue";
    case Wed => assert WeekdayName(d)[..3] == "wed";
    case Thu => assert WeekdayName(d)[..3] == "thu";
    case Fri => assert WeekdayName(d)[..3] == "fri";
    case Sat => assert WeekdayName(d)[..3] == "sat";
    case Sun => assert WeekdayName(d)[..3] == "sun";
  }

  /** Leading whitespace does not change what a weekday entry parses to. */
  lemma LeadingSpaceIgnored(value: string)
    ensures ParseWeekday([' '] + value) == ParseWeekday(value)
  {
    assert ([' '] + value)[1..] == value;
  }

  /** Any run of leading whitespace is ignored. */
  lemma LeadingBlankIgnored(lead: string, value: string)
    requires IsBlank(lead)
    ensures ParseWeekday(lead + value) == ParseWeekday(value)
  {
    TrimSkipsBlank(lead, value);
  }

  lemma {:induction false} TrimSkipsBlank(lead: string, value: string)
    requires IsBlank(lead)
    ensures Trim(lead + value) == Trim(value)
    decreases |lead|
  {
    if lead != [] {
      assert (lead + value)[1..] == lead[1..] + value;
      TrimDropFirst(lead + value);
      TrimSkipsBlank(lead[1..], value);
    } else {
      assert lead + value == value;
    }
  }

  /** An entry parses as its trimmed text does. */
  lemma SurroundingBlankIgnored(value: string)
    ensures ParseWeekday(value) == ParseWeekday(Trim(value))
  {
    TrimTwice(value);
  }
}
