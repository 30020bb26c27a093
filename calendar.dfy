/**
 * The work calendar of gitfucktime/utils.py (textually repeated in gitfucktime.py):
 * whether a date is a work day, the next work day after a date, and the rejection
 * loop that draws a random work-hours timestamp between two dates.
 *
 * A datetime is a Python proleptic Gregorian ordinal (day 1 is 0001-01-01, a Monday)
 * plus the seconds elapsed in that day. Microseconds, time zones and the calendar
 * fields year/month/day are not needed by the logic and are left out.
 */
module Calendar {

  const SecondsPerDay: int := 86400

  type SecondOfDay = s: int | 0 <= s < 86400

  /** A naive datetime: `day` is `date.toordinal()`, `secs` the time of day in seconds. */
  datatype DateTime = DateTime(day: int, secs: SecondOfDay)

  /** Seconds since the ordinal epoch; Python compares datetimes by this number. */
  function Ticks(t: DateTime): int
  {
    t.day * SecondsPerDay + t.secs
  }

  /** Python's `a < b` on datetimes. */
  predicate Before(a: DateTime, b: DateTime)
  {
    Ticks(a) < Ticks(b)
  }

  /** Python's `a <= b` on datetimes. */
  predicate NotAfter(a: DateTime, b: DateTime)
  {
    Ticks(a) <= Ticks(b)
  }

  function Hour(t: DateTime): int { t.secs / 3600 }
  function Minute(t: DateTime): int { t.secs / 60 % 60 }
  function Second(t: DateTime): int { t.secs % 60 }

  /** `d.replace(hour=h, minute=m, second=s)` for a datetime on ordinal `day`. */
  function At(day: int, h: int, m: int, s: int): (t: DateTime)
    requires 0 <= h < 24 && 0 <= m < 60 && 0 <= s < 60
    ensures t.day == day && Hour(t) == h && Minute(t) == m && Second(t) == s
  {
    var secs := 3600 * h + (60 * m + s);
    assert secs / 3600 == h;
    assert secs / 60 == 60 * h + m && secs % 60 == s;
    assert (60 * h + m) % 60 == m;
    DateTime(day, secs)
  }

  /** 23:59:59 of a day, as `replace(hour=23, minute=59, second=59)` sets it. */
  function EndOfDay(day: int): (t: DateTime)
    ensures t.day == day && Hour(t) == 23 && Minute(t) == 59 && Second(t) == 59
    ensures forall u: DateTime :: u.day == day ==> NotAfter(u, t)
  {
    At(day, 23, 59, 59)
  }

  /** `date.weekday()`: Monday is 0, Sunday is 6. */
  function Weekday(day: int): (w: int)
    ensures 0 <= w < 7
  {
    (day + 6) % 7
  }

  lemma WeekdayShift(day: int, j: nat)
    ensures Weekday(day + j) == (Weekday(day) + j) % 7
  {
    var q := (day + 6) / 7;
    assert day + 6 == 7 * q + Weekday(day);
    assert day + j + 6 == 7 * q + (Weekday(day) + j);
  }

  /** `is_work_day`: Monday to Friday. */
  predicate IsWorkDay(t: DateTime)
  {
    Weekday(t.day) < 5
  }

  /** The week has its two non-work days side by side: a day is a weekend day exactly
      when it is Saturday (5) or Sunday (6), and after a weekend day comes either the
      other weekend day or a Monday. */
  lemma WeekendShape(t: DateTime)
    ensures !IsWorkDay(t) <==> Weekday(t.day) == 5 || Weekday(t.day) == 6
    ensures !IsWorkDay(t) ==> Weekday(t.day + 1) == 6 || Weekday(t.day + 1) == 0
    ensures Weekday(t.day + 7) == Weekday(t.day)
  {
    WeekdayShift(t.day, 1);
    WeekdayShift(t.day, 7);
  }

  /** The test fixtures' dates: 2023-10-28 (ordinal 738821) is a Saturday and
      2024-01-01 (ordinal 738886) a Monday. */
  lemma KnownDates()
    ensures !IsWorkDay(DateTime(738821, 3 * 3600)) && Weekday(738821) == 5
    ensures IsWorkDay(DateTime(738886, 0)) && Weekday(738886) == 0
  {
  }

  /** Days from a day with weekday w to the next work day: Friday jumps to Monday. */
  function DaysToNextWorkDay(w: int): int
  {
    if w == 4 then 3 else if w == 5 then 2 else 1
  }

  /** `get_next_work_day(date)`: strictly later, a work day, no work day in between,
      the same time of day, and never more than three days ahead. */
  function NextWorkDay(t: DateTime): (r: DateTime)
    ensures r.day > t.day && IsWorkDay(r)
    ensures forall k :: t.day < k < r.day ==> Weekday(k) >= 5
    ensures r.secs == t.secs && r.day - t.day <= 3
  {
    var w := Weekday(t.day);
    WeekdayShift(t.day, 1);
    WeekdayShift(t.day, 2);
    WeekdayShift(t.day, 3);
    DateTime(t.day + DaysToNextWorkDay(w), t.secs)
  }

  /** The three properties of NextWorkDay pin it down: any later work day with no work
      day before it is NextWorkDay itself. */
  lemma NextWorkDayUnique(t: DateTime, r: DateTime)
    requires r.day > t.day && IsWorkDay(r) && r.secs == t.secs
    requires forall k :: t.day < k < r.day ==> Weekday(k) >= 5
    ensures r == NextWorkDay(t)
  {
  }

  /** get_next_work_day as written: step one day, then keep stepping while the day is a
      weekend day. */
  method GetNextWorkDay(date: DateTime) returns (nextDay: DateTime)
    ensures nextDay == NextWorkDay(date)
  {
    nextDay := DateTime(date.day + 1, date.secs);
    while !IsWorkDay(nextDay)
      invariant date.day < nextDay.day <= NextWorkDay(date).day
      invariant nextDay.secs == date.secs
      decreases NextWorkDay(date).day - nextDay.day
    {
      nextDay := DateTime(nextDay.day + 1, nextDay.secs);
    }
  }

  /** `random.randint(lo, hi)`, driven by one raw draw of the random stream reduced into
      the inclusive range; a raw draw k with k <= hi - lo picks lo + k. */
  function RandInt(lo: int, hi: int, raw: nat): (v: int)
    requires lo <= hi
    ensures lo <= v <= hi
  {
    lo + raw % (hi - lo + 1)
  }

  /** `(end_date - start_date).days + 1`: `timedelta.days` rounds toward minus infinity,
      as Dafny's division by a positive number does. */
  function TotalDays(start: DateTime, end: DateTime): int
  {
    (Ticks(end) - Ticks(start)) / SecondsPerDay + 1
  }

  lemma TotalDaysOfOrderedWindow(start: DateTime, end: DateTime)
    requires NotAfter(start, end)
    ensures TotalDays(start, end) >= 1
    ensures start.day + TotalDays(start, end) - 1 <= end.day <= start.day + TotalDays(start, end)
  {
  }

  /** `start_date + timedelta(days=random_days)` for one day draw. */
  function Candidate(start: DateTime, totalDays: int, raw: nat): DateTime
    requires totalDays >= 0
  {
    DateTime(start.day + RandInt(0, totalDays, raw), start.secs)
  }

  /** The outcome of one call of generate_work_hours_timestamp over a stream of draws.
      `next` is the position of the first draw not consumed. `EmptyRange` is the
      ValueError that `randint(0, total_days)` raises when total_days < 0. `OutOfDraws`
      says the given draws ran out before a work day was drawn: the source keeps
      drawing, and never stops if no candidate day is a work day. */
  datatype Generated = Stamp(at: DateTime, next: nat) | EmptyRange | OutOfDraws

  /** A timestamp inside work hours as the tests check them: Monday to Friday, hour 9
      to 16 inclusive. */
  predicate WorkInstant(t: DateTime)
  {
    IsWorkDay(t) && 9 <= Hour(t) <= 16 && 0 <= Minute(t) <= 59 && 0 <= Second(t) <= 59
  }

  /** The rejection loop from draw `i` on. A result is built from the first draw whose
      candidate day is a work day; it lies on that day, at a work-hours time; every
      earlier day draw was rejected. No result comes out exactly when every day draw
      that still has three draws after it is rejected. */
  function GenerateFrom(start: DateTime, totalDays: int, draws: seq<nat>, i: nat): (g: Generated)
    requires totalDays >= 0 && i <= |draws|
    ensures !g.EmptyRange?
    ensures g.Stamp? ==> i + 4 <= g.next <= |draws|
    ensures g.Stamp? ==> WorkInstant(g.at)
    ensures g.Stamp? ==> start.day <= g.at.day <= start.day + totalDays
    ensures g.Stamp? ==> g.at.day == Candidate(start, totalDays, draws[g.next - 4]).day
    ensures g.Stamp? ==> forall k :: i <= k < g.next - 4 ==> !IsWorkDay(Candidate(start, totalDays, draws[k]))
    ensures g.OutOfDraws? <==> forall k :: i <= k < |draws| - 3 ==> !IsWorkDay(Candidate(start, totalDays, draws[k]))
    decreases |draws| - i
  {
    if i == |draws| then OutOfDraws
    else
      var target := Candidate(start, totalDays, draws[i]);
      if IsWorkDay(target) then
        if i + 3 < |draws| then
          var hour := RandInt(9, 16, draws[i + 1]);
          var minute := RandInt(0, 59, draws[i + 2]);
          var second := RandInt(0, 59, draws[i + 3]);
          Stamp(At(target.day, hour, minute, second), i + 4)
        else
          OutOfDraws
      else
        GenerateFrom(start, totalDays, draws, i + 1)
  }

  /** `generate_work_hours_timestamp(start_date, end_date)` over the draws from `from`. */
  function Generate(start: DateTime, end: DateTime, draws: seq<nat>, from: nat): Generated
    requires from <= |draws|
  {
    var totalDays := TotalDays(start, end);
    if totalDays < 0 then EmptyRange else GenerateFrom(start, totalDays, draws, from)
  }

  /** The call fails with ValueError exactly when end lies more than a day before start;
      otherwise any result sits on a work day at a work-hours time, on day
      start.day + k with 0 <= k <= (end - start).days + 1. */
  lemma GenerateBounds(start: DateTime, end: DateTime, draws: seq<nat>, from: nat)
    requires from <= |draws|
    ensures Generate(start, end, draws, from).EmptyRange? <==> TotalDays(start, end) < 0
    ensures Generate(start, end, draws, from).Stamp? ==>
      var t := Generate(start, end, draws, from).at;
      WorkInstant(t) && start.day <= t.day <= start.day + TotalDays(start, end)
  {
  }

  /** When no candidate day in start.day .. start.day + total_days is a work day, no
      stream of draws ever yields a timestamp: the source's `while True` never ends. */
  lemma {:induction false} NoWorkDayNoStamp(start: DateTime, end: DateTime, draws: seq<nat>, from: nat)
    requires from <= |draws| && TotalDays(start, end) >= 0
    requires forall d :: start.day <= d <= start.day + TotalDays(start, end) ==> Weekday(d) >= 5
    ensures Generate(start, end, draws, from).OutOfDraws?
  {
    var total := TotalDays(start, end);
    forall k | from <= k < |draws| - 3
      ensures !IsWorkDay(Candidate(start, total, draws[k]))
    {
      var d := Candidate(start, total, draws[k]).day;
      assert start.day <= d <= start.day + total;
    }
  }

  /** A window holding one Saturday only, 2025-12-06 from 00:00:00 to 23:59:59: the
      candidates are that Saturday and the Sunday after it, so no draw is accepted. */
  lemma SaturdayWindowNeverYields(draws: seq<nat>)
    ensures Generate(DateTime(739591, 0), EndOfDay(739591), draws, 0).OutOfDraws?
  {
    var start, end := DateTime(739591, 0), EndOfDay(739591);
    assert TotalDays(start, end) == 1;
    assert Weekday(739591) == 5 && Weekday(739592) == 6;
    NoWorkDayNoStamp(start, end, draws, 0);
  }

  /** Conversely, every work day among the candidates is reachable: the draw naming its
      offset, followed by the clock draws, produces a timestamp on that day. */
  lemma WorkDayReachable(start: DateTime, end: DateTime, k: nat, h: nat, m: nat, s: nat)
    requires k <= TotalDays(start, end) && Weekday(start.day + k) < 5
    requires 9 <= h <= 16 && m < 60 && s < 60
    ensures Generate(start, end, [k, h - 9, m, s], 0) == Stamp(At(start.day + k, h, m, s), 4)
  {
    var total := TotalDays(start, end);
    assert RandInt(0, total, k) == k;
    assert RandInt(9, 16, h - 9) == h;
    assert RandInt(0, 59, m) == m;
    assert RandInt(0, 59, s) == s;
  }

  /** `randint(0, total_days)` is inclusive, so the result may fall on the day after
      `end_date`: with start and end both 2024-01-01 00:00 (a Monday), the day draw 1
      picks Tuesday 2024-01-02, later than the end of the window. */
  lemma CanLandPastEnd()
    ensures var start := DateTime(738886, 0);
            var g := Generate(start, start, [1, 0, 0, 0], 0);
            g.Stamp? && g.at.day == 738887 && Before(start, g.at)
  {
    var start := DateTime(738886, 0);
    assert TotalDays(start, start) == 1;
    assert RandInt(0, 1, 1) == 1;
    assert Weekday(738887) == 1;
  }

  /** generate_work_hours_timestamp as written: a rejection loop over the draws. */
  method GenerateWorkHoursTimestamp(start: DateTime, end: DateTime, draws: seq<nat>, from: nat)
    returns (g: Generated)
    requires from <= |draws|
    ensures g == Generate(start, end, draws, from)
  {
    var totalDays := TotalDays(start, end);
    if totalDays < 0 {
      return EmptyRange;
    }
    var i := from;
    while i < |draws|
      invariant from <= i <= |draws|
      invariant GenerateFrom(start, totalDays, draws, i) == Generate(start, end, draws, from)
      decreases |draws| - i
    {
      var randomDays := RandInt(0, totalDays, draws[i]);
      var targetDate := DateTime(start.day + randomDays, start.secs);
      assert targetDate == Candidate(start, totalDays, draws[i]);
      if IsWorkDay(targetDate) {
        if i + 3 >= |draws| {
          return OutOfDraws;
        }
        var hour := RandInt(9, 16, draws[i + 1]);
        var minute := RandInt(0, 59, draws[i + 2]);
        var second := RandInt(0, 59, draws[i + 3]);
        return Stamp(At(targetDate.day, hour, minute, second), i + 4);
      }
      assert GenerateFrom(start, totalDays, draws, i) == GenerateFrom(start, totalDays, draws, i + 1);
      i := i + 1;
    }
    return OutOfDraws;
  }
}
