/**
 * The date window of `main()` in gitfucktime/main.py: the start and end of the period
 * the new commit dates are drawn from, the checks that stop the run before any
 * timestamp is drawn, and the confirmations (future dates, a start before the parent
 * commit, a diverged branch). The derivation part is repeated in gitfucktime.py's main,
 * which has none of the confirmations.
 *
 * Parsing `YYYY-MM-DD` text (strptime) is left out: an argument is absent, malformed, or
 * names a day. The clock (`datetime.now()`), the answers to the confirmation prompts
 * and the parent commit's date (`get_commit_date`) are inputs.
 */
module Window {
  import opened Wrappers
  import opened Calendar
  import opened Commits
  import opened Selection
  import opened Rewrite

  /** `--start` / `--end` / the prompted start: empty or missing, not a date, or a day. */
  datatype DateArg = Absent | Malformed | OnDay(day: int)

  /** Where the window resolution ends: a window, or the reason main returns early. */
  datatype WindowOutcome =
    | Resolved(start: DateTime, end: DateTime)
    | BadStart        // "Invalid start date format"
    | BadEnd          // "Invalid end date format"
    | NoStart         // the prompt was cancelled or could not be parsed
    | StartAfterEnd   // "Start date must be before end date."
    | LastAndFirst    // "Cannot use both --last and --first flags."
    | FutureRefused   // the future-date confirmation was declined
    | StartAfterNow   // "Start date is after current time. Cannot proceed."

  /** The start date: `--start` at midnight; otherwise the first work day after the
      parent commit's date (its time of day kept), the clock when that date is unknown,
      and the prompted day when there is no parent commit. */
  function StartDate(startArg: DateArg, rangeStart: Option<string>, parentDate: Option<DateTime>,
                     prompt: DateArg, now: DateTime): Option<DateTime>
  {
    if startArg.OnDay? then Some(DateTime(startArg.day, 0))
    else if Present(rangeStart) then
      if parentDate.Some? then Some(NextWorkDay(parentDate.value)) else Some(now)
    else if prompt.OnDay? then Some(DateTime(prompt.day, 0))
    else None
  }

  /** The end date: 23:59:59 of `--end`, or of the day max(1, n - 1) days after the start
      for n commits. */
  function EndDate(endArg: DateArg, start: DateTime, n: int): DateTime
  {
    if endArg.OnDay? then EndOfDay(endArg.day) else EndOfDay(start.day + Max(1, n - 1))
  }

  /** main.py:233-294 (gitfucktime.py:165-223): parse the arguments, fill in the missing
      dates, reject an inverted window and the `--last`/`--first` combination. */
  function DeriveWindow(startArg: DateArg, endArg: DateArg, n: int, mode: Mode,
                        rangeStart: Option<string>, parentDate: Option<DateTime>,
                        prompt: DateArg, now: DateTime): WindowOutcome
  {
    if startArg.Malformed? then BadStart
    else if endArg.Malformed? then BadEnd
    else
      var start := StartDate(startArg, rangeStart, parentDate, prompt, now);
      if start.None? then NoStart
      else
        var end := EndDate(endArg, start.value, n);
        if Before(end, start.value) then StartAfterEnd
        else if Truthy(mode.last) && Truthy(mode.first) then LastAndFirst
        else Resolved(start.value, end)
  }

  /** The run rewrites everything, with neither `--unpushed` nor `--last` nor `--first`. */
  predicate DefaultMode(mode: Mode)
  {
    !mode.unpushed && WholeScope(mode)
  }

  /** main.py:304-318: an end after `now` needs confirmation when the end was given or
      the run is in default mode; otherwise it is capped at `now`, which is an error
      when the start lies after `now`. */
  function FutureRule(w: WindowOutcome, explicitEnd: bool, mode: Mode, now: DateTime,
                      confirmFuture: bool): WindowOutcome
  {
    if !w.Resolved? || !Before(now, w.end) then w
    else if explicitEnd || DefaultMode(mode) then
      if confirmFuture then w else FutureRefused
    else if Before(now, w.start) then StartAfterNow
    else Resolved(w.start, now)
  }

  /** The window main settles on before drawing timestamps. */
  function ResolveWindow(startArg: DateArg, endArg: DateArg, n: int, mode: Mode,
                         rangeStart: Option<string>, parentDate: Option<DateTime>,
                         prompt: DateArg, now: DateTime, confirmFuture: bool): WindowOutcome
  {
    FutureRule(DeriveWindow(startArg, endArg, n, mode, rangeStart, parentDate, prompt, now),
               endArg.OnDay?, mode, now, confirmFuture)
  }

  /** main.py:233-318 step by step: `start_date` and `end_date` start as None and are
      filled in, checked and capped in the order main does it. */
  method ResolveDates(startArg: DateArg, endArg: DateArg, n: int, mode: Mode,
                      rangeStart: Option<string>, parentDate: Option<DateTime>,
                      prompt: DateArg, now: DateTime, confirmFuture: bool)
    returns (w: WindowOutcome)
    ensures w == ResolveWindow(startArg, endArg, n, mode, rangeStart, parentDate, prompt, now,
                               confirmFuture)
  {
    var startDate: Option<DateTime> := None;
    var endDate: Option<DateTime> := None;
    if !startArg.Absent? {
      if startArg.Malformed? {
        return BadStart;
      }
      startDate := Some(DateTime(startArg.day, 0));
    }
    if !endArg.Absent? {
      if endArg.Malformed? {
        return BadEnd;
      }
      endDate := Some(EndOfDay(endArg.day));
    }
    if startDate.None? {
      if Present(rangeStart) {
        if parentDate.Some? {
          var next := GetNextWorkDay(parentDate.value);
          startDate := Some(next);
        } else {
          startDate := Some(now);  // "Fallback to today."
        }
      } else {
        // `not args.start` holds here: the start date is prompted for
        if !prompt.OnDay? {
          return NoStart;
        }
        startDate := Some(DateTime(prompt.day, 0));
      }
    }
    assert startDate == StartDate(startArg, rangeStart, parentDate, prompt, now);
    var start := startDate.value;
    var end: DateTime;
    if endDate.None? {
      end := EndOfDay(start.day + Max(1, n - 1));
    } else {
      end := endDate.value;
    }
    assert end == EndDate(endArg, start, n);
    ghost var derived := DeriveWindow(startArg, endArg, n, mode, rangeStart, parentDate, prompt, now);
    assert !Before(end, start) && !(Truthy(mode.last) && Truthy(mode.first))
           ==> derived == Resolved(start, end);
    if Before(end, start) {
      return StartAfterEnd;
    }
    if Truthy(mode.last) && Truthy(mode.first) {
      return LastAndFirst;
    }
    if Before(now, end) {
      if endArg.OnDay? || DefaultMode(mode) {
        if !confirmFuture {
          return FutureRefused;
        }
      } else {
        end := now;
        if Before(end, start) {
          return StartAfterNow;
        }
      }
    }
    return Resolved(start, end);
  }

  /** A derived window is never inverted, an explicit end is 23:59:59 of its day, the
      automatic end is 23:59:59 max(1, n - 1) days after the start, and `--last` with
      `--first` is rejected whenever the dates themselves are acceptable. */
  lemma DeriveWindowShape(startArg: DateArg, endArg: DateArg, n: int, mode: Mode,
                          rangeStart: Option<string>, parentDate: Option<DateTime>,
                          prompt: DateArg, now: DateTime)
    ensures var w := DeriveWindow(startArg, endArg, n, mode, rangeStart, parentDate, prompt, now);
      (w.Resolved? ==> NotAfter(w.start, w.end))
      && (w.Resolved? && endArg.OnDay? ==> w.end == EndOfDay(endArg.day))
      && (w.Resolved? && endArg.Absent? ==> w.end == EndOfDay(w.start.day + Max(1, n - 1)))
      && (w.Resolved? && startArg.OnDay? ==> w.start == DateTime(startArg.day, 0))
      && (w.Resolved? ==> !(Truthy(mode.last) && Truthy(mode.first)))
      && (Truthy(mode.last) && Truthy(mode.first) ==> !w.Resolved?)
  {
  }

  /** With no `--start` and a parent commit whose date is known, the window opens on the
      first work day after that date, at the same time of day, and no work day is
      skipped in between. */
  lemma StartAfterParent(startArg: DateArg, endArg: DateArg, n: int, mode: Mode,
                         rangeStart: Option<string>, parent: DateTime, prompt: DateArg,
                         now: DateTime, confirmFuture: bool)
    requires startArg.Absent? && Present(rangeStart)
    ensures var w := ResolveWindow(startArg, endArg, n, mode, rangeStart, Some(parent), prompt,
                                   now, confirmFuture);
      w.Resolved? ==>
        w.start == NextWorkDay(parent) && IsWorkDay(w.start) && w.start.secs == parent.secs
        && parent.day < w.start.day <= parent.day + 3
  {
  }

  /** The future rule: a resolved window extends past `now` only with consent, and only
      when the end was given or the run is in default mode; in the narrowed modes with an
      automatic end, the window ends no later than `now` and still opens before the end. */
  lemma FutureRuleHolds(startArg: DateArg, endArg: DateArg, n: int, mode: Mode,
                        rangeStart: Option<string>, parentDate: Option<DateTime>,
                        prompt: DateArg, now: DateTime, confirmFuture: bool)
    ensures var d := DeriveWindow(startArg, endArg, n, mode, rangeStart, parentDate, prompt, now);
      var w := ResolveWindow(startArg, endArg, n, mode, rangeStart, parentDate, prompt, now,
                             confirmFuture);
      (w.Resolved? ==> NotAfter(w.start, w.end))
      && (w.Resolved? && Before(now, w.end) ==> confirmFuture && (endArg.OnDay? || DefaultMode(mode)))
      && (w.Resolved? && !endArg.OnDay? && !DefaultMode(mode) ==> NotAfter(w.end, now))
      && (w.Resolved? ==> d.Resolved? && w.start == d.start
                          && (w.end == d.end || (w.end == now && Before(now, d.end))))
      && (w == FutureRefused <==> d.Resolved? && Before(now, d.end)
                                  && (endArg.OnDay? || DefaultMode(mode)) && !confirmFuture)
  {
  }

  /** main.py:320-328: the start lies before the known date of the parent commit. */
  predicate NeedsParentConfirmation(rangeStart: Option<string>, parentDate: Option<DateTime>,
                                    start: DateTime)
  {
    Present(rangeStart) && parentDate.Some? && Before(start, parentDate.value)
  }

  const DivergenceLimit: int := 50

  /** main.py:331-342: the branch is more than 50 commits ahead of or behind
      origin/master; nothing is asked when the counts could not be computed. */
  predicate NeedsDivergenceConfirmation(d: Option<Divergence>)
  {
    d.Some? && (d.value.ahead > DivergenceLimit || d.value.behind > DivergenceLimit)
  }

  /** Confirmation is asked exactly when both counts are known and one exceeds 50. */
  lemma DivergenceThreshold(ahead: Option<int>, behind: Option<int>)
    ensures NeedsDivergenceConfirmation(CheckBranchDivergence(ahead, behind))
        <==> ahead.Some? && behind.Some? && (ahead.value > 50 || behind.value > 50)
  {
  }

  /** When the window opens on the first work day after the parent commit, the parent
      check never asks: the start lies after the parent's date. */
  lemma NextWorkDayStartNeedsNoConfirmation(rangeStart: Option<string>, parent: DateTime)
    ensures !NeedsParentConfirmation(rangeStart, Some(parent), NextWorkDay(parent))
  {
  }
}
