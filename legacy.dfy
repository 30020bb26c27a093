/**
 * The standalone script gitfucktime.py: the same selection, date derivation, timestamp
 * generation and filter script as the package, but without the future-date rule, the
 * parent and divergence confirmations, the backup branch, and with a revision range
 * that is `HEAD~N..HEAD` for `--last N` and `HEAD` for everything else.
 *
 * Its get_commits, get_next_work_day, is_work_day and generate_work_hours_timestamp are
 * the package's functions word for word, so the model reuses Commits, Calendar and
 * Planning for them.
 */
module Legacy {
  import opened Wrappers
  import opened Calendar
  import opened FilterScript
  import opened Rewrite
  import opened Selection
  import opened Window
  import opened Planning
  import opened Session

  /** gitfucktime.py:271-276: `HEAD~N..HEAD` for a truthy `--last`, `HEAD` otherwise. */
  function LegacyRange(last: Option<int>): RevRange
  {
    if Truthy(last) then LastN(last.value) else WholeHead
  }

  /** The two range rules agree except where the package starts from a known anchor:
      there the script rewrites all of HEAD (anchored ranges rewrite only the commits
      after the anchor). */
  lemma LegacyRangeDiffers(last: Option<int>, unpushed: bool, first: Option<int>,
                           rangeStart: Option<string>)
    ensures var core := RevisionRange(last, unpushed, first, rangeStart);
      (core.FromAnchor? ==> LegacyRange(last) == WholeHead)
      && (!core.FromAnchor? ==> LegacyRange(last) == core)
  {
  }

  /** The run of gitfucktime.py's main over a repository snapshot. A failed rev-list
      ends the script with an uncaught exception, modelled as FetchFailed. */
  function LegacyMain(a: Args, o: World, s: RepoState): (RunOutcome, RepoState)
  {
    var sel := Select(a.mode, o.head, o.unpushed, o.revParse, o.mergeBase);
    if sel.None? then (FetchFailed, s)
    else if sel.value.commits == [] then (NoCommits, s)
    else
      var commits, rs := sel.value.commits, sel.value.rangeStart;
      var w := DeriveWindow(a.start, a.end, |commits|, a.mode, rs, ParentDate(o, rs), o.prompt, o.now);
      if !w.Resolved? then (WindowStopped(w), s)
      else
        var d := DrawAll(w.start, w.end, [], |commits|, o.draws, 0);
        if !d.Drawn? then (DrawStopped(d), s)
        else
          var mapping := Assign(commits, FormatAll(SortTimes(d.stamps), o.format));
          var cmd := FilterCommand(o.filterFile, LegacyRange(a.mode.last));
          (Finished(Script(mapping), cmd, None, o.filterOk),
           if o.filterOk then FilterBranch(s, o.newHead) else s)
  }

  /** gitfucktime.py's main, step by step, on a repository. */
  method LegacyRun(repo: Repository, a: Args, o: World) returns (outcome: RunOutcome)
    modifies repo
    ensures (outcome, repo.State()) == LegacyMain(a, o, old(repo.State()))
  {
    var sel := SelectCommits(a.mode, o.head, o.unpushed, o.revParse, o.mergeBase);
    if sel.None? {
      return FetchFailed;
    }
    var commits := sel.value.commits;
    var revisionRangeStart := sel.value.rangeStart;
    if |commits| == 0 {
      return NoCommits;
    }
    var parentDate: Option<DateTime> := None;
    if Present(revisionRangeStart) {
      parentDate := o.commitDate(revisionRangeStart.value);
    }
    assert parentDate == ParentDate(o, revisionRangeStart);
    // The package's date resolution without the future rule: confirmFuture is never
    // consulted, because the end is kept whatever `now` is.
    var w := DeriveWindow(a.start, a.end, |commits|, a.mode, revisionRangeStart, parentDate,
                          o.prompt, o.now);
    if !w.Resolved? {
      return WindowStopped(w);
    }
    var drawn := DrawTimestamps(w.start, w.end, [], |commits|, o.draws, 0);
    if !drawn.Drawn? {
      return DrawStopped(drawn);
    }
    var timestamps := SortTimes(drawn.stamps);
    var mapping := BuildMapping(commits, timestamps, o.format);
    var filterScript := GenerateFilterScript(mapping);
    var cmd := FilterCommand(o.filterFile, LegacyRange(a.mode.last));
    if o.filterOk {
      repo.RunFilterBranch(o.newHead);
    }
    return Finished(filterScript, cmd, None, o.filterOk);
  }

  /** The script never creates a backup branch and never touches the working tree or
      the stash; the only change it makes is the rewrite itself. */
  lemma LegacyNeverBacksUp(a: Args, o: World, s: RepoState)
    ensures var (r, t) := LegacyMain(a, o, s);
      t.branches == s.branches && t.worktree == s.worktree && t.stash == s.stash
      && (r.Finished? ==> r.backup.None?)
      && (t != s ==> r.Finished? && r.rewritten && t == FilterBranch(s, o.newHead))
  {
  }

  /** In the default mode (no `--last`, `--first`, `--unpushed`) with `--no-backup` and
      every confirmation given, the package's run is exactly the script's run. */
  lemma LegacyIsConfirmedDefaultRun(a: Args, o: World, s: RepoState)
    requires DefaultMode(a.mode) && a.noBackup
    requires o.confirmFuture && o.confirmParent && o.confirmDiverged
    ensures Main(a, o, s, []) == LegacyMain(a, o, s)
  {
    var sel := Select(a.mode, o.head, o.unpushed, o.revParse, o.mergeBase);
    if sel.Some? && sel.value.commits != [] {
      var commits, rs := sel.value.commits, sel.value.rangeStart;
      assert RevisionRange(a.mode.last, a.mode.unpushed, a.mode.first, rs) == WholeHead;
      assert Main(a, o, s, []) == Proceed(a, o, s, [], commits, rs);
    }
  }
}
