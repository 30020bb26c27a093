/**
 * The rewrite run of `main()` in gitfucktime/main.py, from fetching the commits to
 * running `git filter-branch`, on a repository object (the `--view` and `--revert`
 * modes, the interactive menu and all printing are outside this module).
 *
 * Everything the run asks the outside world is an input: git's answers, the clock, the
 * confirmation prompts, the random draws and the strftime rendering of a timestamp.
 */
module Session {
  import opened Wrappers
  import opened Calendar
  import opened Commits
  import opened FilterScript
  import opened Rewrite
  import opened Selection
  import opened Window
  import opened Planning

  /** The command-line arguments of a rewrite run. */
  datatype Args = Args(start: DateArg, end: DateArg, mode: Mode, noBackup: bool)

  /** The answers of the outside world during one run. */
  datatype World = World(
    head: Query,                          // git rev-list HEAD
    unpushed: Query,                      // git rev-list origin/master..HEAD
    revParse: string -> Option<string>,   // git rev-parse <arg>
    mergeBase: Option<string>,            // git merge-base origin/master HEAD
    commitDate: string -> Option<DateTime>, // get_commit_date
    prompt: DateArg,                      // the typed-in start date
    now: DateTime,                        // datetime.now()
    confirmFuture: bool,
    confirmParent: bool,
    confirmDiverged: bool,
    ahead: Option<int>,                   // git rev-list --count origin/master..HEAD
    behind: Option<int>,                  // git rev-list --count HEAD..origin/master
    draws: seq<nat>,                      // the random stream
    format: DateTime -> string,           // strftime(TIME_FORMAT)
    filterFile: string,                   // os.path.abspath(".git_date_filter.sh")
    stamp: string,                        // the backup timestamp text
    branchOk: bool,                       // git branch <backup> succeeds
    filterOk: bool,                       // git filter-branch succeeds
    newHead: string)                      // the commit filter-branch leaves HEAD at

  /** How a run ends. */
  datatype RunOutcome =
    | FetchFailed                           // "Failed to fetch commits"
    | NoCommits                             // "No commits to process."
    | WindowStopped(reason: WindowOutcome)  // a date error or a declined future date
    | ParentRefused                         // declined the start-before-parent warning
    | DivergenceRefused                     // declined the divergence warning
    | DrawStopped(drawn: Drawn)             // the timestamp calls did not all return
    | Finished(script: string, command: string, backup: Option<string>, rewritten: bool)

  /** The run over a repository snapshot; `keywords` are the keyword arguments of the
      timestamp call (main.py:353 passes `max_time`, see AsWrittenMainNeverRewrites). */
  function Main(a: Args, o: World, s: RepoState, keywords: seq<string>): (RunOutcome, RepoState)
  {
    var sel := Select(a.mode, o.head, o.unpushed, o.revParse, o.mergeBase);
    if sel.None? then (FetchFailed, s)
    else if sel.value.commits == [] then (NoCommits, s)
    else Proceed(a, o, s, keywords, sel.value.commits, sel.value.rangeStart)
  }

  /** The parent commit's date, looked up only when there is a parent. */
  function ParentDate(o: World, rangeStart: Option<string>): Option<DateTime>
  {
    if Present(rangeStart) then o.commitDate(rangeStart.value) else None
  }

  /** The window a run over `commits` with anchor `rs` resolves. */
  function RunWindow(a: Args, o: World, commits: seq<string>, rs: Option<string>): WindowOutcome
  {
    ResolveWindow(a.start, a.end, |commits|, a.mode, rs, ParentDate(o, rs), o.prompt, o.now,
                  o.confirmFuture)
  }

  /** The run once the commits are known: the window, the two confirmations, the draws. */
  function Proceed(a: Args, o: World, s: RepoState, keywords: seq<string>,
                   commits: seq<string>, rs: Option<string>): (RunOutcome, RepoState)
  {
    var parentDate := ParentDate(o, rs);
    var w := RunWindow(a, o, commits, rs);
    if !w.Resolved? then (WindowStopped(w), s)
    else if NeedsParentConfirmation(rs, parentDate, w.start) && !o.confirmParent then
      (ParentRefused, s)
    else if NeedsDivergenceConfirmation(CheckBranchDivergence(o.ahead, o.behind))
            && !o.confirmDiverged then
      (DivergenceRefused, s)
    else
      var d := DrawAll(w.start, w.end, keywords, |commits|, o.draws, 0);
      if !d.Drawn? then (DrawStopped(d), s)
      else Apply(a, o, s, commits, rs, d.stamps)
  }

  /** The end of the run: the script from the sorted timestamps, the backup branch and
      filter-branch over the revision range. */
  function Apply(a: Args, o: World, s: RepoState, commits: seq<string>, rs: Option<string>,
                 stamps: seq<DateTime>): (RunOutcome, RepoState)
    requires |stamps| == |commits|
  {
    var mapping := Assign(commits, FormatAll(SortTimes(stamps), o.format));
    var (s1, backup) := if a.noBackup then (s, None) else Backup(s, BackupName(o.stamp), o.branchOk);
    var range := RevisionRange(a.mode.last, a.mode.unpushed, a.mode.first, rs);
    var s2 := if o.filterOk then FilterBranch(s1, o.newHead) else s1;
    (Finished(Script(mapping), FilterCommand(o.filterFile, range), backup, o.filterOk), s2)
  }

  /** The rewrite run of main, step by step, with the timestamp call made as the function
      is defined (no `max_time`). */
  method Run(repo: Repository, a: Args, o: World) returns (outcome: RunOutcome)
    modifies repo
    ensures (outcome, repo.State()) == Main(a, o, old(repo.State()), [])
  {
    var sel := SelectCommits(a.mode, o.head, o.unpushed, o.revParse, o.mergeBase);
    if sel.None? {
      return FetchFailed;
    }
    var commits := sel.value.commits;
    if |commits| == 0 {
      return NoCommits;
    }
    outcome := RunSelected(repo, a, o, commits, sel.value.rangeStart);
  }

  /** main from the parent lookup to the timestamp loop. */
  method RunSelected(repo: Repository, a: Args, o: World, commits: seq<string>,
                     revisionRangeStart: Option<string>) returns (outcome: RunOutcome)
    modifies repo
    ensures (outcome, repo.State()) == Proceed(a, o, old(repo.State()), [], commits, revisionRangeStart)
  {
    var parentDate: Option<DateTime> := None;
    if Present(revisionRangeStart) {
      parentDate := o.commitDate(revisionRangeStart.value);
    }
    assert parentDate == ParentDate(o, revisionRangeStart);
    var w := ResolveDates(a.start, a.end, |commits|, a.mode, revisionRangeStart, parentDate,
                          o.prompt, o.now, o.confirmFuture);
    if !w.Resolved? {
      return WindowStopped(w);
    }
    var startDate, endDate := w.start, w.end;
    if Present(revisionRangeStart) {
      if parentDate.Some? && Before(startDate, parentDate.value) && !o.confirmParent {
        return ParentRefused;
      }
    }
    var divergence := CheckBranchDivergence(o.ahead, o.behind);
    if divergence.Some? {
      if (divergence.value.ahead > 50 || divergence.value.behind > 50) && !o.confirmDiverged {
        return DivergenceRefused;
      }
    }
    var drawn := DrawTimestamps(startDate, endDate, [], |commits|, o.draws, 0);
    if !drawn.Drawn? {
      return DrawStopped(drawn);
    }
    outcome := RunRewrite(repo, a, o, commits, revisionRangeStart, drawn.stamps);
  }

  /** main from the sort to filter-branch. */
  method RunRewrite(repo: Repository, a: Args, o: World, commits: seq<string>,
                    revisionRangeStart: Option<string>, stamps: seq<DateTime>)
    returns (outcome: RunOutcome)
    requires |stamps| == |commits|
    modifies repo
    ensures (outcome, repo.State()) == Apply(a, o, old(repo.State()), commits, revisionRangeStart, stamps)
  {
    var timestamps := SortTimes(stamps);
    var mapping := BuildMapping(commits, timestamps, o.format);
    var filterScript := GenerateFilterScript(mapping);
    var backupBranch: Option<string> := None;
    if !a.noBackup {
      backupBranch := repo.CreateBackupBranch(o.stamp, o.branchOk);
    }
    var range := RevisionRange(a.mode.last, a.mode.unpushed, a.mode.first, revisionRangeStart);
    var cmd := FilterCommand(o.filterFile, range);
    if o.filterOk {
      repo.RunFilterBranch(o.newHead);
    }
    return Finished(filterScript, cmd, backupBranch, o.filterOk);
  }

  /** Every run that stops before the end leaves the repository as it was: no backup,
      no rewrite. In particular an empty commit list stops before any date work. */
  lemma EarlyStopChangesNothing(a: Args, o: World, s: RepoState, keywords: seq<string>)
    ensures var (r, t) := Main(a, o, s, keywords);
      !r.Finished? ==> t == s
  {
  }

  lemma NoCommitsStopsFirst(a: Args, o: World, s: RepoState, keywords: seq<string>)
    requires var sel := Select(a.mode, o.head, o.unpushed, o.revParse, o.mergeBase);
             sel.Some? && sel.value.commits == []
    ensures Main(a, o, s, keywords) == (NoCommits, s)
  {
  }

  /** The run as written in main.py:353: whatever the arguments and the answers, it
      never reaches the filter script, the backup or the rewrite, because the first
      timestamp call raises TypeError. */
  lemma AsWrittenMainNeverRewrites(a: Args, o: World, s: RepoState)
    ensures var (r, t) := Main(a, o, s, ["max_time"]);
      !r.Finished? && t == s
      && (r.DrawStopped? ==> r.drawn == CallRejected)
  {
    var sel := Select(a.mode, o.head, o.unpushed, o.revParse, o.mergeBase);
    if sel.Some? && sel.value.commits != [] {
      MaxTimeCallRaises();
    }
  }

  /** `script` is the filter script for `commits` with the ascending timestamps `ts`, one
      per commit, each a work-hours instant on one of the days of the window `w`. */
  ghost predicate PlannedScript(script: string, commits: seq<string>, format: DateTime -> string,
                                w: WindowOutcome, ts: seq<DateTime>)
  {
    w.Resolved? && NotAfter(w.start, w.end)
    && |ts| == |commits| && Chronological(ts)
    && (forall k :: 0 <= k < |ts| ==>
          WorkInstant(ts[k]) && w.start.day <= ts[k].day <= w.start.day + TotalDays(w.start, w.end))
    && script == Script(Assign(commits, FormatAll(ts, format)))
  }

  /** What a finished run with the plain call did: the script holds one branch per
      selected commit, in the order of the oldest-first list, and with distinct commits
      the k-th commit gets the k-th sorted timestamp, so older commits never get later
      dates; every timestamp is a work-hours instant inside the days of the window the
      run resolved from its arguments and anchor (or the day after). A backup exists exactly when asked for and `git branch` worked, and
      HEAD moved only when filter-branch worked. */
  lemma FinishedRun(a: Args, o: World, s: RepoState)
    ensures var (r, t) := Main(a, o, s, []);
      var sel := Select(a.mode, o.head, o.unpushed, o.revParse, o.mergeBase);
      r.Finished? ==>
        sel.Some? && sel.value.commits != []
        && (r.backup.Some? <==> !a.noBackup && o.branchOk)
        && (r.backup.Some? ==> r.backup.value == BackupName(o.stamp) && t.branches[r.backup.value] == s.head)
        && t.head == (if o.filterOk then o.newHead else s.head)
        && r.command == FilterCommand(o.filterFile,
                          RevisionRange(a.mode.last, a.mode.unpushed, a.mode.first, sel.value.rangeStart))
        && exists ts: seq<DateTime> ::
             PlannedScript(r.script, sel.value.commits, o.format,
                           RunWindow(a, o, sel.value.commits, sel.value.rangeStart), ts)
  {
    var sel := Select(a.mode, o.head, o.unpushed, o.revParse, o.mergeBase);
    if sel.Some? && sel.value.commits != [] {
      ProceedFinishes(a, o, s, sel.value.commits, sel.value.rangeStart);
    }
  }

  /** FinishedRun once the commits and the anchor are known. */
  lemma ProceedFinishes(a: Args, o: World, s: RepoState, commits: seq<string>, rs: Option<string>)
    ensures var (r, t) := Proceed(a, o, s, [], commits, rs);
      r.Finished? ==>
        (r.backup.Some? <==> !a.noBackup && o.branchOk)
        && (r.backup.Some? ==> r.backup.value == BackupName(o.stamp) && t.branches[r.backup.value] == s.head)
        && t.head == (if o.filterOk then o.newHead else s.head)
        && r.command == FilterCommand(o.filterFile, RevisionRange(a.mode.last, a.mode.unpushed, a.mode.first, rs))
        && exists ts: seq<DateTime> :: PlannedScript(r.script, commits, o.format, RunWindow(a, o, commits, rs), ts)
  {
    var (r, t) := Proceed(a, o, s, [], commits, rs);
    if r.Finished? {
      var parentDate := ParentDate(o, rs);
      var w := ResolveWindow(a.start, a.end, |commits|, a.mode, rs, parentDate, o.prompt, o.now,
                             o.confirmFuture);
      FutureRuleHolds(a.start, a.end, |commits|, a.mode, rs, parentDate, o.prompt, o.now,
                      o.confirmFuture);
      var d := DrawAll(w.start, w.end, [], |commits|, o.draws, 0);
      assert (r, t) == Apply(a, o, s, commits, rs, d.stamps);
      ApplyFinishes(a, o, s, commits, rs, d.stamps);
      SortKeepsWorkInstants(d.stamps, w.start.day, w.start.day + TotalDays(w.start, w.end));
      assert PlannedScript(r.script, commits, o.format, w, SortTimes(d.stamps));
    }
  }

  /** The end of a run that got its timestamps: the script from the sorted timestamps,
      a backup at the old HEAD exactly when asked for and `git branch` worked, the
      filter-branch command over the revision range, and HEAD moved only when
      filter-branch worked. */
  lemma ApplyFinishes(a: Args, o: World, s: RepoState, commits: seq<string>, rs: Option<string>,
                      stamps: seq<DateTime>)
    requires |stamps| == |commits|
    ensures var (r, t) := Apply(a, o, s, commits, rs, stamps);
      r.Finished?
      && r.script == Script(Assign(commits, FormatAll(SortTimes(stamps), o.format)))
      && (r.backup.Some? <==> !a.noBackup && o.branchOk)
      && (r.backup.Some? ==> r.backup.value == BackupName(o.stamp) && t.branches[r.backup.value] == s.head)
      && t.head == (if o.filterOk then o.newHead else s.head)
      && r.command == FilterCommand(o.filterFile, RevisionRange(a.mode.last, a.mode.unpushed, a.mode.first, rs))
  {
  }

  /** With distinct commits, the script of a finished run has one branch per commit in
      list order, and the k-th commit (oldest first) gets the k-th of the ascending
      timestamps. */
  lemma FinishedScriptOrder(a: Args, o: World, s: RepoState)
    ensures var (r, t) := Main(a, o, s, []);
      var sel := Select(a.mode, o.head, o.unpushed, o.revParse, o.mergeBase);
      r.Finished? && Distinct(sel.value.commits) ==>
        exists ts: seq<DateTime> ::
          |ts| == |sel.value.commits| && Chronological(ts)
          && r.script == Script(Assign(sel.value.commits, FormatAll(ts, o.format)))
          && |Assign(sel.value.commits, FormatAll(ts, o.format))| == |ts|
          && forall k :: 0 <= k < |ts| ==>
               Assign(sel.value.commits, FormatAll(ts, o.format))[k] == (sel.value.commits[k], o.format(ts[k]))
  {
    var (r, t) := Main(a, o, s, []);
    var sel := Select(a.mode, o.head, o.unpushed, o.revParse, o.mergeBase);
    if r.Finished? && Distinct(sel.value.commits) {
      var commits, rs := sel.value.commits, sel.value.rangeStart;
      var parentDate := ParentDate(o, rs);
      var w := ResolveWindow(a.start, a.end, |commits|, a.mode, rs, parentDate, o.prompt, o.now,
                             o.confirmFuture);
      var d := DrawAll(w.start, w.end, [], |commits|, o.draws, 0);
      var ts := SortTimes(d.stamps);
      assert r.script == Script(Assign(commits, FormatAll(ts, o.format)));
      AssignDistinct(commits, FormatAll(ts, o.format));
    }
  }
}
