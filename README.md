# gitfucktime, modelled in Dafny

gitfucktime rewrites the author and committer dates of a git branch. It spreads the
commits over a window of work days (Monday to Friday, 09:00 to 16:59:59). The run works
in these steps:

- It selects the commits: all of them, the unpushed ones, the last N or the first N.
- It chooses the parent commit the rewritten range starts from.
- It settles the date window from the arguments, the parent's date and the clock.
- It draws one random work-hours timestamp per commit and sorts them.
- It assigns the sorted timestamps to the commits oldest first, so the history stays
  chronological.
- It writes the result into a `case` shell script and runs `git filter-branch` with it.

The package also shows the history (`git log`) and can revert the last rewrite: it
finds the rewrite in the reflog, backs up, stashes, resets and pops the stash. The
standalone `gitfucktime.py` is an older copy of the same run with fewer safeguards.

Every git command is an input of the model. A query either prints lines or fails. A
command either succeeds or fails. The clock, the confirmation prompts, the random
stream and the `strftime` rendering are parameters too. A date is a proleptic ordinal
day plus the seconds of that day, and `weekday` counts Monday as 0.

Modules, in dependency order:

- `Wrappers`: Option, Python truthiness, and the `Query` oracle.
- `Text`: `strip`, `split(sep, n)`, `str(int)`, and lines.
- `Calendar`: `is_work_day`, `get_next_work_day`, `generate_work_hours_timestamp`.
- `Commits`: the list logic of `get_commits` and the parser of `get_commit_history`.
- `FilterScript`: `generate_filter_script`, and a reader that parses a script back.
- `Rewrite`:
  - the revision range and the backup name;
  - `detect_last_filter_branch` and `revert_last_operation`;
  - `check_branch_divergence`;
  - a `Repository` class whose fields the git steps update.
- `Selection`: the commit and anchor selection of `main()`.
- `Window`: date-window resolution and the confirmations.
- `Planning`: drawing the timestamps, sorting them and building the mapping.
- `Session`: the rewrite run of `main()` as a function over a repository snapshot, and
  as a method on a `Repository`.
- `Legacy`: the `main()` of `gitfucktime.py`.

Two behaviours of the code are easy to misread, and the model follows the code in both:

- **Capping the end at now.** The message at gitfucktime/main.py:313-314 says that an
  automatically derived end in the future is capped at the current time. The code
  (gitfucktime/main.py:304-318) caps only with `--unpushed`, `--last` or `--first`. In the
  default mode it asks for confirmation instead, even when the end was derived
  automatically, and the model does the same.
- **An endless draw loop.** The rejection loop of gitfucktime/utils.py:22-31 has no
  iteration cap. The model gives each call a finite stream of draws, and running out of
  draws stands for the endless loop.

## Model

| member | source | states |
|---|---|---|
| Calendar.Weekday | gitfucktime/utils.py:16 | the weekday of a day is in 0..6 |
| Calendar.WeekdayShift | gitfucktime/utils.py:9-11 | moving j days on moves the weekday by j modulo 7 |
| Calendar.WeekendShape | gitfucktime/utils.py:14-16 | a day is a non-work day exactly when it is a Saturday or Sunday; the day after one is Sunday or Monday; weekdays repeat every 7 days |
| Calendar.IsWorkDay | gitfucktime/utils.py:14-16 | `is_work_day`: the weekday is below 5; WeekendShape states what that means |
| Calendar.KnownDates | tests/test_integration.py:34-36 | the fixture dates: 2023-10-28 at 03:00 is a Saturday (not a work day); 2024-01-01, the start date of the safety tests, is a Monday |
| Calendar.At | gitfucktime/utils.py:30 | `replace(hour, minute, second)` keeps the day and sets exactly those fields |
| Calendar.EndOfDay | gitfucktime/main.py:247 | 23:59:59 of the day, no earlier than any instant of that day |
| Calendar.NextWorkDay | gitfucktime/utils.py:7-12 | strictly later, a work day, only weekend days in between, same time of day, at most 3 days on |
| Calendar.NextWorkDayUnique | gitfucktime/utils.py:7-12 | those properties determine the next work day uniquely |
| Calendar.GetNextWorkDay | gitfucktime/utils.py:7-12 | the stepping loop returns NextWorkDay of its input |
| Calendar.RandInt | gitfucktime/utils.py:23 | `randint(lo, hi)` lies in lo..hi, both ends included |
| Calendar.TotalDaysOfOrderedWindow | gitfucktime/utils.py:20 | for start <= end, total_days is at least 1 and the end's day is start.day + total_days - 1 or start.day + total_days |
| Calendar.GenerateFrom | gitfucktime/utils.py:22-31 | a result is a work-hours instant on a candidate day, built from the first draw that names a work day; every earlier day draw named a weekend day; the draws run out exactly when no remaining day draw names a work day |
| Calendar.GenerateBounds | gitfucktime/utils.py:20-30 | the call fails (randint ValueError) exactly when total_days < 0; a result is a work day, hour 9..16, on start.day + k with 0 <= k <= total_days |
| Calendar.Generate | gitfucktime/utils.py:18-31 | `generate_work_hours_timestamp(start_date, end_date)` over a draw stream; GenerateFrom, GenerateBounds and NoWorkDayNoStamp state its results |
| Calendar.NoWorkDayNoStamp | gitfucktime/utils.py:22-26 | when every candidate day is a weekend day, no stream of draws yields a timestamp |
| Calendar.SaturdayWindowNeverYields | gitfucktime/utils.py:22-26 | the window of Saturday 2025-12-06 alone never yields a timestamp |
| Calendar.WorkDayReachable | gitfucktime/utils.py:23-30 | every work day among the candidates, at every work-hours time, is produced by some draws |
| Calendar.CanLandPastEnd | gitfucktime/utils.py:20-24 | because randint is inclusive, a timestamp can fall on the day after end_date |
| Calendar.GenerateWorkHoursTimestamp | gitfucktime/utils.py:18-31 | the rejection loop returns Generate of its inputs |
| Text.Strip | gitfucktime/core.py:20 | `str.strip()`: empty exactly for all-whitespace text, otherwise starts and ends without whitespace |
| Text.StripSlice | gitfucktime/core.py:20 | the stripped text is a slice of the input with only whitespace around it |
| Text.StripIdempotent | gitfucktime/core.py:20 | stripping twice is stripping once |
| Text.SplitN | gitfucktime/core.py:53 | `split(sep, n)`: min(n, count) + 1 parts that join back to the input, none but the last holds sep |
| Text.NatToStringRoundTrip | gitfucktime/core.py:183-184 | the decimal text of an index reads back to that index |
| Commits.CleanLines | gitfucktime/core.py:20 | no more lines than the input; every kept line is non-empty and already stripped |
| Commits.CleanLinesAppend | gitfucktime/core.py:20 | cleaning works line by line and keeps the oracle's order |
| Commits.CleanLinesMember | gitfucktime/core.py:20 | a line is kept exactly when it is the non-empty stripped form of some oracle line |
| Commits.Reverse | gitfucktime/core.py:25-26 | `list.reverse()`: the same length, entry k is entry n-1-k of the input |
| Commits.ReverseAppend | gitfucktime/core.py:25-26 | reversing a concatenation reverses the order of the two parts |
| Commits.ReverseInvolution | gitfucktime/core.py:25-26 | reversing twice gives the list back |
| Commits.RevListSource | gitfucktime/core.py:8-18 | in unpushed-only mode with a working origin/master..HEAD query, that query is read; in every other case (not unpushed-only, or that query fails) HEAD's rev-list is read |
| Commits.Arrange | gitfucktime/core.py:22-26 | the slice `[:count]` for a truthy count, reversed with reverse_order; ArrangeKeepsNewest states what it keeps |
| Commits.ArrangeKeepsNewest | gitfucktime/core.py:22-26 | None or 0 keeps all; a positive count keeps min(count, n) entries, a negative one n + count (at least 0); these are the newest, exactly reversed with reverse_order |
| Commits.GetCommits | gitfucktime/core.py:6-28 | None exactly when the fallback query fails; otherwise the arrangement of that query's cleaned lines |
| Commits.ParseHistoryLine | gitfucktime/core.py:51-61 | a line gives an entry exactly when it holds at least four bar characters; the entry joins back to the line and only the message may hold a bar |
| Commits.ParseJoinedEntry | gitfucktime/core.py:53-61 | any entry whose first four fields hold no bar character is read back unchanged from its line |
| Commits.ParseHistory | gitfucktime/core.py:49-62 | at most one entry per line, each read from one of the lines |
| Commits.ParseHistoryAppend | gitfucktime/core.py:50-61 | the history of concatenated output is the concatenated histories, so entry order is line order |
| Commits.ParseHistorySingle | gitfucktime/core.py:50-61 | the history of one line is that line's entry, if any |
| Commits.GetCommitHistory | gitfucktime/core.py:40-64 | a failed `git log` gives []; otherwise the loop returns ParseHistory of the lines |
| FilterScript.Keys | gitfucktime/core.py:105 | the keys of the dict items, in order |
| FilterScript.GenerateFilterScript | gitfucktime/core.py:102-111 | the accumulating loop returns Script of the mapping: header, one block per entry, `esac` |
| FilterScript.Script | gitfucktime/core.py:102-111 | header, one block per mapping entry, `esac`; ScriptRoundTrip and LabelsAreKeys state what it holds |
| FilterScript.BodyLinesAppend | gitfucktime/core.py:105-109 | the blocks of two mappings in a row are their blocks in a row |
| FilterScript.BlockLines | gitfucktime/core.py:106-109 | each block is four lines: label, author export, committer export, `;;` |
| FilterScript.BlocksAreBodyLines | gitfucktime/core.py:105-109 | the accumulated blocks are the body lines, each ended by a newline |
| FilterScript.ScriptIsLines | gitfucktime/core.py:104-110 | the script is its header lines, body lines and `esac`, each ended by a newline |
| FilterScript.Branches | gitfucktime/core.py:106-108 | one branch per entry whose label is the hash and whose two dates are the entry's date |
| FilterScript.ParseBodyLines | gitfucktime/core.py:105-110 | the body lines followed by `esac` read back as exactly the branches |
| FilterScript.BodyLinesSingle | gitfucktime/core.py:105-109 | single-line hashes and dates give newline-free body lines |
| FilterScript.ScriptRoundTrip | gitfucktime/core.py:102-111 | reading a script back gives one branch per entry, in mapping order, with both dates equal to the entry's |
| FilterScript.LabelsAreKeys | gitfucktime/core.py:105-106 | the script's branch labels are exactly the mapping's keys in order; a commit outside the mapping has no branch |
| FilterScript.SameDates | gitfucktime/core.py:107-108 | author and committer date agree in every branch |
| Rewrite.RevisionRange | gitfucktime/core.py:126-135 | `--last` gives HEAD~N..HEAD, exactly when it is truthy; an anchored range exactly when there is no `--last`, one of `--unpushed`/`--first`, and an anchor; otherwise HEAD |
| Rewrite.RangeEndsAtHead | gitfucktime/core.py:127-135 | every range text ends in HEAD |
| Rewrite.ForwardSlashes | gitfucktime/core.py:123 | every backslash becomes a slash, nothing else changes |
| Rewrite.FilterCommand | gitfucktime/core.py:137 | the filter-branch command: `--env-filter ". <script>"` with forward slashes, `--force`, the range text; RangeEndsAtHead states the range ends at HEAD |
| Rewrite.BackupName | gitfucktime/core.py:154-155 | the name starts with `gitfucktime-backup-` followed by the timestamp |
| Rewrite.SelectorRoundTrip | gitfucktime/core.py:183-184 | `HEAD@{i}` names reflog entry i |
| Rewrite.FirstMarkedIsFirst | gitfucktime/core.py:170-171 | the position found holds the rewrite marker and no line before it does (the length when none does) |
| Rewrite.DetectLastFilterBranch | gitfucktime/core.py:163-188 | None for a failed reflog or one without the marker; otherwise the first marked index i, no earlier line marked, ref `HEAD@{i}`, target `HEAD@{i+1}` (whether entry i+1 exists is unchecked) |
| Rewrite.Messages | gitfucktime/core.py:168 | the reflog lines are the entries' messages, newest first |
| Rewrite.Backup | gitfucktime/core.py:152-161 | `git branch <name>`: on success the branch points at HEAD; RevertBackup states its use in a revert |
| Rewrite.StashPush | gitfucktime/core.py:207 | `git stash push`: with changes and a working push, the changes go onto the stash and the hard reset inside it logs HEAD's move to itself; otherwise nothing changes |
| Rewrite.ResetHard | gitfucktime/core.py:210 | `git reset --hard <ref>`: no state when the ref does not resolve; ResetToSelector states when it does and where HEAD goes |
| Rewrite.MoveHead | gitfucktime/core.py:210 | HEAD at the commit, a clean work tree and a logged move |
| Rewrite.StashPop | gitfucktime/core.py:213 | `git stash pop`: the newest stash entry replaces the work tree when pop works and there is one |
| Rewrite.Revert | gitfucktime/core.py:190-222 | revert_last_operation as written; RevertOutcome, RevertResetFails, RevertTarget, RevertBackup and RevertKeepsConsistent state its results |
| Rewrite.RevertTo | gitfucktime/core.py:197-222 | the steps after detection: backup unless told not to, stash push, hard reset to the target, pop; RevertToSelector states its result |
| Rewrite.RevertWithoutRewrite | gitfucktime/core.py:193-195 | with no rewrite in the reflog: failure, no backup, no change |
| Rewrite.RevertOutcome | gitfucktime/core.py:193-195 | "nothing to revert" exactly when no reflog message holds the rewrite marker |
| Rewrite.RevertResetFails | gitfucktime/core.py:197-222 | the reset fails exactly when the newest rewrite is the oldest reflog entry and the stash push logged no entry of its own, so `HEAD@{i+1}` does not resolve |
| Rewrite.RevertTarget | gitfucktime/core.py:197-219 | on success the reported target is `HEAD@{i+1}`, counted before the stash push; when the push saved nothing HEAD is the commit of the entry just before the newest rewrite, and when it saved changes HEAD is the rewrite entry's commit |
| Rewrite.RevertBackup | gitfucktime/core.py:199-202 | on success a backup exists exactly when asked for and `git branch` worked; it carries the timestamped name and points at the rewritten HEAD |
| Rewrite.RevertToSelector | gitfucktime/core.py:206-213 | once the target is `HEAD@{j}`, it is read in the reflog as the stash push left it: the reset fails exactly when that reflog has no entry j, and otherwise HEAD ends at its entry j's commit |
| Rewrite.ResetToSelector | gitfucktime/core.py:210 | `git reset --hard HEAD@{j}` succeeds exactly when entry j exists and moves HEAD to its commit |
| Rewrite.ResolveSelector | gitfucktime/core.py:210 | `HEAD@{j}` resolves to entry j's commit when the reflog has one, and to nothing otherwise |
| Rewrite.RevertIgnoresStashFailures | gitfucktime/core.py:207-213 | the outcome does not depend on the pop succeeding, nor, with a clean work tree, on the push succeeding |
| Rewrite.RewriteThenRevert | gitfucktime/core.py:190-222 | on a clean work tree, a rewrite followed by a revert restores HEAD, adds the backup at the rewritten commit, and keeps the reflog consistent |
| Rewrite.DirtyRewriteThenRevert | gitfucktime/core.py:197-213 | with uncommitted changes, a rewrite followed by a revert reports success with target `HEAD@{1}` and gives the changes back, yet HEAD stays at the rewritten commit |
| Rewrite.RevertPinned | gitfucktime/core.py:190-222 | revert_last_operation with `HEAD@{i+1}` resolved to its commit before the backup and the stash, and the reset made to that commit |
| Rewrite.RevertToCommit | gitfucktime/core.py:199-213 | the pinned revert's steps once the commit is known: backup, stash push, hard reset to the commit, pop |
| Rewrite.RevertPinnedTarget | gitfucktime/core.py:190-222 | the pinned revert finds nothing to undo exactly when no entry holds the marker, fails exactly when the rewrite is the oldest entry, and otherwise leaves HEAD at the commit just before the newest rewrite, whatever the stash does |
| Rewrite.RewriteThenPinnedRevert | gitfucktime/core.py:190-222 | for any work tree, a rewrite followed by a pinned revert restores HEAD, adds the backup at the rewritten commit and keeps the reflog consistent; with uncommitted changes, it gives them back with the stash as it was |
| Rewrite.RevertKeepsConsistent | gitfucktime/core.py:205-213 | a revert keeps the reflog's newest entry at HEAD |
| Rewrite.RevertCanPopOlderStash | gitfucktime/core.py:207-213 | with a clean work tree, the pop applies and drops an older stash entry |
| Rewrite.Repository.constructor | gitfucktime/core.py:190 | a starting repository for the revert (no source line builds one): the given HEAD, branches, work tree and stash, HEAD also as the newest reflog entry with message "commit", so Valid() holds |
| Rewrite.Repository.CreateBackupBranch | gitfucktime/core.py:152-161 | the branch points at HEAD and the name is returned on success; nothing changes on failure; a consistent reflog stays consistent |
| Rewrite.Repository.StashPushAuto | gitfucktime/core.py:207 | when there are changes and push works, they go onto the stash, the work tree is cleaned and the reflog gains a `reset: moving to HEAD` entry at HEAD; otherwise nothing changes; a consistent reflog stays consistent |
| Rewrite.Repository.Reset | gitfucktime/core.py:210 | succeeds exactly when the ref resolves, moving HEAD there with a reflog entry; no change otherwise; a consistent reflog stays consistent |
| Rewrite.Repository.StashPopAuto | gitfucktime/core.py:213 | the newest stash entry replaces the work tree when pop works; a consistent reflog stays consistent |
| Rewrite.Repository.RunFilterBranch | gitfucktime/core.py:139 | HEAD moves to the rewritten commit and the reflog records the rewrite; a consistent reflog stays consistent |
| Rewrite.Repository.RevertLastOperation | gitfucktime/core.py:190-222 | the step sequence leaves the repository and result that Revert specifies (so, by RevertKeepsConsistent, a consistent reflog stays consistent) |
| Rewrite.CheckBranchDivergence | gitfucktime/core.py:224-240 | both counts exactly when both queries give integers, None otherwise |
| Selection.SelectCommits | gitfucktime/main.py:191-227 | the fetching block returns Select of its inputs |
| Selection.Select | gitfucktime/main.py:191-227 | the commits and anchor main selects; SelectFails, SelectLast, SelectFirst and SelectWhole state its results |
| Selection.SelectFails | gitfucktime/main.py:224-227 | nothing is selected exactly when the rev-list query read fails |
| Selection.SelectLast | gitfucktime/main.py:194-201 | `--last N`: the min(N, n) newest commits, oldest first, anchor `HEAD~N` stripped |
| Selection.SelectFirst | gitfucktime/main.py:202-210 | `--first N`: the prefix of length min(N, n) of the oldest-first list; anchor the parent of the oldest, None when nothing is listed |
| Selection.SelectWhole | gitfucktime/main.py:211-223 | without `--last`/`--first`: all listed commits oldest first; the merge base as anchor with `--unpushed`, none otherwise |
| Window.ResolveDates | gitfucktime/main.py:233-318 | the step-by-step date code returns ResolveWindow of its inputs |
| Window.DeriveWindow | gitfucktime/main.py:233-294 | the window from the arguments, the parent date and the clock; DeriveWindowShape and StartAfterParent state its results |
| Window.FutureRule | gitfucktime/main.py:300-318 | the future-end check; FutureRuleHolds states its results |
| Window.ResolveWindow | gitfucktime/main.py:233-318 | DeriveWindow followed by FutureRule |
| Window.DeriveWindowShape | gitfucktime/main.py:237-294 | a derived window has start <= end; an explicit end is 23:59:59 of its day; the automatic end is 23:59:59 max(1, n-1) days after the start; an explicit start is midnight; `--last` with `--first` never resolves |
| Window.StartAfterParent | gitfucktime/main.py:253-258 | with no `--start` and a known parent date, the start is the next work day after it, same time, at most 3 days on |
| Window.FutureRuleHolds | gitfucktime/main.py:304-318 | a window ends after now only with consent and only with an explicit end or in default mode; otherwise it ends by now; capping only moves the end to now; refusal happens exactly when consent was needed and not given |
| Window.DivergenceThreshold | gitfucktime/main.py:331-342 | confirmation is asked exactly when both counts are known and one exceeds 50 |
| Window.NextWorkDayStartNeedsNoConfirmation | gitfucktime/main.py:320-328 | a start on the next work day after the parent never triggers the before-parent warning |
| Planning.MaxTimeCallRaises | gitfucktime/main.py:353 | the call with `max_time` does not bind to `generate_work_hours_timestamp(start_date, end_date)` |
| Planning.PlainCallBinds | gitfucktime.py:234 | the two-argument call binds |
| Planning.DrawAll | gitfucktime/main.py:351-353 | n timestamps, each a work-hours instant within the candidate days; a call that cannot bind is rejected before any draw |
| Planning.DrawTimestamps | gitfucktime/main.py:351-353 | the append loop returns DrawAll of its inputs |
| Planning.DrawStep | gitfucktime/main.py:352-353 | a call that binds and yields a timestamp appends it, and the remaining calls start at the next unused draw |
| Planning.DrawStops | gitfucktime/main.py:352-353 | a call that does not bind, or yields no timestamp, ends the drawing with that failure whatever came before |
| Planning.AsWrittenDrawRaises | gitfucktime/main.py:353 | with `max_time` and at least one commit, the loop stops with the call rejected |
| Planning.Insert | gitfucktime/main.py:355 | inserted into an ascending list: ascending, one longer, the same elements plus the new one |
| Planning.SortTimes | gitfucktime/main.py:355 | `sort()`: ascending and a permutation of the input |
| Planning.SortKeepsWorkInstants | gitfucktime/main.py:355 | sorting keeps every timestamp work-hours and within the window's days |
| Planning.DictSet | gitfucktime/main.py:362 | `d[k] = v`: an existing key keeps its place and, with distinct keys as a dict has, exactly that entry takes the new value and every other entry is unchanged; a new key goes last |
| Planning.FormatAll | gitfucktime/main.py:362 | one formatted text per timestamp, in order |
| Planning.BuildMapping | gitfucktime/main.py:360-362 | the mapping loop returns Assign of the commits and the formatted timestamps |
| Planning.AssignDistinct | gitfucktime/main.py:360-362 | with distinct commits, entry k of the dict is commit k with value k |
| Planning.AssignKeys | gitfucktime/main.py:360-362 | the dict's keys are exactly the commits, each once |
| Planning.PlanChronological | gitfucktime/main.py:351-362 | for i < j, commit i gets sorted timestamp i and commit j gets sorted timestamp j, and i's is no later |
| Session.Run | gitfucktime/main.py:191-389 | the step-by-step run leaves the outcome and the repository that Main specifies (with the call as the function is defined) |
| Session.RunSelected | gitfucktime/main.py:233-353 | from the parent lookup to the draws, the steps agree with Proceed |
| Session.RunRewrite | gitfucktime/main.py:355-389 | from the sort to filter-branch, the steps agree with Apply |
| Session.Main | gitfucktime/main.py:191-389 | the rewrite run over a repository snapshot; FinishedRun, EarlyStopChangesNothing, NoCommitsStopsFirst and AsWrittenMainNeverRewrites state its results |
| Session.Proceed | gitfucktime/main.py:233-353 | the run once the commits are known: window, two confirmations, draws; ProceedFinishes states its finished results |
| Session.Apply | gitfucktime/main.py:355-389 | the end of the run: sort, mapping, script, backup, filter-branch; ApplyFinishes states its result |
| Session.EarlyStopChangesNothing | gitfucktime/main.py:224-353 | every run that stops before the end leaves the repository unchanged |
| Session.NoCommitsStopsFirst | gitfucktime/main.py:229-231 | an empty selection stops before any date work, script or rewrite |
| Session.AsWrittenMainNeverRewrites | gitfucktime/main.py:353 | as written, no run ever finishes: the repository is unchanged and a draw stop is the rejected call |
| Session.FinishedRun | gitfucktime/main.py:351-389 | a finished run has a non-empty selection; the backup exists exactly when asked for and `git branch` works, at the old HEAD; HEAD moves only when filter-branch works; the command uses the core range; the script comes from ascending work-hours timestamps, one per commit, inside the window the run resolved from its arguments and anchor |
| Session.ProceedFinishes | gitfucktime/main.py:320-389 | the FinishedRun facts for a run whose commits and anchor are known, with the window that run resolves |
| Session.ApplyFinishes | gitfucktime/main.py:357-389 | the end of the run always finishes: the script from the sorted timestamps, a backup at the old HEAD exactly when asked for and `git branch` works, the command over the core range, HEAD moved only by a working filter-branch |
| Session.FinishedScriptOrder | gitfucktime/main.py:357-362 | with distinct commits, the script's entry k is commit k with the k-th ascending timestamp |
| Legacy.LegacyRangeDiffers | gitfucktime.py:271-276 | the legacy range equals the core range except where the core uses an anchor; there the legacy one rewrites all of HEAD |
| Legacy.LegacyRange | gitfucktime.py:271-276 | `HEAD~N..HEAD` for a truthy `--last`, all of HEAD otherwise; LegacyRangeDiffers compares it with the core range |
| Legacy.LegacyMain | gitfucktime.py:111-288 | the legacy run over a repository snapshot; LegacyNeverBacksUp and LegacyIsConfirmedDefaultRun state its results |
| Legacy.LegacyRun | gitfucktime.py:111-288 | the step-by-step legacy run leaves the outcome and the repository that LegacyMain specifies |
| Legacy.LegacyNeverBacksUp | gitfucktime.py:231-288 | no backup branch, no work-tree or stash change; the only change is the rewrite |
| Legacy.LegacyIsConfirmedDefaultRun | gitfucktime.py:161-288 | in default mode with `--no-backup` and every confirmation given, the package's run equals the legacy run |

## Left out

- **Line splitting and env.** Oracle output comes as lines: `splitlines` is not modelled.
  Neither is the `FILTER_BRANCH_SQUELCH_WARNING` environment variable.
- **Clock and calendar text.** `strptime`, `strftime`, `fromtimestamp` and time zones are
  left out. A date argument is absent, malformed or a day, and a timestamp's text comes
  from a `format` parameter. Datetimes carry no microseconds (one clock read could).
- **Two clock reads.** `now` is one input. The model uses it both for the start fallback
  (main.py:267) and for the future check (main.py:301).
- **Two lookups of the parent date.** `get_commit_date` runs twice on the same commit
  (main.py:256 and main.py:322). The model makes it one deterministic oracle.
- **Randomness.** The random stream is a finite sequence of draws, with no claim about its
  distribution. `randint(lo, hi)` is `lo + draw % (hi - lo + 1)`. When the draws run out,
  that stands for the endless `while True` loop.
- **Interactive use and output.** Left out:
  - the `--view` and `--revert` dispatch, and the interactive menu loop of main.py:105-173;
  - all printing, `ui.py`, and argparse setup;
  - the `rich`/`questionary` fallbacks.
  Confirmations are boolean inputs. `--start`, `--end` and `--no-backup` arrive parsed.
- **get_repo_stats.** It is made only of git queries with fallback strings.
- **The filter script file.** Writing and removing `.git_date_filter.sh` is left out. The
  run returns the script text, and the absolute path is an input.
- **Git itself.** The model does not compute which commits `filter-branch` rewrites: the new
  HEAD is an input. `git stash pop` conflicts are modelled as the step failing. The reflog
  is its messages, and `HEAD@{i}` resolves to entry i. Revert always reads the reflog
  successfully: a failing `git reflog` (the bare `except` of detect_last_filter_branch)
  is modelled only in DetectLastFilterBranch, where it gives None, the same outcome as a
  reflog without the marker, so a revert would report nothing to revert. A saving `git stash push` is modelled
  by the one effect that matters here: the hard reset inside it logs a
  `reset: moving to HEAD` entry; its message and the stash commit it makes are left out.
- Rewrite.RewriteThenRevert: states the round trip for a clean work tree only. With
  uncommitted changes the revert as written does not restore HEAD (DirtyRewriteThenRevert,
  see Findings); the round trip for every work tree is RewriteThenPinnedRevert.
- Rewrite.RevertIgnoresStashFailures: the push's success is irrelevant only on a clean
  work tree. With changes, a working push adds the reflog entry that shifts the target.
- **A failed rev-list in the legacy run.** In `gitfucktime.py` it ends the script with an
  uncaught exception. The model reports it as FetchFailed.
- **Planning.SortTimes.** `timestamps.sort()` sorts the list in place. The model sorts
  it as a value (an insertion sort over `seq`) and returns the sorted copy. The outcome,
  ascending order and the same elements, is stated in full.
- **Commits.GetCommits.** Its in-place `commits.reverse()` is modelled as the value
  Reverse(list).
- **Session.Run and Legacy.LegacyRun.** They are proved with the corrected timestamp
  call. The as-written call is stated through Main with the `max_time` keyword (see
  Findings).

## Findings

| source | as written | input that shows it | evidently intended | confidence | as-written member | corrected member |
|---|---|---|---|---|---|---|
| gitfucktime/main.py:353 | `generate_work_hours_timestamp(start_date, end_date, max_time=now)`, but the function (gitfucktime/utils.py:18) has only `start_date` and `end_date`, so the first call raises TypeError | any rewrite run that selects at least one commit and passes every date check and confirmation | `generate_work_hours_timestamp(start_date, end_date)`, as gitfucktime.py:234 calls it | high; not executed | Session.AsWrittenMainNeverRewrites | Session.FinishedRun |
| gitfucktime/core.py:197-210 | `target_ref = HEAD@{i+1}` is fixed before `git stash push`; when that push saves changes, its hard reset logs a new HEAD entry, so the selector then names the rewrite entry | a filter-branch rewrite followed by `--revert` with uncommitted changes in the work tree: success is reported and the changes come back, but HEAD stays at the rewritten commit | resolve the target to its commit before stashing, so that HEAD returns to the commit before the rewrite | medium (rests on git logging the reset inside `git stash push`); not executed | Rewrite.DirtyRewriteThenRevert | Rewrite.RewriteThenPinnedRevert |
