/**
 * The history-rewriting side of gitfucktime/core.py: which revision range
 * `run_filter_branch` hands to `git filter-branch`, the backup branch name, the reflog
 * scan of `detect_last_filter_branch`, the step sequence of `revert_last_operation`, and
 * the result shape of `check_branch_divergence`.
 *
 * Git itself is an oracle. The repository is an object whose fields the git commands
 * change: HEAD, the branches, the uncommitted changes of the work tree, the stash and
 * HEAD's reflog (newest entry first, so entry k is what `HEAD@{k}` names). The text of
 * `git reflog` is modelled as one line per reflog entry holding its message.
 */
module Rewrite {
  import opened Wrappers
  import opened Text

  // ---------------------------------------------------------------------------------
  // Revision range of run_filter_branch

  /** The range `git filter-branch` rewrites: `HEAD~N..HEAD`, `<anchor>..HEAD` or the
      whole of `HEAD`. */
  datatype RevRange = LastN(n: int) | FromAnchor(anchor: string) | WholeHead

  /** The branch chain of run_filter_branch: `--last` wins; then `--unpushed` with a
      truthy anchor; then `--first` with a truthy anchor; otherwise all of HEAD. */
  function RevisionRange(last: Option<int>, unpushed: bool, first: Option<int>,
                         rangeStart: Option<string>): (r: RevRange)
    ensures r.LastN? <==> Truthy(last)
    ensures r.LastN? ==> r.n == last.value
    ensures r.FromAnchor? <==> !Truthy(last) && (unpushed || Truthy(first)) && Present(rangeStart)
    ensures r.FromAnchor? ==> r.anchor == rangeStart.value
  {
    if Truthy(last) then LastN(last.value)
    else if unpushed && Present(rangeStart) then FromAnchor(rangeStart.value)
    else if Truthy(first) && Present(rangeStart) then FromAnchor(rangeStart.value)
    else WholeHead
  }

  /** The range as it is written on the command line. */
  function RangeText(r: RevRange): string
  {
    match r
    case LastN(n) => "HEAD~" + IntToString(n) + "..HEAD"
    case FromAnchor(a) => a + "..HEAD"
    case WholeHead => "HEAD"
  }

  /** Every range ends at HEAD: only commits reachable from HEAD are rewritten. */
  lemma RangeEndsAtHead(r: RevRange)
    ensures |RangeText(r)| >= 4 && RangeText(r)[|RangeText(r)| - 4..] == "HEAD"
  {
    var t := RangeText(r);
    match r
    case LastN(n) =>
      assert t == ("HEAD~" + IntToString(n) + "..") + "HEAD";
    case FromAnchor(a) =>
      assert t == (a + "..") + "HEAD";
    case WholeHead =>
  }

  /** `filter_file.replace("\\", "/")`. */
  function ForwardSlashes(path: string): (r: string)
    ensures |r| == |path|
    ensures forall k :: 0 <= k < |r| ==> r[k] == (if path[k] == '\\' then '/' else path[k])
    ensures '\\' !in r
  {
    if path == [] then []
    else [if path[0] == '\\' then '/' else path[0]] + ForwardSlashes(path[1..])
  }

  /** The shell command run_filter_branch runs. */
  function FilterCommand(filterFile: string, r: RevRange): string
  {
    "git filter-branch --env-filter \". " + ForwardSlashes(filterFile) + "\" --force " + RangeText(r)
  }

  // ---------------------------------------------------------------------------------
  // Backup branch naming, reflog scan

  const BackupPrefix: string := "gitfucktime-backup-"

  /** `f"gitfucktime-backup-{timestamp}"`; the timestamp text comes from the clock. */
  function BackupName(stamp: string): (name: string)
    ensures StartsWith(name, BackupPrefix) && name[|BackupPrefix|..] == stamp
  {
    BackupPrefix + stamp
  }

  const RewriteMarker: string := "filter-branch: rewrite"

  /** The reflog selector `HEAD@{i}`. */
  function Selector(i: nat): string
  {
    "HEAD@{" + NatToString(i) + "}"
  }

  /** Which reflog entry a selector names, if it is one. */
  function SelectorIndex(s: string): Option<nat>
  {
    if |s| > 7 && s[..6] == "HEAD@{" && s[|s| - 1] == '}' && AllDigits(s[6..|s| - 1])
    then Some(ParseNat(s[6..|s| - 1]))
    else None
  }

  /** Git reads back the index written into a selector. */
  lemma SelectorRoundTrip(i: nat)
    ensures SelectorIndex(Selector(i)) == Some(i)
  {
    var s := Selector(i);
    var d := NatToString(i);
    assert s[..6] == "HEAD@{";
    assert s[6..|s| - 1] == d;
    NatToStringRoundTrip(i);
  }

  /** The operation `detect_last_filter_branch` reports: the reflog position of the
      rewrite, its selector and the selector of the entry before it. */
  datatype LastOperation = LastOperation(index: nat, ref: string, target: string)

  /** Position of the first line holding the rewrite marker, |lines| when none does. */
  function FirstMarked(lines: seq<string>): (i: nat)
    ensures i <= |lines|
  {
    if lines == [] then 0
    else if Contains(lines[0], RewriteMarker) then 0
    else 1 + FirstMarked(lines[1..])
  }

  /** The position found holds the marker, and no line before it does. */
  lemma {:induction false} FirstMarkedIsFirst(lines: seq<string>)
    ensures var i := FirstMarked(lines);
      (i < |lines| ==> Contains(lines[i], RewriteMarker))
      && forall k :: 0 <= k < i ==> !Contains(lines[k], RewriteMarker)
  {
    if lines != [] && !Contains(lines[0], RewriteMarker) {
      FirstMarkedIsFirst(lines[1..]);
    }
  }

  /** detect_last_filter_branch: the first reflog line holding "filter-branch: rewrite",
      with ref `HEAD@{i}` and target `HEAD@{i+1}`. Whether entry i + 1 exists is not
      checked. A failed reflog query, like a reflog without the marker, gives None. */
  method DetectLastFilterBranch(reflog: Query) returns (op: Option<LastOperation>)
    ensures reflog.Failed? ==> op.None?
    ensures reflog.Output? ==>
      (op.None? <==> forall k :: 0 <= k < |reflog.lines| ==> !Contains(reflog.lines[k], RewriteMarker))
    ensures op.Some? ==>
      (reflog.Output?
       && op.value.index < |reflog.lines|
       && Contains(reflog.lines[op.value.index], RewriteMarker)
       && (forall k :: 0 <= k < op.value.index ==> !Contains(reflog.lines[k], RewriteMarker))
       && op.value.ref == Selector(op.value.index)
       && op.value.target == Selector(op.value.index + 1))
  {
    if reflog.Failed? {
      return None;
    }
    var lines := reflog.lines;
    var i := 0;
    while i < |lines|
      invariant 0 <= i <= |lines|
      invariant forall k :: 0 <= k < i ==> !Contains(lines[k], RewriteMarker)
    {
      if Contains(lines[i], RewriteMarker) {
        return Some(LastOperation(i, Selector(i), Selector(i + 1)));
      }
      i := i + 1;
    }
    return None;
  }

  // ---------------------------------------------------------------------------------
  // The repository and the revert sequence

  datatype ReflogEntry = ReflogEntry(commit: string, message: string)

  /** A snapshot of the parts of a repository the program touches. */
  datatype RepoState = RepoState(head: string, branches: map<string, string>,
                                 worktree: seq<string>, stash: seq<seq<string>>,
                                 reflog: seq<ReflogEntry>)

  /** HEAD's reflog records where HEAD is: its newest entry is HEAD. */
  predicate Consistent(s: RepoState)
  {
    |s.reflog| > 0 && s.reflog[0].commit == s.head
  }

  /** The reflog as `git reflog` prints it, one message per line, newest first. */
  function Messages(reflog: seq<ReflogEntry>): (lines: seq<string>)
    ensures |lines| == |reflog|
    ensures forall k :: 0 <= k < |reflog| ==> lines[k] == reflog[k].message
  {
    if reflog == [] then [] else [reflog[0].message] + Messages(reflog[1..])
  }

  /** `git branch <name>`: on success the branch points at HEAD. */
  function Backup(s: RepoState, name: string, ok: bool): (RepoState, Option<string>)
  {
    if ok then (s.(branches := s.branches[name := s.head]), Some(name)) else (s, None)
  }

  /** Whether `git stash push` saves anything: it works and there are uncommitted
      changes. */
  predicate StashSaves(s: RepoState, ok: bool)
  {
    ok && s.worktree != []
  }

  /** `git stash push`: when it saves the uncommitted changes it cleans the work tree
      with `git reset --hard`, which logs a move of HEAD to itself as a new reflog entry;
      otherwise nothing changes. Its exit status is ignored. */
  function StashPush(s: RepoState, ok: bool): RepoState
  {
    if StashSaves(s, ok)
    then s.(stash := [s.worktree] + s.stash, worktree := [],
            reflog := [ReflogEntry(s.head, "reset: moving to HEAD")] + s.reflog)
    else s
  }

  /** The commit a ref names: a reflog selector within the reflog. */
  function Resolve(s: RepoState, ref: string): Option<string>
  {
    var j := SelectorIndex(ref);
    if j.Some? && j.value < |s.reflog| then Some(s.reflog[j.value].commit) else None
  }

  /** `HEAD@{j}` resolves to reflog entry j, when there is one. */
  lemma ResolveSelector(s: RepoState, j: nat)
    ensures Resolve(s, Selector(j)) == (if j < |s.reflog| then Some(s.reflog[j].commit) else None)
  {
    SelectorRoundTrip(j);
  }

  /** `git reset --hard <ref>`: fails when the ref does not resolve; otherwise HEAD moves
      there, the uncommitted changes are discarded and the move is logged. */
  function ResetHard(s: RepoState, ref: string): Option<RepoState>
  {
    var c := Resolve(s, ref);
    if c.None? then None else Some(MoveHead(s, c.value, ref))
  }

  /** HEAD moved to commit `c` by `git reset --hard <ref>`: the work tree is clean and
      the move is logged. */
  function MoveHead(s: RepoState, c: string, ref: string): RepoState
  {
    s.(head := c, worktree := [], reflog := [ReflogEntry(c, "reset: moving to " + ref)] + s.reflog)
  }

  /** Resetting to `HEAD@{j}` succeeds exactly when there is a reflog entry j, and then
      moves HEAD to its commit. */
  lemma ResetToSelector(s: RepoState, j: nat)
    ensures ResetHard(s, Selector(j)).Some? <==> j < |s.reflog|
    ensures ResetHard(s, Selector(j)).Some? ==> ResetHard(s, Selector(j)).value.head == s.reflog[j].commit
  {
    ResolveSelector(s, j);
  }

  /** `git stash pop`: applies and drops the newest stash entry, whoever made it; its
      exit status is ignored. */
  function StashPop(s: RepoState, ok: bool): RepoState
  {
    if ok && s.stash != [] then s.(worktree := s.stash[0], stash := s.stash[1..]) else s
  }

  /** The dictionary revert_last_operation returns: `success` with the target and the
      backup name, or one of its two failures. */
  datatype RevertResult = NothingToRevert | Reverted(target: string, backup: Option<string>) | ResetFailed

  predicate Success(r: RevertResult) { r.Reverted? }

  /** revert_last_operation over a repository snapshot: detect, back up unless told not
      to, stash, reset to the entry before the rewrite, pop. */
  function Revert(s: RepoState, noBackup: bool, stamp: string,
                  branchOk: bool, pushOk: bool, popOk: bool): (RepoState, RevertResult)
  {
    var i := FirstMarked(Messages(s.reflog));
    if i == |s.reflog| then (s, NothingToRevert)
    else RevertTo(s, Selector(i + 1), noBackup, stamp, branchOk, pushOk, popOk)
  }

  /** The steps of revert_last_operation once the target is known: back up unless told
      not to, stash, reset to the target, pop. */
  function RevertTo(s: RepoState, target: string, noBackup: bool, stamp: string,
                    branchOk: bool, pushOk: bool, popOk: bool): (RepoState, RevertResult)
  {
    var (s1, backup) := if noBackup then (s, None) else Backup(s, BackupName(stamp), branchOk);
    var s2 := StashPush(s1, pushOk);
    var s3 := ResetHard(s2, target);
    if s3.None? then (s2, ResetFailed)
    else (StashPop(s3.value, popOk), Reverted(target, backup))
  }

  /** Once the target is `HEAD@{j}`, it is read in the reflog as the stash push left it:
      the reset fails exactly when that reflog has no entry j; otherwise HEAD ends at that
      entry's commit. */
  lemma RevertToSelector(s: RepoState, j: nat, noBackup: bool, stamp: string,
                         branchOk: bool, pushOk: bool, popOk: bool)
    ensures var log := StashPush(s, pushOk).reflog;
      var (t, r) := RevertTo(s, Selector(j), noBackup, stamp, branchOk, pushOk, popOk);
      (r.ResetFailed? <==> j >= |log|)
      && (r.Reverted? ==> j < |log| && t.head == log[j].commit && r.target == Selector(j))
  {
    var (s1, backup) := if noBackup then (s, None) else Backup(s, BackupName(stamp), branchOk);
    var s2 := StashPush(s1, pushOk);
    assert s2.reflog == StashPush(s, pushOk).reflog;
    ResetToSelector(s2, j);
  }

  /** `git filter-branch` succeeding: HEAD moves to the rewritten commit and the move is
      logged with the rewrite message. */
  function FilterBranch(s: RepoState, newHead: string): RepoState
  {
    s.(head := newHead, reflog := [ReflogEntry(newHead, RewriteMarker)] + s.reflog)
  }

  /** Without a rewrite in the reflog nothing is backed up, stashed or reset. */
  lemma RevertWithoutRewrite(s: RepoState, noBackup: bool, stamp: string,
                             branchOk: bool, pushOk: bool, popOk: bool)
    requires forall k :: 0 <= k < |s.reflog| ==> !Contains(s.reflog[k].message, RewriteMarker)
    ensures Revert(s, noBackup, stamp, branchOk, pushOk, popOk) == (s, NothingToRevert)
  {
    FirstMarkedIsFirst(Messages(s.reflog));
  }

  /** Revert finds nothing to undo exactly when no reflog entry is a filter-branch
      rewrite. */
  lemma RevertOutcome(s: RepoState, noBackup: bool, stamp: string,
                      branchOk: bool, pushOk: bool, popOk: bool)
    ensures var (t, r) := Revert(s, noBackup, stamp, branchOk, pushOk, popOk);
      r.NothingToRevert? <==> forall k :: 0 <= k < |s.reflog| ==> !Contains(s.reflog[k].message, RewriteMarker)
  {
    FirstMarkedIsFirst(Messages(s.reflog));
  }

  /** The reset fails exactly when the rewrite entry is the oldest one in the reflog, so
      that nothing older is there to reset to, and the stash push logged no entry of its
      own. */
  lemma RevertResetFails(s: RepoState, noBackup: bool, stamp: string,
                         branchOk: bool, pushOk: bool, popOk: bool)
    ensures var i := FirstMarked(Messages(s.reflog));
      var (t, r) := Revert(s, noBackup, stamp, branchOk, pushOk, popOk);
      (r.ResetFailed? <==> i + 1 == |s.reflog| && !StashSaves(s, pushOk))
  {
    var i := FirstMarked(Messages(s.reflog));
    if i < |s.reflog| {
      assert Revert(s, noBackup, stamp, branchOk, pushOk, popOk)
          == RevertTo(s, Selector(i + 1), noBackup, stamp, branchOk, pushOk, popOk);
      RevertToSelector(s, i + 1, noBackup, stamp, branchOk, pushOk, popOk);
    }
  }

  /** A successful revert resets to `HEAD@{i+1}`, counted before the stash push. With a
      clean work tree (or a failing push) HEAD ends at the commit of the reflog entry just
      before the newest rewrite; when the push saved changes, its own entry shifts the
      reflog by one and HEAD ends at the rewrite entry's commit instead. */
  lemma RevertTarget(s: RepoState, noBackup: bool, stamp: string,
                     branchOk: bool, pushOk: bool, popOk: bool)
    ensures var i := FirstMarked(Messages(s.reflog));
      var (t, r) := Revert(s, noBackup, stamp, branchOk, pushOk, popOk);
      r.Reverted? ==>
        r.target == Selector(i + 1) && i < |s.reflog|
        && (!StashSaves(s, pushOk) ==> i + 1 < |s.reflog| && t.head == s.reflog[i + 1].commit)
        && (StashSaves(s, pushOk) ==> t.head == s.reflog[i].commit)
  {
    var i := FirstMarked(Messages(s.reflog));
    if i < |s.reflog| {
      assert Revert(s, noBackup, stamp, branchOk, pushOk, popOk)
          == RevertTo(s, Selector(i + 1), noBackup, stamp, branchOk, pushOk, popOk);
      RevertToSelector(s, i + 1, noBackup, stamp, branchOk, pushOk, popOk);
    }
  }

  /** A successful revert made a backup, named after the timestamp, exactly when it was
      asked for and `git branch` worked; the backup points at the rewritten HEAD. */
  lemma RevertBackup(s: RepoState, noBackup: bool, stamp: string,
                     branchOk: bool, pushOk: bool, popOk: bool)
    ensures var (t, r) := Revert(s, noBackup, stamp, branchOk, pushOk, popOk);
      (r.Reverted? ==> (r.backup.Some? <==> !noBackup && branchOk))
      && (r.Reverted? && r.backup.Some? ==>
            r.backup.value == BackupName(stamp) && t.branches[r.backup.value] == s.head)
  {
  }

  /** Revert's outcome does not depend on whether `git stash pop` works, nor, with a
      clean work tree, on whether `git stash push` works: only the reset is fatal. */
  lemma RevertIgnoresStashFailures(s: RepoState, noBackup: bool, stamp: string, branchOk: bool,
                                   push1: bool, pop1: bool, push2: bool, pop2: bool)
    ensures Revert(s, noBackup, stamp, branchOk, push1, pop1).1
         == Revert(s, noBackup, stamp, branchOk, push1, pop2).1
    ensures s.worktree == [] ==>
      Revert(s, noBackup, stamp, branchOk, push1, pop1).1
      == Revert(s, noBackup, stamp, branchOk, push2, pop2).1
  {
  }

  /** The round trip the safety tests exercise, on a clean work tree: a rewrite followed
      by a revert (with every git step working) puts HEAD back where it was and leaves a
      backup at the rewritten commit. */
  lemma RewriteThenRevert(s: RepoState, newHead: string, stamp: string)
    requires Consistent(s) && s.worktree == []
    ensures var s1 := FilterBranch(s, newHead);
      var (t, r) := Revert(s1, false, stamp, true, true, true);
      r == Reverted(Selector(1), Some(BackupName(stamp)))
      && t.head == s.head
      && t.branches == s.branches[BackupName(stamp) := newHead]
      && Consistent(t)
  {
    var s1 := FilterBranch(s, newHead);
    assert Messages(s1.reflog)[0] == RewriteMarker;
    assert StartsWith(RewriteMarker, RewriteMarker);
    assert FirstMarked(Messages(s1.reflog)) == 0;
    SelectorRoundTrip(1);
    var (b, _) := Backup(s1, BackupName(stamp), true);
    var s2 := StashPush(b, true);
    assert s2.reflog == s1.reflog;
    assert Resolve(s2, Selector(1)) == Some(s.head);
  }

  /** The same round trip with uncommitted changes, as revert_last_operation is written:
      the stash push logs HEAD's move to itself before the reset, so `HEAD@{1}` then names
      the rewritten commit. Success is reported and the changes come back, yet HEAD stays
      at the rewrite. */
  lemma DirtyRewriteThenRevert(s: RepoState, newHead: string, stamp: string)
    requires Consistent(s) && s.worktree != []
    ensures var s1 := FilterBranch(s, newHead);
      var (t, r) := Revert(s1, false, stamp, true, true, true);
      r == Reverted(Selector(1), Some(BackupName(stamp)))
      && t.head == newHead
      && t.worktree == s.worktree && t.stash == s.stash
  {
    var s1 := FilterBranch(s, newHead);
    assert Messages(s1.reflog)[0] == RewriteMarker;
    assert StartsWith(RewriteMarker, RewriteMarker);
    assert FirstMarked(Messages(s1.reflog)) == 0;
    SelectorRoundTrip(1);
    var (b, _) := Backup(s1, BackupName(stamp), true);
    var s2 := StashPush(b, true);
    assert s2.reflog[1] == s1.reflog[0];
    assert Resolve(s2, Selector(1)) == Some(newHead);
  }

  /** revert_last_operation with its target pinned: `HEAD@{i+1}` is resolved to a
      commit before anything else runs, and the reset moves HEAD to that commit, so the
      entry the stash push logs can no longer shift it. A target that does not resolve
      stops the revert before any change. */
  function RevertPinned(s: RepoState, noBackup: bool, stamp: string,
                        branchOk: bool, pushOk: bool, popOk: bool): (RepoState, RevertResult)
  {
    var i := FirstMarked(Messages(s.reflog));
    if i == |s.reflog| then (s, NothingToRevert)
    else
      var target := Selector(i + 1);
      var c := Resolve(s, target);
      if c.None? then (s, ResetFailed)
      else RevertToCommit(s, target, c.value, noBackup, stamp, branchOk, pushOk, popOk)
  }

  /** The steps of the pinned revert once the target commit is known: back up unless
      told not to, stash, `git reset --hard <commit>`, pop. */
  function RevertToCommit(s: RepoState, target: string, c: string, noBackup: bool, stamp: string,
                          branchOk: bool, pushOk: bool, popOk: bool): (RepoState, RevertResult)
  {
    var (s1, backup) := if noBackup then (s, None) else Backup(s, BackupName(stamp), branchOk);
    var s2 := StashPush(s1, pushOk);
    (StashPop(MoveHead(s2, c, c), popOk), Reverted(target, backup))
  }

  /** The pinned revert finds nothing to undo exactly when the unpinned one does, fails
      exactly when the rewrite is the oldest reflog entry, and otherwise leaves HEAD at the
      commit just before the newest rewrite whatever the stash does. */
  lemma RevertPinnedTarget(s: RepoState, noBackup: bool, stamp: string,
                           branchOk: bool, pushOk: bool, popOk: bool)
    ensures var i := FirstMarked(Messages(s.reflog));
      var (t, r) := RevertPinned(s, noBackup, stamp, branchOk, pushOk, popOk);
      (r.NothingToRevert? <==> i == |s.reflog|)
      && (r.ResetFailed? <==> i + 1 == |s.reflog|)
      && (r.Reverted? ==> i + 1 < |s.reflog| && t.head == s.reflog[i + 1].commit
                          && r.target == Selector(i + 1))
  {
    var i := FirstMarked(Messages(s.reflog));
    if i == |s.reflog| {
      assert RevertPinned(s, noBackup, stamp, branchOk, pushOk, popOk) == (s, NothingToRevert);
    } else {
      ResolveSelector(s, i + 1);
      if i + 1 == |s.reflog| {
        assert RevertPinned(s, noBackup, stamp, branchOk, pushOk, popOk) == (s, ResetFailed);
      } else {
        var c := s.reflog[i + 1].commit;
        assert RevertPinned(s, noBackup, stamp, branchOk, pushOk, popOk)
            == RevertToCommit(s, Selector(i + 1), c, noBackup, stamp, branchOk, pushOk, popOk);
      }
    }
  }

  /** The intended round trip, for any work tree: a rewrite followed by a pinned revert
      (with every git step working) puts HEAD back where it was, leaves a backup at the
      rewritten commit, and gives uncommitted changes back from the stash. */
  lemma RewriteThenPinnedRevert(s: RepoState, newHead: string, stamp: string)
    requires Consistent(s)
    ensures var s1 := FilterBranch(s, newHead);
      var (t, r) := RevertPinned(s1, false, stamp, true, true, true);
      r == Reverted(Selector(1), Some(BackupName(stamp)))
      && t.head == s.head
      && t.branches == s.branches[BackupName(stamp) := newHead]
      && (s.worktree != [] ==> t.worktree == s.worktree && t.stash == s.stash)
      && Consistent(t)
  {
    var s1 := FilterBranch(s, newHead);
    assert Messages(s1.reflog)[0] == RewriteMarker;
    assert StartsWith(RewriteMarker, RewriteMarker);
    assert FirstMarked(Messages(s1.reflog)) == 0;
    SelectorRoundTrip(1);
    assert Resolve(s1, Selector(1)) == Some(s.head);
  }

  /** A revert never breaks the reflog's record of HEAD. */
  lemma RevertKeepsConsistent(s: RepoState, noBackup: bool, stamp: string,
                              branchOk: bool, pushOk: bool, popOk: bool)
    requires Consistent(s)
    ensures Consistent(Revert(s, noBackup, stamp, branchOk, pushOk, popOk).0)
  {
  }

  /** `git stash pop` runs whether or not `git stash push` saved anything: with a clean
      work tree and an older stash entry, a successful revert applies that older entry
      to the work tree. */
  lemma RevertCanPopOlderStash(s: RepoState, older: seq<string>, stamp: string)
    requires Consistent(s) && s.worktree == [] && s.stash == [older]
    ensures var s1 := FilterBranch(s, "rewritten");
      var (t, r) := Revert(s1, false, stamp, true, true, true);
      r.Reverted? && t.worktree == older && t.stash == []
  {
    RewriteThenRevert(s, "rewritten", stamp);
  }

  /** The repository object the git commands act on. */
  class Repository {
    var head: string
    var branches: map<string, string>
    var worktree: seq<string>
    var stash: seq<seq<string>>
    var reflog: seq<ReflogEntry>

    function State(): RepoState
      reads this
    {
      RepoState(head, branches, worktree, stash, reflog)
    }

    predicate Valid()
      reads this
    {
      Consistent(State())
    }

    constructor (head: string, branches: map<string, string>, worktree: seq<string>,
                 stash: seq<seq<string>>, older: seq<ReflogEntry>)
      ensures State() == RepoState(head, branches, worktree, stash, [ReflogEntry(head, "commit")] + older)
      ensures Valid()
    {
      this.head := head;
      this.branches := branches;
      this.worktree := worktree;
      this.stash := stash;
      this.reflog := [ReflogEntry(head, "commit")] + older;
    }

    /** create_backup_branch: `git branch gitfucktime-backup-<stamp>`, the name on
        success and None otherwise. */
    method CreateBackupBranch(stamp: string, ok: bool) returns (name: Option<string>)
      modifies this
      ensures (State(), name) == Backup(old(State()), BackupName(stamp), ok)
      ensures old(Valid()) ==> Valid()
    {
      var branchName := BackupName(stamp);
      if ok {
        branches := branches[branchName := head];
        return Some(branchName);
      }
      return None;
    }

    /** `git stash push`; when it saves changes its hard reset logs HEAD's move to
        itself. */
    method StashPushAuto(ok: bool)
      modifies this
      ensures State() == StashPush(old(State()), ok)
      ensures old(Valid()) ==> Valid()
    {
      if ok && worktree != [] {
        stash := [worktree] + stash;
        worktree := [];
        reflog := [ReflogEntry(head, "reset: moving to HEAD")] + reflog;
      }
    }

    method Reset(ref: string) returns (ok: bool)
      modifies this
      ensures ok <==> ResetHard(old(State()), ref).Some?
      ensures ok ==> State() == ResetHard(old(State()), ref).value
      ensures !ok ==> State() == old(State())
      ensures old(Valid()) ==> Valid()
    {
      var j := SelectorIndex(ref);
      if j.None? || j.value >= |reflog| {
        return false;
      }
      var c := reflog[j.value].commit;
      head := c;
      worktree := [];
      reflog := [ReflogEntry(c, "reset: moving to " + ref)] + reflog;
      return true;
    }

    method StashPopAuto(ok: bool)
      modifies this
      ensures State() == StashPop(old(State()), ok)
      ensures old(Valid()) ==> Valid()
    {
      if ok && stash != [] {
        worktree := stash[0];
        stash := stash[1..];
      }
    }

    /** A successful `git filter-branch` that produced `newHead`. */
    method RunFilterBranch(newHead: string)
      modifies this
      ensures State() == FilterBranch(old(State()), newHead)
      ensures old(Valid()) ==> Valid()
    {
      head := newHead;
      reflog := [ReflogEntry(newHead, RewriteMarker)] + reflog;
    }

    /** revert_last_operation, step by step on the repository. */
    method RevertLastOperation(noBackup: bool, stamp: string, branchOk: bool, pushOk: bool,
                               popOk: bool) returns (result: RevertResult)
      modifies this
      ensures (State(), result) == Revert(old(State()), noBackup, stamp, branchOk, pushOk, popOk)
    {
      ghost var s0 := State();
      var lastOp := DetectLastFilterBranch(Output(Messages(reflog)));
      FirstMarkedIsFirst(Messages(s0.reflog));
      if lastOp.None? {
        return NothingToRevert;
      }
      assert lastOp.value.index == FirstMarked(Messages(s0.reflog));
      assert Revert(s0, noBackup, stamp, branchOk, pushOk, popOk)
          == RevertTo(s0, lastOp.value.target, noBackup, stamp, branchOk, pushOk, popOk);
      var targetRef := lastOp.value.target;
      var backupName: Option<string> := None;
      if !noBackup {
        backupName := CreateBackupBranch(stamp, branchOk);
      }
      ghost var s1 := State();
      assert (s1, backupName) == if noBackup then (s0, None) else Backup(s0, BackupName(stamp), branchOk);
      StashPushAuto(pushOk);
      ghost var s2 := State();
      var ok := Reset(targetRef);
      if !ok {
        return ResetFailed;
      }
      StashPopAuto(popOk);
      return Reverted(targetRef, backupName);
    }
  }

  // ---------------------------------------------------------------------------------
  // check_branch_divergence

  datatype Divergence = Divergence(ahead: int, behind: int)

  /** check_branch_divergence: both counts, or None when either query or its integer
      parse fails (the bare except). */
  function CheckBranchDivergence(ahead: Option<int>, behind: Option<int>): (d: Option<Divergence>)
    ensures d.Some? <==> ahead.Some? && behind.Some?
    ensures d.Some? ==> d.value.ahead == ahead.value && d.value.behind == behind.value
  {
    if ahead.Some? && behind.Some? then Some(Divergence(ahead.value, behind.value)) else None
  }
}
