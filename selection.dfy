/**
 * Which commits `main()` in gitfucktime/main.py rewrites and which commit it takes as
 * the parent of the rewritten range (`revision_range_start`). gitfucktime.py's main
 * does the same, line for line.
 *
 * Every git command is an oracle: `rev-list` answers are queries, `rev-parse` is a
 * function from its argument to its output (None when it fails), and `merge-base` is
 * its output or None.
 */
module Selection {
  import opened Wrappers
  import opened Text
  import opened Commits

  /** The scope flags: `--last N`, `--first N`, `--unpushed`. */
  datatype Mode = Mode(last: Option<int>, first: Option<int>, unpushed: bool)

  /** Neither `--last` nor `--first` narrows the scope (each is ignored when 0). */
  predicate WholeScope(m: Mode)
  {
    !Truthy(m.last) && !Truthy(m.first)
  }

  /** The commits to rewrite, oldest first, and the parent the range starts from. */
  datatype Selection = Selection(commits: seq<string>, rangeStart: Option<string>)

  /** `check_output(...).decode().strip()`, None when the command fails. */
  function Stripped(o: Option<string>): Option<string>
  {
    if o.Some? then Some(Strip(o.value)) else None
  }

  /** `all_commits[:first] if len(all_commits) >= first else all_commits`. */
  function FirstN(all: seq<string>, first: int): seq<string>
  {
    if |all| >= first then SlicePrefix(all, first) else all
  }

  /** The selection main.py:191-227 arrives at; None when get_commits raises. */
  function Select(m: Mode, head: Query, unpushed: Query, revParse: string -> Option<string>,
                  mergeBase: Option<string>): Option<Selection>
  {
    var q := RevListSource(head, unpushed, m.unpushed);
    if q.Failed? then None
    else if Truthy(m.last) then
      var commits := Arrange(CleanLines(q.lines), m.last, true);
      Some(Selection(commits, Stripped(revParse("HEAD~" + IntToString(m.last.value)))))
    else if Truthy(m.first) then
      var commits := FirstN(Arrange(CleanLines(q.lines), None, true), m.first.value);
      Some(Selection(commits, if commits == [] then None else Stripped(revParse(commits[0] + "~1"))))
    else
      var commits := Arrange(CleanLines(q.lines), None, true);
      Some(Selection(commits, if m.unpushed then Stripped(mergeBase) else None))
  }

  /** The commit-fetching block of main: get_commits in the branch the flags pick, then
      the parent lookup of that branch. */
  method SelectCommits(m: Mode, head: Query, unpushed: Query, revParse: string -> Option<string>,
                       mergeBase: Option<string>) returns (sel: Option<Selection>)
    ensures sel == Select(m, head, unpushed, revParse, mergeBase)
  {
    ghost var q := RevListSource(head, unpushed, m.unpushed);
    var revisionRangeStart: Option<string> := None;
    var commits: seq<string>;
    if Truthy(m.last) {
      var got := GetCommits(head, unpushed, m.last, m.unpushed, true);
      if got.None? {
        return None;
      }
      commits := got.value;
      // a failing rev-parse leaves the anchor at None (the bare except)
      revisionRangeStart := Stripped(revParse("HEAD~" + IntToString(m.last.value)));
      assert commits == Arrange(CleanLines(q.lines), m.last, true);
    } else if Truthy(m.first) {
      var allCommits := GetCommits(head, unpushed, None, m.unpushed, true);
      if allCommits.None? {
        return None;
      }
      commits := if |allCommits.value| >= m.first.value
                 then SlicePrefix(allCommits.value, m.first.value) else allCommits.value;
      if commits == [] {
        revisionRangeStart := None;  // commits[0] raises IndexError
      } else {
        revisionRangeStart := Stripped(revParse(commits[0] + "~1"));
      }
      assert commits == FirstN(Arrange(CleanLines(q.lines), None, true), m.first.value);
    } else {
      var got := GetCommits(head, unpushed, None, m.unpushed, true);
      if got.None? {
        return None;
      }
      commits := got.value;
      if m.unpushed {
        revisionRangeStart := Stripped(mergeBase);
      }
      assert commits == Arrange(CleanLines(q.lines), None, true);
    }
    return Some(Selection(commits, revisionRangeStart));
  }

  /** The cleaned rev-list output the selection works from, newest first. */
  function Listed(m: Mode, head: Query, unpushed: Query): seq<string>
  {
    var q := RevListSource(head, unpushed, m.unpushed);
    if q.Failed? then [] else CleanLines(q.lines)
  }

  /** Nothing is selected only when the rev-list query that is read fails. */
  lemma SelectFails(m: Mode, head: Query, unpushed: Query, revParse: string -> Option<string>,
                    mergeBase: Option<string>)
    ensures Select(m, head, unpushed, revParse, mergeBase).None?
        <==> RevListSource(head, unpushed, m.unpushed).Failed?
  {
  }

  /** `--last N` (N > 0): the N newest listed commits (all of them when fewer), oldest
      first, and `HEAD~N` as the anchor. */
  lemma SelectLast(m: Mode, head: Query, unpushed: Query, revParse: string -> Option<string>,
                   mergeBase: Option<string>)
    requires Truthy(m.last) && m.last.value > 0
    requires RevListSource(head, unpushed, m.unpushed).Output?
    ensures var all := Listed(m, head, unpushed);
      var sel := Select(m, head, unpushed, revParse, mergeBase).value;
      var k := Min(m.last.value, |all|);
      |sel.commits| == k
      && (forall i :: 0 <= i < k ==> sel.commits[i] == all[k - 1 - i])
      && sel.rangeStart == Stripped(revParse("HEAD~" + IntToString(m.last.value)))
  {
    ArrangeKeepsNewest(Listed(m, head, unpushed), m.last, true);
  }

  /** `--first N` (N > 0, no `--last`): the prefix of length min(N, n) of the oldest-first
      list; the anchor is the parent of its first, oldest commit, and None when nothing
      was listed. */
  lemma SelectFirst(m: Mode, head: Query, unpushed: Query, revParse: string -> Option<string>,
                    mergeBase: Option<string>)
    requires !Truthy(m.last) && Truthy(m.first) && m.first.value > 0
    requires RevListSource(head, unpushed, m.unpushed).Output?
    ensures var all := Listed(m, head, unpushed);
      var sel := Select(m, head, unpushed, revParse, mergeBase).value;
      sel.commits == Reverse(all)[..Min(m.first.value, |all|)]
      && (sel.commits == [] ==> sel.rangeStart.None?)
      && (sel.commits != [] ==> sel.commits[0] == all[|all| - 1]
                                && sel.rangeStart == Stripped(revParse(sel.commits[0] + "~1")))
  {
    var all := Listed(m, head, unpushed);
    var r := Reverse(all);
    assert Arrange(all, None, true) == r;
    var n := m.first.value;
    var commits := FirstN(r, n);
    assert commits == r[..Min(n, |r|)] by {
      if |r| >= n {
        assert commits == SlicePrefix(r, n) == r[..Min(n, |r|)];
      } else {
        assert r[..|r|] == r;
      }
    }
    assert Select(m, head, unpushed, revParse, mergeBase).value.commits == commits;
  }

  /** Without `--last` and `--first`: every listed commit, oldest first; the merge base
      is the anchor in `--unpushed` mode and there is none otherwise. */
  lemma SelectWhole(m: Mode, head: Query, unpushed: Query, revParse: string -> Option<string>,
                    mergeBase: Option<string>)
    requires WholeScope(m)
    requires RevListSource(head, unpushed, m.unpushed).Output?
    ensures var all := Listed(m, head, unpushed);
      var sel := Select(m, head, unpushed, revParse, mergeBase).value;
      sel.commits == Reverse(all)
      && sel.rangeStart == (if m.unpushed then Stripped(mergeBase) else None)
  {
  }
}
