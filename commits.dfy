/**
 * The list handling of gitfucktime/core.py around the git queries: `get_commits` (the
 * cleaning, truncation and reversal of `git rev-list` output, with its fallback when
 * origin/master is missing) and `get_commit_history` (the parsing of `git log` lines).
 * The legacy gitfucktime.py repeats get_commits word for word.
 *
 * A git query is an oracle: it either prints lines or raises CalledProcessError.
 */
module Commits {
  import opened Wrappers
  import opened Text

  function Max(a: int, b: int): int
  {
    if a >= b then a else b
  }

  /** `[line.strip() for line in lines if line.strip()]`. */
  function CleanLines(lines: seq<string>): (r: seq<string>)
    ensures |r| <= |lines|
    ensures forall k :: 0 <= k < |r| ==> r[k] != [] && Strip(r[k]) == r[k]
  {
    if lines == [] then []
    else
      var s := Strip(lines[0]);
      var rest := CleanLines(lines[1..]);
      if s == [] then rest else StripIdempotent(lines[0]); [s] + rest
  }

  /** Cleaning works line by line: it keeps the oracle's order. */
  lemma {:induction false} CleanLinesAppend(a: seq<string>, b: seq<string>)
    ensures CleanLines(a + b) == CleanLines(a) + CleanLines(b)
  {
    if a == [] {
      assert a + b == b;
    } else {
      assert (a + b)[0] == a[0] && (a + b)[1..] == a[1..] + b;
      CleanLinesAppend(a[1..], b);
      AppendAssoc([Strip(a[0])], CleanLines(a[1..]), CleanLines(b));
    }
  }

  /** A cleaned line is exactly the stripped form of some non-blank oracle line. */
  lemma {:induction false} CleanLinesMember(lines: seq<string>, x: string)
    ensures x in CleanLines(lines) <==> x != [] && exists l :: l in lines && Strip(l) == x
  {
    if lines != [] {
      CleanLinesMember(lines[1..], x);
      assert forall l :: l in lines <==> l == lines[0] || l in lines[1..];
    }
  }

  /** Python's `s[:stop]`: a negative stop counts from the end. */
  function SlicePrefix<T>(s: seq<T>, stop: int): seq<T>
  {
    if stop >= 0 then s[..Min(stop, |s|)] else s[..Max(0, |s| + stop)]
  }

  /** Python's `list.reverse()`, as a value. */
  function Reverse<T>(s: seq<T>): (r: seq<T>)
    ensures |r| == |s|
    ensures forall k :: 0 <= k < |s| ==> r[k] == s[|s| - 1 - k]
  {
    if s == [] then [] else Reverse(s[1..]) + [s[0]]
  }

  lemma ReverseAppend<T>(a: seq<T>, b: seq<T>)
    ensures Reverse(a + b) == Reverse(b) + Reverse(a)
  {
    var l, r := Reverse(a + b), Reverse(b) + Reverse(a);
    assert |l| == |r|;
    forall k | 0 <= k < |l| ensures l[k] == r[k] {
      if k < |b| {
        assert l[k] == (a + b)[|a| + |b| - 1 - k] == b[|b| - 1 - k];
      } else {
        assert l[k] == (a + b)[|a| + |b| - 1 - k] == a[|a| - 1 - (k - |b|)];
      }
    }
  }

  lemma ReverseInvolution<T>(s: seq<T>)
    ensures Reverse(Reverse(s)) == s
  {
    var r := Reverse(Reverse(s));
    forall k | 0 <= k < |s| ensures r[k] == s[k] {
      assert r[k] == Reverse(s)[|s| - 1 - k];
    }
  }

  /** The query get_commits reads: origin/master..HEAD in unpushed mode, and the whole
      of HEAD otherwise or when origin/master cannot be resolved. */
  function RevListSource(head: Query, unpushed: Query, unpushedOnly: bool): (q: Query)
    ensures unpushedOnly && unpushed.Output? ==> q == unpushed
    ensures !unpushedOnly || unpushed.Failed? ==> q == head
  {
    if unpushedOnly && unpushed.Output? then unpushed else head
  }

  /** The list get_commits returns from the cleaned oracle lines `all`: the slice
      `all[:count]` when `count` is truthy, reversed in place when `reverse_order`. */
  function Arrange(all: seq<string>, count: Option<int>, reverseOrder: bool): seq<string>
  {
    var kept := if Truthy(count) then SlicePrefix(all, count.value) else all;
    if reverseOrder then Reverse(kept) else kept
  }

  /** What Arrange keeps: all of the list when `count` is None or 0, min(count, n) entries
      for a positive count and n + count (at least 0) for a negative one, always the
      newest ones, and in exactly the opposite order with `reverse_order`. */
  lemma ArrangeKeepsNewest(all: seq<string>, count: Option<int>, reverseOrder: bool)
    ensures var r := Arrange(all, count, reverseOrder);
      var k := |r|;
      (!Truthy(count) ==> k == |all|)
      && (Truthy(count) && count.value > 0 ==> k == Min(count.value, |all|))
      && (Truthy(count) && count.value < 0 ==> k == Max(0, |all| + count.value))
      && forall i :: 0 <= i < k ==> r[i] == (if reverseOrder then all[k - 1 - i] else all[i])
  {
    var kept := if Truthy(count) then SlicePrefix(all, count.value) else all;
    assert |kept| <= |all| && kept == all[..|kept|];
    var r := Arrange(all, count, reverseOrder);
    forall i | 0 <= i < |r|
      ensures r[i] == (if reverseOrder then all[|r| - 1 - i] else all[i])
    {
      if reverseOrder {
        assert r[i] == kept[|kept| - 1 - i];
      } else {
        assert r[i] == kept[i];
      }
    }
  }

  /** get_commits. The result is None when the query it falls back to fails (the
      exception reaches the caller); otherwise it is the arrangement of the cleaned
      lines of that query (ArrangeKeepsNewest says what is kept and in which order). */
  method GetCommits(head: Query, unpushed: Query, count: Option<int>, unpushedOnly: bool,
                    reverseOrder: bool) returns (commits: Option<seq<string>>)
    ensures commits.None? <==> RevListSource(head, unpushed, unpushedOnly).Failed?
    ensures commits.Some? ==>
      commits.value == Arrange(CleanLines(RevListSource(head, unpushed, unpushedOnly).lines),
                               count, reverseOrder)
  {
    var result: Query;
    if unpushedOnly {
      if unpushed.Output? {
        result := unpushed;
      } else {
        result := head;  // "Could not find origin/master, using all commits on HEAD"
      }
    } else {
      result := head;
    }
    if result.Failed? {
      return None;
    }
    var list := CleanLines(result.lines);
    if Truthy(count) {
      list := SlicePrefix(list, count.value);
    }
    if reverseOrder {
      list := Reverse(list);
    }
    return Some(list);
  }

  /** One entry of the `--view` history: `%H|%cd|%cr|%an|%s`. */
  datatype HistoryEntry = HistoryEntry(hash: string, date: string, relativeDate: string,
                                       author: string, message: string)

  /** The line an entry was read from. */
  function JoinEntry(e: HistoryEntry): string
  {
    e.hash + "|" + e.date + "|" + e.relativeDate + "|" + e.author + "|" + e.message
  }

  /** The first four fields of an entry hold no '|'; the message may. */
  predicate FieldsSeparated(e: HistoryEntry)
  {
    '|' !in e.hash && '|' !in e.date && '|' !in e.relativeDate && '|' !in e.author
  }

  lemma JoinFive(p: seq<string>)
    requires |p| == 5
    ensures Join(p, '|') == p[0] + "|" + p[1] + "|" + p[2] + "|" + p[3] + "|" + p[4]
  {
    var p1, p2, p3 := p[1..], p[2..], p[3..];
    assert p3[1..] == [p[4]] && p2[1..] == p3 && p1[1..] == p2;
    var j3 := p[3] + "|" + p[4];
    var j2 := p[2] + "|" + j3;
    var j1 := p[1] + "|" + j2;
    assert Join(p3, '|') == j3;
    assert Join(p2, '|') == j2;
    assert Join(p1, '|') == j1;
    assert Join(p, '|') == p[0] + "|" + j1;
    assert p[0] + "|" + j1 == p[0] + "|" + p[1] + "|" + j2;
    assert p[0] + "|" + p[1] + "|" + j2 == p[0] + "|" + p[1] + "|" + p[2] + "|" + j3;
  }

  /** The body of the history loop for one line: blank lines and lines with fewer than
      five `|`-separated fields give nothing. A line gives an entry exactly when it has
      at least four '|'; the entry joins back to the line, and first four fields are
      free of '|'. */
  function ParseHistoryLine(line: string): (e: Option<HistoryEntry>)
    ensures e.Some? <==> Count(line, '|') >= 4
    ensures e.Some? ==> JoinEntry(e.value) == line && FieldsSeparated(e.value)
  {
    if Strip(line) == [] then
      CountAbsent(line, '|');
      None
    else
      var parts := SplitN(line, '|', 4);
      if |parts| == 5 then
        JoinFive(parts);
        Some(HistoryEntry(parts[0], parts[1], parts[2], parts[3], parts[4]))
      else
        None
  }

  lemma SplitNAfterField(a: string, rest: string, n: nat)
    requires '|' !in a && n > 0
    ensures SplitN(a + "|" + rest, '|', n) == [a] + SplitN(rest, '|', n - 1)
  {
    var s := a + "|" + rest;
    IndexOfSeparator(a, '|', rest);
    assert s[..|a|] == a;
    assert s[|a| + 1..] == rest;
  }

  /** ParseHistoryLine inverts JoinEntry: any entry whose first four fields hold no '|' is
      read back unchanged, whatever its message holds. */
  lemma ParseJoinedEntry(e: HistoryEntry)
    requires FieldsSeparated(e)
    ensures ParseHistoryLine(JoinEntry(e)) == Some(e)
  {
    var line := JoinEntry(e);
    var t3 := e.author + "|" + e.message;
    var t2 := e.relativeDate + "|" + t3;
    var t1 := e.date + "|" + t2;
    var p0 := e.hash + "|";
    var p1 := p0 + e.date + "|";
    var p2 := p1 + e.relativeDate + "|";
    AppendAssoc(p0, e.date + "|", t2);
    AppendAssoc(p0, e.date, "|");
    AppendAssoc(p1, e.relativeDate + "|", t3);
    AppendAssoc(p1, e.relativeDate, "|");
    AppendAssoc(p2, e.author + "|", e.message);
    AppendAssoc(p2, e.author, "|");
    assert line == p0 + t1;
    assert line[|e.hash|] == '|';
    assert !AllSpace(line);
    SplitNAfterField(e.hash, t1, 4);
    SplitNAfterField(e.date, t2, 3);
    SplitNAfterField(e.relativeDate, t3, 2);
    SplitNAfterField(e.author, e.message, 1);
    assert SplitN(e.message, '|', 0) == [e.message];
  }

  function EntryList(e: Option<HistoryEntry>): seq<HistoryEntry>
  {
    if e.Some? then [e.value] else []
  }

  /** The history of a list of lines, one optional entry per line, in line order; every
      entry is read from one of the lines. */
  function ParseHistory(lines: seq<string>): (r: seq<HistoryEntry>)
    ensures |r| <= |lines|
    ensures forall k :: 0 <= k < |r| ==> JoinEntry(r[k]) in lines && FieldsSeparated(r[k])
  {
    if lines == [] then []
    else ParseHistory(lines[..|lines| - 1]) + EntryList(ParseHistoryLine(lines[|lines| - 1]))
  }

  lemma {:induction false} ParseHistoryAppend(a: seq<string>, b: seq<string>)
    ensures ParseHistory(a + b) == ParseHistory(a) + ParseHistory(b)
  {
    if b == [] {
      assert a + b == a;
    } else {
      var b' := b[..|b| - 1];
      assert (a + b)[..|a + b| - 1] == a + b';
      ParseHistoryAppend(a, b');
    }
  }

  /** The history of one line is that line's entry, if it has one. */
  lemma ParseHistorySingle(line: string)
    ensures ParseHistory([line]) == EntryList(ParseHistoryLine(line))
  {
    assert [line][..0] == [];
  }

  /** get_commit_history: the loop over the output lines. A failed `git log` gives []. */
  method GetCommitHistory(output: Query) returns (history: seq<HistoryEntry>)
    ensures output.Failed? ==> history == []
    ensures output.Output? ==> history == ParseHistory(output.lines)
  {
    if output.Failed? {
      return [];
    }
    var lines := output.lines;
    history := [];
    var i := 0;
    while i < |lines|
      invariant 0 <= i <= |lines|
      invariant history == ParseHistory(lines[..i])
    {
      var line := lines[i];
      assert lines[..i + 1][..i] == lines[..i];
      assert ParseHistory(lines[..i + 1]) == history + EntryList(ParseHistoryLine(line));
      if Strip(line) != [] {
        var parts := SplitN(line, '|', 4);
        if |parts| == 5 {
          history := history + [HistoryEntry(parts[0], parts[1], parts[2], parts[3], parts[4])];
        }
      }
      i := i + 1;
    }
    assert lines[..i] == lines;
  }
}
