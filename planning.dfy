/**
 * The timestamp plan of `main()` in gitfucktime/main.py:351-362 (gitfucktime.py:232-241):
 * one generated timestamp per commit, sorted ascending, then handed out by position to
 * the oldest-first commit list, so that ancestry order and date order agree.
 *
 * Python's call binding is modelled for the one call that matters: main.py passes
 * `max_time=now` to generate_work_hours_timestamp, whose only parameters are
 * `start_date` and `end_date`.
 */
module Planning {
  import opened Wrappers
  import opened Calendar
  import opened FilterScript

  // ---------------------------------------------------------------------------------
  // Binding a call to generate_work_hours_timestamp(start_date, end_date)

  const GenerateParams: seq<string> := ["start_date", "end_date"]

  /** Python binds a call with `positional` positional arguments and the given keyword
      arguments exactly when every parameter gets one value and every keyword names a
      parameter not already filled; otherwise the call raises TypeError. */
  predicate CallBinds(positional: nat, keywords: seq<string>)
  {
    positional <= |GenerateParams|
    && |keywords| == |GenerateParams| - positional
    && (forall k :: 0 <= k < |keywords| ==> keywords[k] in GenerateParams[positional..])
    && (forall i, j :: 0 <= i < j < |keywords| ==> keywords[i] != keywords[j])
  }

  /** main.py:353 as written: `generate_work_hours_timestamp(start_date, end_date,
      max_time=now)` cannot bind, so it raises TypeError. */
  lemma MaxTimeCallRaises()
    ensures !CallBinds(2, ["max_time"])
  {
    assert "max_time" != GenerateParams[0] && "max_time" != GenerateParams[1];
  }

  /** The call as the function is defined, as gitfucktime.py:234 makes it, binds. */
  lemma PlainCallBinds()
    ensures CallBinds(2, [])
  {
  }

  // ---------------------------------------------------------------------------------
  // Drawing the timestamps

  /** The timestamps drawn for the commits with the position of the next unused draw;
      a call that does not bind (TypeError); or a call that gave no timestamp. */
  datatype Drawn = Drawn(stamps: seq<DateTime>, next: nat) | CallRejected | DrawFailed(reason: Generated)

  /** `for _ in range(n): timestamps.append(generate_work_hours_timestamp(...))`, the calls
      made with the given keyword arguments, each call consuming draws where the last
      one stopped. */
  function DrawAll(start: DateTime, end: DateTime, keywords: seq<string>, n: nat,
                   draws: seq<nat>, from: nat): (d: Drawn)
    requires from <= |draws|
    ensures d.Drawn? ==> |d.stamps| == n && from <= d.next <= |draws|
    ensures d.Drawn? ==> forall k :: 0 <= k < n ==>
      WorkInstant(d.stamps[k]) && start.day <= d.stamps[k].day <= start.day + TotalDays(start, end)
    ensures n > 0 && !CallBinds(2, keywords) ==> d == CallRejected
    decreases n
  {
    if n == 0 then Drawn([], from)
    else if !CallBinds(2, keywords) then CallRejected
    else
      var g := Generate(start, end, draws, from);
      GenerateBounds(start, end, draws, from);
      if !g.Stamp? then DrawFailed(g)
      else
        var rest := DrawAll(start, end, keywords, n - 1, draws, g.next);
        if rest.Drawn? then Drawn([g.at] + rest.stamps, rest.next) else rest
  }

  /** `acc` followed by what the remaining calls draw. */
  function After(acc: seq<DateTime>, d: Drawn): Drawn
  {
    if d.Drawn? then Drawn(acc + d.stamps, d.next) else d
  }

  /** One call of the loop: a call that binds and gives a timestamp puts it in front of
      what the remaining calls draw. */
  lemma DrawStep(start: DateTime, end: DateTime, keywords: seq<string>, n: nat,
                 draws: seq<nat>, from: nat, acc: seq<DateTime>)
    requires from <= |draws| && n > 0 && CallBinds(2, keywords)
    requires Generate(start, end, draws, from).Stamp?
    ensures var g := Generate(start, end, draws, from);
      g.next <= |draws|
      && After(acc, DrawAll(start, end, keywords, n, draws, from))
         == After(acc + [g.at], DrawAll(start, end, keywords, n - 1, draws, g.next))
  {
    var g := Generate(start, end, draws, from);
    GenerateBounds(start, end, draws, from);
    var rest := DrawAll(start, end, keywords, n - 1, draws, g.next);
    if rest.Drawn? {
      assert acc + ([g.at] + rest.stamps) == (acc + [g.at]) + rest.stamps;
    }
  }

  /** A call that does not bind, or gives no timestamp, ends the drawing with its failure
      whatever was drawn before it. */
  lemma DrawStops(start: DateTime, end: DateTime, keywords: seq<string>, n: nat,
                  draws: seq<nat>, from: nat, acc: seq<DateTime>)
    requires from <= |draws| && n > 0
    ensures !CallBinds(2, keywords) ==>
      After(acc, DrawAll(start, end, keywords, n, draws, from)) == CallRejected
    ensures CallBinds(2, keywords) && !Generate(start, end, draws, from).Stamp? ==>
      After(acc, DrawAll(start, end, keywords, n, draws, from)) == DrawFailed(Generate(start, end, draws, from))
  {
  }

  /** The drawing loop of main. */
  method DrawTimestamps(start: DateTime, end: DateTime, keywords: seq<string>, n: nat,
                        draws: seq<nat>, from: nat) returns (d: Drawn)
    requires from <= |draws|
    ensures d == DrawAll(start, end, keywords, n, draws, from)
  {
    var timestamps: seq<DateTime> := [];
    var pos: nat := from;
    var i := 0;
    while i < n
      invariant 0 <= i <= n && pos <= |draws|
      invariant After(timestamps, DrawAll(start, end, keywords, n - i, draws, pos))
             == DrawAll(start, end, keywords, n, draws, from)
    {
      DrawStops(start, end, keywords, n - i, draws, pos, timestamps);
      if !CallBinds(2, keywords) {
        return CallRejected;
      }
      var g := GenerateWorkHoursTimestamp(start, end, draws, pos);
      if !g.Stamp? {
        return DrawFailed(g);
      }
      DrawStep(start, end, keywords, n - i, draws, pos, timestamps);
      timestamps := timestamps + [g.at];
      pos := g.next;
      i := i + 1;
    }
    assert timestamps + [] == timestamps;
    return Drawn(timestamps, pos);
  }

  /** The as-written call of main.py:353 rejects the first call whenever there is a
      commit to date, so main never gets past drawing timestamps. */
  lemma AsWrittenDrawRaises(start: DateTime, end: DateTime, n: nat, draws: seq<nat>, from: nat)
    requires n > 0 && from <= |draws|
    ensures DrawAll(start, end, ["max_time"], n, draws, from) == CallRejected
  {
    MaxTimeCallRaises();
  }

  // ---------------------------------------------------------------------------------
  // Sorting

  predicate Chronological(s: seq<DateTime>)
  {
    forall i, j :: 0 <= i < j < |s| ==> NotAfter(s[i], s[j])
  }

  /** Inserts one timestamp into an ascending list. The result starts with `x` or with
      the list's first element. */
  function Insert(x: DateTime, s: seq<DateTime>): (r: seq<DateTime>)
    requires Chronological(s)
    ensures |r| == |s| + 1 && multiset(r) == multiset(s) + multiset{x}
    ensures r[0] == x || (s != [] && r[0] == s[0])
    ensures Chronological(r)
  {
    if s == [] then [x]
    else if NotAfter(x, s[0]) then [x] + s
    else
      var rest := Insert(x, s[1..]);
      assert s == [s[0]] + s[1..];
      assert NotAfter(s[0], rest[0]);
      [s[0]] + rest
  }

  /** `timestamps.sort()`: ascending, and the same timestamps. */
  function SortTimes(s: seq<DateTime>): (r: seq<DateTime>)
    ensures Chronological(r) && multiset(r) == multiset(s) && |r| == |s|
  {
    if s == [] then []
    else
      assert s == [s[0]] + s[1..];
      Insert(s[0], SortTimes(s[1..]))
  }

  /** Sorting keeps every property that each timestamp had. */
  lemma SortKeepsWorkInstants(s: seq<DateTime>, lo: int, hi: int)
    requires forall k :: 0 <= k < |s| ==> WorkInstant(s[k]) && lo <= s[k].day <= hi
    ensures var r := SortTimes(s);
      |r| == |s| && forall k :: 0 <= k < |r| ==> WorkInstant(r[k]) && lo <= r[k].day <= hi
  {
    var r := SortTimes(s);
    forall k | 0 <= k < |r| ensures WorkInstant(r[k]) && lo <= r[k].day <= hi {
      assert r[k] in multiset(r);
      assert r[k] in multiset(s);
      var j :| 0 <= j < |s| && s[j] == r[k];
    }
  }

  // ---------------------------------------------------------------------------------
  // The commit -> date mapping

  /** `d[k] = v` on a dict given by its items: an existing key keeps its place and takes
      the new value, a new key goes last. */
  function DictSet<V>(d: seq<(string, V)>, k: string, v: V): (r: seq<(string, V)>)
    ensures k in Keys(d) ==> Keys(r) == Keys(d)
    ensures k in Keys(d) && Distinct(Keys(d)) ==>
      |r| == |d| && forall i :: 0 <= i < |d| ==> r[i] == (if d[i].0 == k then (k, v) else d[i])
    ensures k !in Keys(d) ==> r == d + [(k, v)]
  {
    if d == [] then [(k, v)]
    else if d[0].0 == k then
      assert Distinct(Keys(d)) ==> forall i :: 1 <= i < |d| ==> d[i].0 != k by {
        if Distinct(Keys(d)) {
          forall i | 1 <= i < |d| ensures d[i].0 != k {
            assert Keys(d)[0] != Keys(d)[i];
          }
        }
      }
      [(k, v)] + d[1..]
    else
      assert Keys(d) == [d[0].0] + Keys(d[1..]);
      assert Distinct(Keys(d)) ==> Distinct(Keys(d[1..]));
      [d[0]] + DictSet(d[1..], k, v)
  }

  /** The dict after `mapping[commits[i]] = values[i]` for every i in turn. */
  function Assign<V>(commits: seq<string>, values: seq<V>): seq<(string, V)>
    requires |values| >= |commits|
  {
    if commits == [] then []
    else DictSet(Assign(commits[..|commits| - 1], values), commits[|commits| - 1], values[|commits| - 1])
  }

  predicate Distinct(s: seq<string>)
  {
    forall i, j :: 0 <= i < j < |s| ==> s[i] != s[j]
  }

  /** The formatted timestamps (`strftime(TIME_FORMAT)`, an input of the model). */
  function FormatAll(ts: seq<DateTime>, format: DateTime -> string): (r: seq<string>)
    ensures |r| == |ts|
    ensures forall k :: 0 <= k < |ts| ==> r[k] == format(ts[k])
  {
    if ts == [] then [] else [format(ts[0])] + FormatAll(ts[1..], format)
  }

  /** The mapping loop of main. */
  method BuildMapping(commits: seq<string>, timestamps: seq<DateTime>, format: DateTime -> string)
    returns (mapping: Mapping)
    requires |timestamps| == |commits|
    ensures mapping == Assign(commits, FormatAll(timestamps, format))
  {
    ghost var values := FormatAll(timestamps, format);
    mapping := [];
    var i := 0;
    while i < |commits|
      invariant 0 <= i <= |commits|
      invariant mapping == Assign(commits[..i], values)
    {
      var commit := commits[i];
      assert commits[..i + 1][..i] == commits[..i];
      mapping := DictSet(mapping, commit, format(timestamps[i]));
      i := i + 1;
    }
    assert commits[..i] == commits;
  }

  /** With distinct commits (as rev-list lists them) the dict holds one entry per commit,
      in commit order, each commit with the value of its own position. */
  lemma {:induction false} AssignDistinct<V>(commits: seq<string>, values: seq<V>)
    requires |values| >= |commits| && Distinct(commits)
    ensures var d := Assign(commits, values);
      |d| == |commits| && forall k :: 0 <= k < |d| ==> d[k] == (commits[k], values[k])
  {
    if commits != [] {
      var p := commits[..|commits| - 1];
      var c := commits[|commits| - 1];
      assert Distinct(p);
      AssignDistinct(p, values);
      var d := Assign(p, values);
      assert Keys(d) == p;
      assert c !in p;
    }
  }

  /** Whatever the commits, the dict's keys are exactly the commits (each once). */
  lemma {:induction false} AssignKeys<V>(commits: seq<string>, values: seq<V>)
    requires |values| >= |commits|
    ensures var ks := Keys(Assign(commits, values));
      (forall c :: c in ks <==> c in commits) && Distinct(ks)
  {
    if commits != [] {
      var p := commits[..|commits| - 1];
      var c := commits[|commits| - 1];
      AssignKeys(p, values);
      var d := Assign(p, values);
      var v := values[|commits| - 1];
      assert Assign(commits, values) == DictSet(d, c, v);
      if c !in Keys(d) {
        var ks := Keys(d + [(c, v)]);
        assert ks == Keys(d) + [c];
        assert Distinct(ks) by {
          forall i, j | 0 <= i < j < |ks| ensures ks[i] != ks[j] {
            if j == |ks| - 1 {
              assert ks[i] in Keys(d);
            }
          }
        }
      }
      assert commits == p + [c];
      assert forall x :: x in commits <==> x in p || x == c;
    }
  }

  /** The key property of the plan: with the drawn timestamps sorted and assigned by
      position to the oldest-first commits, an older commit (earlier in the list) never
      gets a later timestamp than a newer one. Entry k of the mapping is commit k with
      the k-th sorted timestamp. */
  lemma PlanChronological(commits: seq<string>, drawn: seq<DateTime>, format: DateTime -> string,
                          i: int, j: int)
    requires |drawn| == |commits| && Distinct(commits)
    requires 0 <= i < j < |commits|
    ensures var sorted := SortTimes(drawn);
      var mapping := Assign(commits, FormatAll(sorted, format));
      |sorted| == |commits| && |mapping| == |commits|
      && mapping[i] == (commits[i], format(sorted[i]))
      && mapping[j] == (commits[j], format(sorted[j]))
      && NotAfter(sorted[i], sorted[j])
  {
    var sorted := SortTimes(drawn);
    AssignDistinct(commits, FormatAll(sorted, format));
  }
}
