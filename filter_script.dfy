/**
 * The env-filter script of gitfucktime/core.py `generate_filter_script` (written inline,
 * character for character the same, in gitfucktime.py's main): a shell `case` on
 * $GIT_COMMIT with one branch per mapping entry that exports the new author and
 * committer dates.
 *
 * A Python dict is given as the sequence of its items in insertion order, which is the
 * order `mapping.items()` yields them.
 */
module FilterScript {
  import opened Wrappers
  import opened Text

  /** `mapping.items()`: (commit hash, new date text) pairs in dict order. */
  type Mapping = seq<(string, string)>

  /** The keys of a dict given by its items, in order. */
  function Keys<V>(m: seq<(string, V)>): seq<string>
    ensures |Keys(m)| == |m|
    ensures forall k :: 0 <= k < |m| ==> Keys(m)[k] == m[k].0
  {
    if m == [] then [] else [m[0].0] + Keys(m[1..])
  }

  const Shebang: string := "#!/bin/sh"
  const CaseLine: string := "case ${GIT_COMMIT} in"
  const EsacLine: string := "esac"

  /** `"#!/bin/sh\ncase ${GIT_COMMIT} in\n"` and `"esac\n"`. */
  const Header: string := Shebang + "\n" + CaseLine + "\n"
  const Footer: string := EsacLine + "\n"

  const AuthorExport: string := "  export GIT_AUTHOR_DATE=\""
  const CommitterExport: string := "  export GIT_COMMITTER_DATE=\""

  /** The four lines of the branch for one commit, without their newlines. */
  function EntryLines(hash: string, date: string): seq<string>
  {
    [hash + ")", AuthorExport + date + "\"", CommitterExport + date + "\"", "  ;;"]
  }

  /** The text the loop body appends for one entry. */
  function Block(hash: string, date: string): string
  {
    hash + ")\n"
    + AuthorExport + date + "\"\n"
    + CommitterExport + date + "\"\n"
    + "  ;;\n"
  }

  /** The branches for the first entries, as the loop has accumulated them. */
  function Blocks(m: Mapping): string
  {
    if m == [] then "" else Blocks(m[..|m| - 1]) + Block(m[|m| - 1].0, m[|m| - 1].1)
  }

  /** The whole script text. */
  function Script(m: Mapping): string
  {
    Header + Blocks(m) + Footer
  }

  /** The four appends of the loop body add exactly one block. */
  lemma AppendBlock(acc: string, hash: string, date: string)
    ensures acc + hash + ")\n" + AuthorExport + date + "\"\n" + CommitterExport + date + "\"\n" + "  ;;\n"
         == acc + Block(hash, date)
  {
    var b1 := hash + ")\n";
    var b2 := b1 + AuthorExport;
    var b3 := b2 + date;
    var b4 := b3 + "\"\n";
    var b5 := b4 + CommitterExport;
    var b6 := b5 + date;
    var b7 := b6 + "\"\n";
    AppendAssoc(acc, hash, ")\n");
    AppendAssoc(acc, b1, AuthorExport);
    AppendAssoc(acc, b2, date);
    AppendAssoc(acc, b3, "\"\n");
    AppendAssoc(acc, b4, CommitterExport);
    AppendAssoc(acc, b5, date);
    AppendAssoc(acc, b6, "\"\n");
    AppendAssoc(acc, b7, "  ;;\n");
  }

  /** generate_filter_script: the header, one block per entry in mapping order, `esac`. */
  method GenerateFilterScript(mapping: Mapping) returns (filterScript: string)
    ensures filterScript == Script(mapping)
  {
    filterScript := Header;
    var i := 0;
    while i < |mapping|
      invariant 0 <= i <= |mapping|
      invariant filterScript == Header + Blocks(mapping[..i])
    {
      var (commitHash, newDate) := mapping[i];
      assert mapping[..i + 1][..i] == mapping[..i];
      assert Blocks(mapping[..i + 1]) == Blocks(mapping[..i]) + Block(commitHash, newDate);
      ghost var before := filterScript;
      filterScript := filterScript + commitHash + ")\n";
      filterScript := filterScript + AuthorExport + newDate + "\"\n";
      filterScript := filterScript + CommitterExport + newDate + "\"\n";
      filterScript := filterScript + "  ;;\n";
      AppendBlock(before, commitHash, newDate);
      i := i + 1;
    }
    assert mapping[..i] == mapping;
    filterScript := filterScript + Footer;
  }

  /** The lines of the branches, front to back. */
  function BodyLines(m: Mapping): seq<string>
  {
    if m == [] then [] else EntryLines(m[0].0, m[0].1) + BodyLines(m[1..])
  }

  /** The script as its lines (each ends with a newline in the text). */
  function ScriptLines(m: Mapping): seq<string>
  {
    HeaderLines + BodyLines(m) + [EsacLine]
  }

  lemma {:induction false} BodyLinesAppend(a: Mapping, b: Mapping)
    ensures BodyLines(a + b) == BodyLines(a) + BodyLines(b)
  {
    if a == [] {
      assert a + b == b;
    } else {
      assert (a + b)[1..] == a[1..] + b;
      BodyLinesAppend(a[1..], b);
    }
  }

  lemma BlockLines(hash: string, date: string)
    ensures Block(hash, date) == Unlines(EntryLines(hash, date))
  {
    var l := EntryLines(hash, date);
    assert l[4..] == [];
    assert Unlines(l[3..]) == "  ;;" + "\n" + Unlines(l[4..]);
    assert l[3..][1..] == l[4..];
    assert l[2..][1..] == l[3..];
    assert l[1..][1..] == l[2..];
    assert Unlines(l[2..]) == l[2] + "\n" + Unlines(l[3..]);
    assert Unlines(l[1..]) == l[1] + "\n" + Unlines(l[2..]);
  }

  lemma {:induction false} BlocksAreBodyLines(m: Mapping)
    ensures Blocks(m) == Unlines(BodyLines(m))
  {
    if m != [] {
      var p, e := m[..|m| - 1], m[|m| - 1];
      assert m == p + [e];
      BlocksAreBodyLines(p);
      BodyLinesAppend(p, [e]);
      assert [e][1..] == [];
      assert BodyLines([e]) == EntryLines(e.0, e.1);
      assert BodyLines(m) == BodyLines(p) + EntryLines(e.0, e.1);
      UnlinesAppend(BodyLines(p), EntryLines(e.0, e.1));
      BlockLines(e.0, e.1);
      assert Blocks(m) == Blocks(p) + Block(e.0, e.1);
    }
  }

  const HeaderLines: seq<string> := [Shebang, CaseLine]

  /** The header and footer texts are their lines, each followed by a newline. */
  lemma FrameLines()
    ensures Unlines(HeaderLines) == Header && Unlines([EsacLine]) == Footer
  {
    var h := HeaderLines;
    assert h[1..][1..] == [] && [EsacLine][1..] == [];
    assert Unlines(h[1..]) == CaseLine + "\n";
    assert Unlines(h) == Shebang + "\n" + (CaseLine + "\n");
  }

  /** The script text is exactly its lines, each followed by a newline. */
  lemma ScriptIsLines(m: Mapping)
    ensures Script(m) == Unlines(ScriptLines(m))
  {
    var b := BodyLines(m);
    BlocksAreBodyLines(m);
    FrameLines();
    assert ScriptLines(m) == (HeaderLines + b) + [EsacLine];
    UnlinesAppend(HeaderLines + b, [EsacLine]);
    UnlinesAppend(HeaderLines, b);
  }

  /** One `case` branch as a shell reads it: the label and the two exported dates. */
  datatype Branch = Branch(pattern: string, authorDate: string, committerDate: string)

  /** `<label>)`. */
  function ParseLabel(line: string): Option<string>
  {
    if |line| > 0 && line[|line| - 1] == ')' then Some(line[..|line| - 1]) else None
  }

  /** `<prefix><value>"`. */
  function ParseExport(line: string, prefix: string): Option<string>
  {
    if |prefix| < |line| && line[..|prefix|] == prefix && line[|line| - 1] == '"'
    then Some(line[|prefix|..|line| - 1])
    else None
  }

  /** Reads the branches back, up to the closing `esac` line. */
  function ParseBody(lines: seq<string>): Option<seq<Branch>>
    decreases |lines|
  {
    if lines == [EsacLine] then Some([])
    else if |lines| < 4 then None
    else
      var pat := ParseLabel(lines[0]);
      var author := ParseExport(lines[1], AuthorExport);
      var committer := ParseExport(lines[2], CommitterExport);
      if pat.None? || author.None? || committer.None? || lines[3] != "  ;;" then None
      else
        var rest := ParseBody(lines[4..]);
        if rest.None? then None
        else Some([Branch(pat.value, author.value, committer.value)] + rest.value)
  }

  /** Reads a script's text back into its branches. */
  function ParseScript(text: string): Option<seq<Branch>>
  {
    var lines := Lines(text);
    if |lines| >= 2 && lines[0] == Shebang && lines[1] == CaseLine
    then ParseBody(lines[2..])
    else None
  }

  /** The branches a mapping is meant to produce: author date and committer date both
      the mapped date. */
  function Branches(m: Mapping): (r: seq<Branch>)
    ensures |r| == |m|
    ensures forall k :: 0 <= k < |m| ==> r[k] == Branch(m[k].0, m[k].1, m[k].1)
  {
    if m == [] then [] else [Branch(m[0].0, m[0].1, m[0].1)] + Branches(m[1..])
  }

  /** No hash or date text holds a newline (hashes are hex, dates formatted digits). */
  predicate SingleLine(m: Mapping)
  {
    forall k :: 0 <= k < |m| ==> '\n' !in m[k].0 && '\n' !in m[k].1
  }

  lemma {:induction false} ParseBodyLines(m: Mapping)
    ensures ParseBody(BodyLines(m) + [EsacLine]) == Some(Branches(m))
  {
    if m != [] {
      var (h, d) := m[0];
      var lines := BodyLines(m) + [EsacLine];
      assert lines == EntryLines(h, d) + (BodyLines(m[1..]) + [EsacLine]);
      assert lines[4..] == BodyLines(m[1..]) + [EsacLine];
      var a := AuthorExport + d + "\"";
      assert a[..|AuthorExport|] == AuthorExport && a[|AuthorExport|..|a| - 1] == d;
      var c := CommitterExport + d + "\"";
      assert c[..|CommitterExport|] == CommitterExport && c[|CommitterExport|..|c| - 1] == d;
      assert (h + ")")[..|h|] == h;
      ParseBodyLines(m[1..]);
    }
  }

  lemma {:induction false} BodyLinesSingle(m: Mapping)
    requires SingleLine(m)
    ensures NoNewline(BodyLines(m))
  {
    if m != [] {
      BodyLinesSingle(m[1..]);
      var (h, d) := m[0];
      assert '\n' !in h && '\n' !in d;
      var e := EntryLines(h, d);
      assert forall k :: 0 <= k < 4 ==> '\n' !in e[k];
    }
  }

  /** Reading the script back gives one branch per entry, in mapping order, whose label
      is the commit hash and whose author and committer dates are both the new date. */
  lemma ScriptRoundTrip(m: Mapping)
    requires SingleLine(m)
    ensures ParseScript(Script(m)) == Some(Branches(m))
  {
    var text, lines := Script(m), ScriptLines(m);
    ScriptIsLines(m);
    ScriptLinesSingle(m);
    LinesUnlines(lines);
    assert Lines(text) == lines;
    assert lines[0] == Shebang && lines[1] == CaseLine;
    assert lines[2..] == BodyLines(m) + [EsacLine];
    ParseBodyLines(m);
  }

  /** With single-line hashes and dates, no line of the script holds a newline. */
  lemma ScriptLinesSingle(m: Mapping)
    requires SingleLine(m)
    ensures NoNewline(ScriptLines(m))
  {
    var lines, b := ScriptLines(m), BodyLines(m);
    BodyLinesSingle(m);
    assert '\n' !in Shebang && '\n' !in CaseLine && '\n' !in EsacLine;
    forall k | 0 <= k < |lines| ensures '\n' !in lines[k] {
      if 2 <= k < 2 + |b| {
        assert lines[k] == b[k - 2];
      }
    }
  }

  function Labels(bs: seq<Branch>): seq<string>
  {
    if bs == [] then [] else [bs[0].pattern] + Labels(bs[1..])
  }

  /** The script has a branch for exactly the mapping's keys, in mapping order: a commit
      that is not a key matches no label and keeps its dates. */
  lemma {:induction false} LabelsAreKeys(m: Mapping)
    ensures Labels(Branches(m)) == Keys(m)
  {
    if m != [] {
      assert Branches(m)[1..] == Branches(m[1..]);
      LabelsAreKeys(m[1..]);
    }
  }

  /** Author and committer dates agree in every branch. */
  lemma SameDates(m: Mapping, k: int)
    requires 0 <= k < |m|
    ensures Branches(m)[k].authorDate == Branches(m)[k].committerDate == m[k].1
  {
  }
}
