/**
 * The handful of Python string operations the program relies on: `str.strip()`,
 * `str.split(sep, maxsplit)`, the `in` substring test, decimal formatting of
 * integers in f-strings, and newline-terminated lines.
 */
module Text {

  /** The characters for which Python's `str.isspace()` holds; `str.strip()` with no
      argument removes exactly these from both ends. */
  predicate IsSpace(c: char)
  {
    c == ' ' || ('\t' <= c <= '\r') || ('\U{1c}' <= c <= '\U{1f}')
    || c == '\U{85}' || c == '\U{a0}' || c == '\U{1680}'
    || ('\U{2000}' <= c <= '\U{200a}') || c == '\U{2028}' || c == '\U{2029}'
    || c == '\U{202f}' || c == '\U{205f}' || c == '\U{3000}'
  }

  predicate AllSpace(s: string)
  {
    forall k :: 0 <= k < |s| ==> IsSpace(s[k])
  }

  /** Concatenation regroups: the step that turns appends made one after another into
      one append of their concatenation. */
  lemma AppendAssoc<T>(a: seq<T>, b: seq<T>, c: seq<T>)
    ensures a + (b + c) == (a + b) + c
  {
  }

  /** `s.lstrip()`: drops the leading whitespace, keeps the rest. */
  function TrimStart(s: string): (r: string)
    ensures |r| <= |s| && r == s[|s| - |r|..]
    ensures AllSpace(s[..|s| - |r|])
    ensures r == [] || !IsSpace(r[0])
  {
    if s != [] && IsSpace(s[0]) then
      var p := s[1..];
      var r := TrimStart(p);
      assert s[..|s| - |r|] == [s[0]] + p[..|p| - |r|];
      r
    else s
  }

  /** `s.rstrip()`: drops the trailing whitespace, keeps the rest. */
  function TrimEnd(s: string): (r: string)
    ensures |r| <= |s| && r == s[..|r|]
    ensures AllSpace(s[|r|..])
    ensures r == [] || !IsSpace(r[|r| - 1])
  {
    if s != [] && IsSpace(s[|s| - 1]) then
      var p := s[..|s| - 1];
      var r := TrimEnd(p);
      assert s[|r|..] == p[|r|..] + [s[|s| - 1]];
      r
    else s
  }

  /** Where the stripped text begins inside `s`. */
  function StripOffset(s: string): nat
  {
    |s| - |TrimStart(s)|
  }

  /** `s.strip()`: the text between the leading and the trailing whitespace. It is empty
      exactly when `s` is blank and neither starts nor ends with whitespace; StripSlice
      says where it sits in `s`. */
  function Strip(s: string): (r: string)
    ensures r == [] <==> AllSpace(s)
    ensures r == [] || (!IsSpace(r[0]) && !IsSpace(r[|r| - 1]))
  {
    var t := TrimStart(s);
    var r := TrimEnd(t);
    assert r == [] ==> AllSpace(t);
    assert r == [] ==> s == s[..|s| - |t|] + t;
    r
  }

  /** The stripped text is the slice of `s` at StripOffset(s), with only whitespace
      around it. */
  lemma StripSlice(s: string)
    ensures StripOffset(s) + |Strip(s)| <= |s|
    ensures Strip(s) == s[StripOffset(s)..StripOffset(s) + |Strip(s)|]
    ensures AllSpace(s[..StripOffset(s)]) && AllSpace(s[StripOffset(s) + |Strip(s)|..])
  {
    var t := TrimStart(s);
    var r := TrimEnd(t);
    var o := |s| - |t|;
    assert Strip(s) == r && StripOffset(s) == o;
    SliceOfSuffix(s, o, |r|);
    assert AllSpace(s[..o]);
    assert AllSpace(t[|r|..]);
  }

  /** Slicing a suffix of `s` is slicing `s` itself. */
  lemma SliceOfSuffix<T>(s: seq<T>, o: nat, n: nat)
    requires o + n <= |s|
    ensures s[o..][..n] == s[o..o + n] && s[o..][n..] == s[o + n..]
  {
  }

  lemma StripIdempotent(s: string)
    ensures Strip(Strip(s)) == Strip(s)
  {
    var r := Strip(s);
    assert TrimStart(r) == r;
    assert TrimEnd(r) == r;
  }

  /** Index of the first `c` in `s`, or |s| when there is none (`str.find`, with |s| for -1). */
  function IndexOf(s: string, c: char): (i: nat)
    ensures i <= |s|
    ensures i < |s| ==> s[i] == c
    ensures forall k :: 0 <= k < i ==> s[k] != c
  {
    if s == [] then 0 else if s[0] == c then 0 else 1 + IndexOf(s[1..], c)
  }

  lemma IndexOfSeparator(a: string, c: char, b: string)
    requires c !in a
    ensures IndexOf(a + [c] + b, c) == |a|
  {
    var s := a + [c] + b;
    var i := IndexOf(s, c);
    assert s[|a|] == c;
    assert forall k :: 0 <= k < |a| ==> s[k] == a[k];
  }

  /** Number of occurrences of `c` in `s`. */
  function Count(s: string, c: char): nat
  {
    if s == [] then 0 else (if s[0] == c then 1 else 0) + Count(s[1..], c)
  }

  lemma {:induction false} CountAppend(a: string, b: string, c: char)
    ensures Count(a + b, c) == Count(a, c) + Count(b, c)
  {
    if a != [] {
      assert (a + b)[1..] == a[1..] + b;
      CountAppend(a[1..], b, c);
    } else {
      assert a + b == b;
    }
  }

  lemma {:induction false} CountAbsent(s: string, c: char)
    requires c !in s
    ensures Count(s, c) == 0
  {
    if s != [] {
      CountAbsent(s[1..], c);
    }
  }

  /** `parts[0] + sep + parts[1] + ... + sep + parts[|parts|-1]` (Python's `sep.join`). */
  function Join(parts: seq<string>, sep: char): string
  {
    if parts == [] then ""
    else if |parts| == 1 then parts[0]
    else parts[0] + [sep] + Join(parts[1..], sep)
  }

  function Min(a: int, b: int): int
  {
    if a <= b then a else b
  }

  /** Python's `s.split(sep, n)` for a one-character separator: cuts `s` at its first
      `n` separators. There are min(n, Count(s, sep)) + 1 parts, joining them back gives
      `s`, no part but possibly the last holds a separator, and the last holds none when
      fewer than n + 1 parts came out. */
  function SplitN(s: string, sep: char, n: nat): (parts: seq<string>)
    ensures |parts| == Min(n, Count(s, sep)) + 1
    ensures Join(parts, sep) == s
    ensures forall k :: 0 <= k < |parts| - 1 ==> sep !in parts[k]
    ensures |parts| <= n ==> sep !in parts[|parts| - 1]
    decreases n
  {
    var i := IndexOf(s, sep);
    if n == 0 then [s]
    else if i == |s| then
      CountAbsent(s, sep);
      [s]
    else
      var head, tail := s[..i], s[i + 1..];
      assert s == head + [sep] + tail;
      assert sep !in head;
      CountAppend(head + [sep], tail, sep);
      CountAppend(head, [sep], sep);
      CountAbsent(head, sep);
      var rest := SplitN(tail, sep, n - 1);
      assert ([head] + rest)[1..] == rest;
      [head] + rest
  }

  /** Python's `pattern in s` for strings. */
  predicate StartsWith(s: string, prefix: string)
  {
    |prefix| <= |s| && s[..|prefix|] == prefix
  }

  predicate Contains(s: string, pattern: string)
    decreases |s|
  {
    StartsWith(s, pattern) || (s != [] && Contains(s[1..], pattern))
  }

  lemma {:induction false} ContainsAfterPrefix(a: string, s: string, pattern: string)
    requires Contains(s, pattern)
    ensures Contains(a + s, pattern)
  {
    if a != [] {
      ContainsAfterPrefix(a[1..], s, pattern);
      assert (a + s)[1..] == a[1..] + s;
    } else {
      assert a + s == s;
    }
  }

  function DigitChar(d: int): (c: char)
    requires 0 <= d < 10
    ensures '0' <= c <= '9' && c as int - '0' as int == d
  {
    ('0' as int + d) as char
  }

  predicate AllDigits(s: string)
  {
    forall k :: 0 <= k < |s| ==> '0' <= s[k] <= '9'
  }

  /** The decimal text of `n`, as an f-string prints it. */
  function NatToString(n: nat): (s: string)
    ensures |s| > 0 && AllDigits(s)
  {
    if n < 10 then [DigitChar(n)] else NatToString(n / 10) + [DigitChar(n % 10)]
  }

  /** The decimal text of `i`, with a leading '-' when negative. */
  function IntToString(i: int): (s: string)
    ensures |s| > 0
    ensures i >= 0 ==> AllDigits(s)
    ensures i < 0 ==> s[0] == '-' && AllDigits(s[1..])
  {
    if i < 0 then "-" + NatToString(-i) else NatToString(i)
  }

  /** Reads a decimal text back (the inverse used to show the formatting loses nothing). */
  function ParseNat(s: string): nat
    requires AllDigits(s)
  {
    if s == [] then 0 else ParseNat(s[..|s| - 1]) * 10 + (s[|s| - 1] as int - '0' as int)
  }

  lemma {:induction false} NatToStringRoundTrip(n: nat)
    ensures ParseNat(NatToString(n)) == n
  {
    if n >= 10 {
      var s := NatToString(n);
      assert s[..|s| - 1] == NatToString(n / 10);
      NatToStringRoundTrip(n / 10);
    }
  }

  /** Each string followed by a newline, concatenated. */
  function Unlines(lines: seq<string>): string
  {
    if lines == [] then "" else lines[0] + "\n" + Unlines(lines[1..])
  }

  lemma {:induction false} UnlinesAppend(a: seq<string>, b: seq<string>)
    ensures Unlines(a + b) == Unlines(a) + Unlines(b)
  {
    if a != [] {
      assert (a + b)[1..] == a[1..] + b;
      UnlinesAppend(a[1..], b);
    } else {
      assert a + b == b;
    }
  }

  /** Cuts newline-terminated text into its lines (the last line may lack the newline). */
  function Lines(s: string): seq<string>
    decreases |s|
  {
    if s == [] then []
    else
      var i := IndexOf(s, '\n');
      if i == |s| then [s] else [s[..i]] + Lines(s[i + 1..])
  }

  predicate NoNewline(lines: seq<string>)
  {
    forall k :: 0 <= k < |lines| ==> '\n' !in lines[k]
  }

  /** Lines undoes Unlines when no line holds a newline. */
  lemma {:induction false} LinesUnlines(lines: seq<string>)
    requires NoNewline(lines)
    ensures Lines(Unlines(lines)) == lines
  {
    if lines != [] {
      var l, rest := lines[0], Unlines(lines[1..]);
      var s := l + "\n" + rest;
      assert '\n' !in l;
      IndexOfSeparator(l, '\n', rest);
      assert s[..|l|] == l;
      assert s[|l| + 1..] == rest;
      LinesUnlines(lines[1..]);
    }
  }
}
