/** The few Python `str` operations the answering flow relies on:
    `str.strip()`, `str.startswith(p)` and `"\n".join(lines)`. Joining is
    characterised line by line (`JoinAppend`); `str.split("\n")` undoes it
    for lines that hold no newline themselves. */
module Strings {

  /** Python's `str.isspace()` for a single character: the ASCII
      separators and control whitespace, the information separators
      0x1C-0x1F, and the Unicode space and line/paragraph separators. */
  predicate IsSpace(c: char)
  {
    var n := c as int;
    n == 0x20 || 0x09 <= n <= 0x0D || 0x1C <= n <= 0x1F || n == 0x85 || n == 0xA0 ||
    n == 0x1680 || 0x2000 <= n <= 0x200A || n == 0x2028 || n == 0x2029 ||
    n == 0x202F || n == 0x205F || n == 0x3000
  }

  predicate AllSpace(s: string)
  {
    forall i :: 0 <= i < |s| ==> IsSpace(s[i])
  }

  /** `s.startswith(p)` */
  predicate StartsWith(s: string, p: string)
  {
    p <= s
  }

  /** `s.endswith(p)` */
  predicate EndsWith(s: string, p: string)
  {
    |p| <= |s| && s[|s| - |p|..] == p
  }

  /** `p` occurs somewhere in `s` (Python's `p in s`). */
  ghost predicate IsInfix(p: string, s: string)
  {
    exists k :: 0 <= k <= |s| && StartsWith(s[k..], p)
  }

  lemma InfixOfConcat(a: string, p: string, b: string)
    ensures IsInfix(p, a + p + b)
  {
    var s := a + p + b;
    assert s[|a|..][..|p|] == p;
    assert StartsWith(s[|a|..], p);
  }

  lemma InfixPrepend(p: string, a: string, x: string)
    requires IsInfix(p, x)
    ensures IsInfix(p, a + x)
  {
    var k :| 0 <= k <= |x| && StartsWith(x[k..], p);
    assert (a + x)[|a| + k..] == x[k..];
  }

  lemma InfixAppend(p: string, x: string, b: string)
    requires IsInfix(p, x)
    ensures IsInfix(p, x + b)
  {
    var k :| 0 <= k <= |x| && StartsWith(x[k..], p);
    assert (x + b)[k..] == x[k..] + b;
  }

  /** `s.lstrip()`: drops the longest all-space prefix. */
  function TrimStart(s: string): (r: string)
    ensures |r| <= |s| && r == s[|s| - |r|..]
    ensures AllSpace(s[..|s| - |r|])
    ensures r == [] || !IsSpace(r[0])
  {
    if |s| > 0 && IsSpace(s[0]) then
      var r := TrimStart(s[1..]);
      assert s[..|s| - |r|] == [s[0]] + s[1..][..|s[1..]| - |r|];
      r
    else s
  }

  /** `s.rstrip()`: drops the longest all-space suffix. */
  function TrimEnd(s: string): (r: string)
    ensures |r| <= |s| && r == s[..|r|]
    ensures AllSpace(s[|r|..])
    ensures r == [] || !IsSpace(r[|r| - 1])
  {
    if |s| > 0 && IsSpace(s[|s| - 1]) then
      var r := TrimEnd(s[..|s| - 1]);
      assert s[|r|..] == s[..|s| - 1][|r|..] + [s[|s| - 1]];
      r
    else s
  }

  /** `s.strip()`: the result is a contiguous piece of `s`, everything cut
      away on either side is whitespace, and the result neither begins nor
      ends with whitespace. */
  function Strip(s: string): (r: string)
    ensures |r| <= |s|
    ensures exists i :: 0 <= i <= |s| - |r| && r == s[i..i + |r|] && AllSpace(s[..i]) && AllSpace(s[i + |r|..])
    ensures r == [] || (!IsSpace(r[0]) && !IsSpace(r[|r| - 1]))
  {
    var t := TrimStart(s);
    var r := TrimEnd(t);
    var i := |s| - |t|;
    assert r == s[i..i + |r|] by {
      assert t == s[i..];
    }
    assert AllSpace(s[i + |r|..]) by {
      assert s[i + |r|..] == t[|r|..];
    }
    r
  }

  lemma TrimStartOfUntrimmed(s: string)
    requires s == [] || !IsSpace(s[0])
    ensures TrimStart(s) == s
  {
  }

  lemma TrimEndOfUntrimmed(s: string)
    requires s == [] || !IsSpace(s[|s| - 1])
    ensures TrimEnd(s) == s
  {
  }

  /** Stripping twice is stripping once. */
  lemma StripIdempotent(s: string)
    ensures Strip(Strip(s)) == Strip(s)
  {
    var r := Strip(s);
    TrimStartOfUntrimmed(r);
    TrimEndOfUntrimmed(r);
  }

  /** `"\n".join(lines)`: the first line opens the text and the last one
      closes it. `JoinAppend` gives the rest for every list of lines. A line
      that itself holds a newline is not told apart from two lines, so
      `SplitJoin` recovers the lines only when none holds a newline. */
  function Join(lines: seq<string>): (r: string)
    ensures |lines| == 0 ==> r == ""
    ensures |lines| > 0 ==> StartsWith(r, lines[0]) && EndsWith(r, lines[|lines| - 1])
  {
    if |lines| == 0 then ""
    else if |lines| == 1 then lines[0]
    else lines[0] + "\n" + Join(lines[1..])
  }

  /** Appending a line to the list appends a newline and that line to the
      joined text: the join keeps every line, in order. */
  lemma {:induction false} JoinAppend(lines: seq<string>, x: string)
    requires |lines| > 0
    ensures Join(lines + [x]) == Join(lines) + "\n" + x
  {
    if |lines| == 1 {
      assert (lines + [x])[1..] == [x];
    } else {
      JoinAppend(lines[1..], x);
      assert (lines + [x])[1..] == lines[1..] + [x];
    }
  }

  /** `s.split("\n")`: always at least one piece, and no piece holds a newline. */
  function Split(s: string): (r: seq<string>)
    ensures |r| >= 1
    ensures forall k :: 0 <= k < |r| ==> '\n' !in r[k]
  {
    if s == [] then [""]
    else if s[0] == '\n' then [""] + Split(s[1..])
    else
      var t := Split(s[1..]);
      [[s[0]] + t[0]] + t[1..]
  }

  /** Joining the pieces of a split gives back the text. */
  lemma {:induction false} JoinSplit(s: string)
    ensures Join(Split(s)) == s
  {
    if s == [] {
    } else if s[0] == '\n' {
      var t := Split(s[1..]);
      JoinSplit(s[1..]);
      assert Split(s) == [""] + t;
      assert ([""] + t)[1..] == t;
    } else {
      var t := Split(s[1..]);
      JoinSplit(s[1..]);
      var u := [[s[0]] + t[0]] + t[1..];
      assert Split(s) == u;
      if |t| == 1 {
        assert Join(u) == [s[0]] + t[0] == [s[0]] + s[1..];
      } else {
        assert u[1..] == t[1..];
        assert Join(u) == [s[0]] + t[0] + "\n" + Join(t[1..]);
        assert Join(t) == t[0] + "\n" + Join(t[1..]);
      }
      assert s == [s[0]] + s[1..];
    }
  }

  /** Splitting text that starts with a newline-free piece `d` glues `d`
      onto the first piece of the rest. */
  lemma {:induction false} SplitAfterPlainPrefix(d: string, s: string)
    requires '\n' !in d
    ensures Split(d + s) == [d + Split(s)[0]] + Split(s)[1..]
  {
    if d == [] {
      var t := Split(s);
      assert d + s == s;
      assert d + t[0] == t[0];
      assert [t[0]] + t[1..] == t;
    } else {
      var rest := d[1..];
      SplitAfterPlainPrefix(rest, s);
      assert (d + s)[0] == d[0];
      assert (d + s)[1..] == rest + s;
      assert [d[0]] + (rest + Split(s)[0]) == d + Split(s)[0];
    }
  }

  /** Splitting the join of newline-free lines gives back the lines, in
      order: the join loses neither a line nor their order. */
  lemma {:induction false} SplitJoin(lines: seq<string>)
    requires |lines| >= 1
    requires forall k :: 0 <= k < |lines| ==> '\n' !in lines[k]
    ensures Split(Join(lines)) == lines
  {
    var d := lines[0];
    if |lines| == 1 {
      SplitAfterPlainPrefix(d, "");
      assert d + "" == d;
    } else {
      var rest := lines[1..];
      SplitJoin(rest);
      assert Join(lines) == d + ("\n" + Join(rest));
      SplitAfterPlainPrefix(d, "\n" + Join(rest));
      assert ("\n" + Join(rest))[0] == '\n';
      assert ("\n" + Join(rest))[1..] == Join(rest);
      assert Split("\n" + Join(rest)) == [""] + rest;
      assert d + "" == d;
      assert lines == [d] + rest;
    }
  }
}
