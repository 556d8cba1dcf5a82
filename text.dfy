/** Optional values, for regex matches that may fail and dictionary keys that may be absent. */
module Wrappers {
  datatype Option<+T> = None | Some(value: T)
  {
    function UnwrapOr(default: T): T
    {
      if Some? then value else default
    }
  }
}

/**
 * The string primitives the note parser relies on, as Python defines them on `str`:
 * `lower()`, `strip()`, `split()`, `split(sep)`, `sep.join(...)`, `splitlines()` and
 * the `\w`, `\s` character classes of the `re` module.
 *
 * Word characters are the ASCII ones (letters, digits, underscore); whitespace is
 * the full set Python's `str.isspace()` accepts, which is also what `\s`, `split()`
 * and `strip()` use.
 */
module Text {

  predicate IsUpper(c: char) { 'A' <= c <= 'Z' }
  predicate IsLower(c: char) { 'a' <= c <= 'z' }
  predicate IsLetter(c: char) { IsUpper(c) || IsLower(c) }
  predicate IsDigit(c: char) { '0' <= c <= '9' }

  /** `\w` restricted to ASCII. */
  predicate IsWordChar(c: char) { IsLetter(c) || IsDigit(c) || c == '_' }

  /** Python's whitespace: `str.isspace()`, `\s`, and the separators of `split()`/`strip()`. */
  predicate IsSpace(c: char)
  {
    c == ' ' || c == '\t' || c == '\n' || c == '\r' || c == '\U{0b}' || c == '\U{0c}'
    || ('\U{1c}' <= c <= '\U{1f}') || c == '\U{85}' || c == '\U{a0}' || c == '\U{1680}'
    || ('\U{2000}' <= c <= '\U{200a}') || c == '\U{2028}' || c == '\U{2029}'
    || c == '\U{202f}' || c == '\U{205f}' || c == '\U{3000}'
  }

  /** The line boundaries of `str.splitlines()` (a `\r\n` pair counts as one). */
  predicate IsLineBoundary(c: char)
  {
    c == '\n' || c == '\r' || c == '\U{0b}' || c == '\U{0c}' || ('\U{1c}' <= c <= '\U{1e}')
    || c == '\U{85}' || c == '\U{2028}' || c == '\U{2029}'
  }

  function LowerChar(c: char): (r: char)
    ensures !IsUpper(r)
    ensures IsLetter(r) == IsLetter(c) && IsWordChar(r) == IsWordChar(c) && IsSpace(r) == IsSpace(c)
    ensures IsUpper(c) ==> r as int == c as int + 32
    ensures !IsUpper(c) ==> r == c
  {
    if IsUpper(c) then (c as int + 32) as char else c
  }

  /** `s.lower()`, for the ASCII letters. */
  function Lower(s: string): (r: string)
    ensures |r| == |s|
    ensures forall i :: 0 <= i < |s| ==> r[i] == LowerChar(s[i])
  {
    seq(|s|, i requires 0 <= i < |s| => LowerChar(s[i]))
  }

  lemma LowerHasNoUpper(s: string)
    ensures forall c :: c in Lower(s) ==> !IsUpper(c)
  {
    forall c | c in Lower(s) ensures !IsUpper(c) {
      var i :| 0 <= i < |Lower(s)| && Lower(s)[i] == c;
    }
  }

  /** Length of the longest prefix of `s` whose characters all satisfy `p`. */
  function SpanLen(s: string, p: char -> bool): (n: nat)
    ensures n <= |s|
    ensures forall i :: 0 <= i < n ==> p(s[i])
    ensures n < |s| ==> !p(s[n])
  {
    if s == [] || !p(s[0]) then 0 else 1 + SpanLen(s[1..], p)
  }

  /** The maximal runs of characters satisfying `p`, left to right. */
  function Runs(s: string, p: char -> bool): (r: seq<string>)
    ensures forall i :: 0 <= i < |r| ==> |r[i]| > 0
    ensures forall i, j :: 0 <= i < |r| && 0 <= j < |r[i]| ==> p(r[i][j]) && r[i][j] in s
    decreases |s|
  {
    if s == [] then []
    else if !p(s[0]) then Runs(s[1..], p)
    else
      var n := SpanLen(s, p);
      [s[..n]] + Runs(s[n..], p)
  }

  /** `SpanLen` is pinned down by its properties. */
  lemma {:induction false} SpanLenIs(s: string, p: char -> bool, n: nat)
    requires n <= |s| && forall i :: 0 <= i < n ==> p(s[i])
    requires n < |s| ==> !p(s[n])
    ensures SpanLen(s, p) == n
    decreases |s|
  {
    if n > 0 {
      SpanLenIs(s[1..], p, n - 1);
    }
  }

  /**
   * A character outside the class ends a run: the runs of `a + [c] + b` are the runs of
   * `a` followed by the runs of `b`.
   */
  lemma {:induction false} RunsSplit(a: string, c: char, b: string, p: char -> bool)
    requires !p(c)
    ensures Runs(a + [c] + b, p) == Runs(a, p) + Runs(b, p)
    decreases |a|
  {
    var s := a + [c] + b;
    if a == [] {
      assert s[0] == c && s[1..] == b;
      RunsSkip(s, p);
    } else if !p(a[0]) {
      assert s[0] == a[0] && s[1..] == a[1..] + [c] + b;
      RunsSkip(s, p);
      RunsSkip(a, p);
      RunsSplit(a[1..], c, b, p);
    } else {
      var m := SpanLen(a, p);
      SpanLenIs(s, p, m);
      assert s[0] == a[0] && s[..m] == a[..m];
      assert s[m..] == a[m..] + [c] + b;
      RunsTake(s, p);
      RunsTake(a, p);
      RunsSplit(a[m..], c, b, p);
    }
  }

  lemma RunsSkip(s: string, p: char -> bool)
    requires s != [] && !p(s[0])
    ensures Runs(s, p) == Runs(s[1..], p)
  {
  }

  lemma RunsTake(s: string, p: char -> bool)
    requires s != [] && p(s[0])
    ensures Runs(s, p) == [s[..SpanLen(s, p)]] + Runs(s[SpanLen(s, p)..], p)
  {
  }

  /** `RunsSplit` on a slice of `s`, cut at a character `s[i]` outside the class. */
  lemma RunsCut(s: string, a: nat, i: nat, b: nat, p: char -> bool)
    requires a <= i < b <= |s| && !p(s[i])
    ensures Runs(s[a..b], p) == Runs(s[a..i], p) + Runs(s[i + 1..b], p)
  {
    assert s[a..b] == s[a..i] + [s[i]] + s[i + 1..b];
    RunsSplit(s[a..i], s[i], s[i + 1..b], p);
  }

  /** A non-empty string made only of the class is a single run. */
  lemma RunsWhole(s: string, p: char -> bool)
    requires s != [] && forall i :: 0 <= i < |s| ==> p(s[i])
    ensures Runs(s, p) == [s]
  {
    SpanLenIs(s, p, |s|);
    assert s[..|s|] == s;
    assert Runs(s[|s|..], p) == [];
  }

  /**
   * Non-empty pieces of the class joined by a character outside it split back into the
   * pieces; with `RunsSplit` and `RunsWhole` this determines `Runs` on every string.
   */
  lemma {:induction false} RunsOfJoin(ps: seq<string>, sep: char, p: char -> bool)
    requires !p(sep)
    requires forall i :: 0 <= i < |ps| ==> ps[i] != [] && forall j :: 0 <= j < |ps[i]| ==> p(ps[i][j])
    ensures Runs(JoinWith(ps, sep), p) == ps
  {
    if |ps| == 1 {
      RunsWhole(ps[0], p);
    } else if |ps| > 1 {
      RunsWhole(ps[0], p);
      RunsOfJoin(ps[1..], sep, p);
      RunsSplit(ps[0], sep, JoinWith(ps[1..], sep), p);
      assert ps == [ps[0]] + ps[1..];
    }
  }

  /** `re.findall(r'\w+', s)`: the maximal word-character runs (the `\b`s around them always hold). */
  function WordRuns(s: string): (r: seq<string>)
    ensures forall i, j :: 0 <= i < |r| && 0 <= j < |r[i]| ==> IsWordChar(r[i][j]) && r[i][j] in s
    ensures forall i :: 0 <= i < |r| ==> |r[i]| > 0
  {
    Runs(s, IsWordChar)
  }

  predicate NotSpace(c: char) { !IsSpace(c) }

  /** `s.split()` with no argument: the maximal runs of non-whitespace. */
  function SplitWhitespace(s: string): (r: seq<string>)
    ensures forall i, j :: 0 <= i < |r| && 0 <= j < |r[i]| ==> !IsSpace(r[i][j]) && r[i][j] in s
    ensures forall i :: 0 <= i < |r| ==> |r[i]| > 0
  {
    Runs(s, NotSpace)
  }

  predicate AllSpace(s: string) { forall i :: 0 <= i < |s| ==> IsSpace(s[i]) }

  /** Number of trailing whitespace characters of `s`. */
  function TrailingSpace(s: string): (n: nat)
    ensures n <= |s|
    ensures forall i :: |s| - n <= i < |s| ==> IsSpace(s[i])
    ensures n < |s| ==> !IsSpace(s[|s| - 1 - n])
  {
    if s == [] || !IsSpace(s[|s| - 1]) then 0 else 1 + TrailingSpace(s[..|s| - 1])
  }

  /** Where `s.strip()` starts: the number of leading whitespace characters. */
  function StripStart(s: string): (a: nat)
    ensures a <= |s| && AllSpace(s[..a])
    ensures a < |s| ==> !IsSpace(s[a])
  {
    SpanLen(s, IsSpace)
  }

  /** `s.strip()`: `s` without its leading and trailing whitespace. */
  function Strip(s: string): (r: string)
    ensures StripStart(s) + |r| <= |s|
    ensures r == s[StripStart(s)..StripStart(s) + |r|]
    ensures AllSpace(s[StripStart(s) + |r|..])
    ensures r == [] <==> AllSpace(s)
    ensures r != [] ==> !IsSpace(r[0]) && !IsSpace(r[|r| - 1])
  {
    var a := StripStart(s);
    var t := s[a..];
    var r := t[..|t| - TrailingSpace(t)];
    assert s[a + |r|..] == t[|t| - TrailingSpace(t)..];
    assert r == [] ==> s == s[..a] + s[a..];
    r
  }

  predicate Lacks(s: string, sep: char) { forall i :: 0 <= i < |s| ==> s[i] != sep }

  /** Index of the first `c` in `s`, or `|s|` when there is none. */
  function Find(s: string, c: char): (i: nat)
    ensures i <= |s| && Lacks(s[..i], c)
    ensures i < |s| ==> s[i] == c
  {
    if s == [] then 0 else if s[0] == c then 0 else 1 + Find(s[1..], c)
  }

  lemma {:induction false} FindPast(a: string, b: string, c: char)
    requires Lacks(a, c)
    ensures Find(a + b, c) == |a| + Find(b, c)
  {
    if a != [] {
      assert (a + b)[1..] == a[1..] + b;
      FindPast(a[1..], b, c);
    } else {
      assert a + b == b;
    }
  }

  /** `s.split(sep)` for a one-character separator: the pieces between the separators. */
  function SplitOn(s: string, sep: char): (r: seq<string>)
    ensures |r| >= 1
    ensures forall i :: 0 <= i < |r| ==> Lacks(r[i], sep)
    decreases |s|
  {
    var i := Find(s, sep);
    if i == |s| then [s] else [s[..i]] + SplitOn(s[i + 1..], sep)
  }

  /** `sep.join(ps)`. */
  function JoinWith(ps: seq<string>, sep: char): (r: string)
    ensures ps != [] ==> |r| >= |ps| - 1
  {
    if ps == [] then ""
    else if |ps| == 1 then ps[0]
    else ps[0] + [sep] + JoinWith(ps[1..], sep)
  }

  /** Joining the pieces of a split gives the string back. */
  lemma {:induction false} JoinSplit(s: string, sep: char)
    ensures JoinWith(SplitOn(s, sep), sep) == s
    decreases |s|
  {
    var i := Find(s, sep);
    if i < |s| {
      var ps := SplitOn(s, sep);
      var rest := SplitOn(s[i + 1..], sep);
      assert ps == [s[..i]] + rest;
      assert ps[1..] == rest;
      JoinSplit(s[i + 1..], sep);
      assert JoinWith(ps, sep) == s[..i] + [sep] + s[i + 1..];
      assert s == s[..i] + [sep] + s[i + 1..];
    }
  }

  /** Splitting a join of separator-free pieces gives the pieces back. */
  lemma {:induction false} SplitJoin(ps: seq<string>, sep: char)
    requires |ps| >= 1
    requires forall i :: 0 <= i < |ps| ==> Lacks(ps[i], sep)
    ensures SplitOn(JoinWith(ps, sep), sep) == ps
  {
    var s := JoinWith(ps, sep);
    if |ps| == 1 {
      assert s == ps[0] + [];
      FindPast(ps[0], [], sep);
    } else {
      var rest, k := JoinWith(ps[1..], sep), |ps[0]|;
      assert s == ps[0] + ([sep] + rest);
      FindPast(ps[0], [sep] + rest, sep);
      assert Find(s, sep) == k;
      assert s[k + 1..] == rest && s[..k] == ps[0];
      SplitJoin(ps[1..], sep);
      assert SplitOn(s, sep) == [ps[0]] + SplitOn(rest, sep);
      assert ps == [ps[0]] + ps[1..];
    }
  }

  /**
   * `s.splitlines()`: the lines of `s` without their line boundaries; a final
   * boundary does not open an extra empty line and the empty string has no lines.
   */
  predicate NotLineBoundary(c: char) { !IsLineBoundary(c) }

  function Lines(s: string): (r: seq<string>)
    ensures |r| <= |s|
    decreases |s|
  {
    if s == [] then []
    else
      var i := SpanLen(s, NotLineBoundary);
      if i == |s| then [s]
      else
        var skip := if s[i] == '\r' && i + 1 < |s| && s[i + 1] == '\n' then 2 else 1;
        [s[..i]] + Lines(s[i + skip..])
  }

  /**
   * A line boundary ends a line: the lines of `a`, the boundary `c` and the rest are `a`
   * followed by the lines of the rest, where a `\r` directly followed by `\n` is one
   * boundary.
   */
  lemma LinesStep(a: string, c: char, b: string)
    requires forall i :: 0 <= i < |a| ==> !IsLineBoundary(a[i])
    requires IsLineBoundary(c)
    ensures Lines(a + [c] + b) == [a] + Lines(if c == '\r' && b != [] && b[0] == '\n' then b[1..] else b)
  {
    var s := a + [c] + b;
    SpanLenIs(s, NotLineBoundary, |a|);
    assert s[..|a|] == a;
    if c == '\r' && b != [] && b[0] == '\n' {
      assert s[|a| + 2..] == b[1..];
    } else {
      assert s[|a| + 1..] == b;
    }
  }

  /** A last line without a boundary after it is one line. */
  lemma LinesLast(a: string)
    requires a != [] && forall i :: 0 <= i < |a| ==> !IsLineBoundary(a[i])
    ensures Lines(a) == [a]
  {
    SpanLenIs(a, NotLineBoundary, |a|);
  }

  /** Position of the next `\n` at or after `q` (or the end): where the regex `.+` stops. */
  function LineEnd(s: string, q: nat): (e: nat)
    requires q <= |s|
    ensures q <= e <= |s|
    ensures forall i :: q <= i < e ==> s[i] != '\n'
    ensures e < |s| ==> s[e] == '\n'
  {
    q + Find(s[q..], '\n')
  }

  /** A prefix already known to satisfy `p` can be skipped when measuring the span. */
  lemma {:induction false} SpanLenSkip(s: string, p: char -> bool, i: nat)
    requires i <= |s|
    requires forall j :: 0 <= j < i ==> p(s[j])
    ensures SpanLen(s, p) == i + SpanLen(s[i..], p)
  {
    if i > 0 {
      assert s[1..][i - 1..] == s[i..];
      SpanLenSkip(s[1..], p, i - 1);
    }
  }

  /** Stripping ignores any whitespace prefix. */
  lemma StripSkipsSpace(t: string, i: nat)
    requires i <= |t| && AllSpace(t[..i])
    ensures Strip(t) == Strip(t[i..])
  {
    SpanLenSkip(t, IsSpace, i);
    var a, u := StripStart(t), t[i..];
    assert StripStart(u) == a - i;
    assert u[a - i..] == t[a..];
  }

  /** `Find` is pinned down by its two properties. */
  lemma {:induction false} FindIs(s: string, c: char, i: nat)
    requires i <= |s| && Lacks(s[..i], c)
    requires i < |s| ==> s[i] == c
    ensures Find(s, c) == i
    decreases |s|
  {
    if s != [] && i > 0 {
      assert s[1..][..i - 1] == s[..i][1..];
      assert s[0] == s[..i][0];
      FindIs(s[1..], c, i - 1);
    }
  }

  /** The line end is the first newline at or after `q`, or the end of `s`. */
  lemma LineEndIs(s: string, q: nat, e: nat)
    requires q <= e <= |s|
    requires forall i :: q <= i < e ==> s[i] != '\n'
    requires e < |s| ==> s[e] == '\n'
    ensures LineEnd(s, q) == e
  {
    var t := s[q..];
    FindIs(t, '\n', e - q);
  }

  /** Every position inside a line has the same line end. */
  lemma LineEndWithin(s: string, a: nat, b: nat)
    requires a <= |s| && a <= b <= LineEnd(s, a)
    ensures LineEnd(s, b) == LineEnd(s, a)
  {
    var e := LineEnd(s, a);
    var t := s[b..];
    var u := t[..e - b];
    forall j | 0 <= j < |u| ensures u[j] != '\n' {
      assert u[j] == s[b + j];
    }
    FindIs(t, '\n', e - b);
  }
}
