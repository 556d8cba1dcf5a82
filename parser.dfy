/**
 * `NoteParser`: format detection by file extension and the extraction of headers,
 * hashtags and todos from a note's text.
 *
 * Each `re.findall` becomes a scanner that tries the pattern at a position and, on a
 * match, resumes where the match ended, as `findall` does. The greedy quantifiers and
 * their backtracking are worked out once, in `RestStart`.
 */
module Parser {
  import opened Wrappers
  import opened Text

  // ---------------------------------------------------------------- format

  datatype Format = Markdown | PlainText

  /** `_detect_format(extension)`. */
  function DetectFormat(extension: string): (r: Format)
    ensures r == Markdown ==> |extension| == 3 || |extension| == 9
  {
    var e := Lower(extension);
    if e == ".md" || e == ".markdown" then Markdown else PlainText
  }

  /**
   * Markdown exactly for `.md` and `.markdown`, whatever the case of their letters,
   * and plain text for every other extension.
   */
  lemma {:induction false} DetectFormatSpec(extension: string)
    ensures DetectFormat(extension) == Markdown <==>
              (|extension| == 3 && forall i :: 0 <= i < 3 ==> LowerChar(extension[i]) == ".md"[i])
              || (|extension| == 9 && forall i :: 0 <= i < 9 ==> LowerChar(extension[i]) == ".markdown"[i])
  {
    var e := Lower(extension);
    if |extension| == 3 && forall i :: 0 <= i < 3 ==> LowerChar(extension[i]) == ".md"[i] {
      assert e == ".md";
    }
    if |extension| == 9 && forall i :: 0 <= i < 9 ==> LowerChar(extension[i]) == ".markdown"[i] {
      assert e == ".markdown";
    }
  }

  lemma DetectFormatExamples()
    ensures DetectFormat(".md") == Markdown && DetectFormat(".MD") == Markdown
    ensures DetectFormat(".Markdown") == Markdown
    ensures DetectFormat(".txt") == PlainText && DetectFormat("") == PlainText
    ensures DetectFormat(".mdx") == PlainText
  {
    assert Lower(".MD") == ".md";
    assert Lower(".Markdown") == ".markdown";
    assert Lower(".txt") == ".txt";
    assert Lower(".mdx") == ".mdx";
  }

  // ---------------------------------------------------------------- backtracking after \s

  /** End of the whitespace run that starts at `c`. */
  function SpaceEnd(s: string, c: nat): (b: nat)
    requires c <= |s|
    ensures c <= b <= |s|
    ensures forall k :: c <= k < b ==> IsSpace(s[k])
    ensures b < |s| ==> !IsSpace(s[b])
    decreases |s| - c
  {
    if c < |s| && IsSpace(s[c]) then SpaceEnd(s, c + 1) else c
  }

  /** The last position in `[lo, hi)` that does not hold a newline. */
  function LastNonNewline(s: string, lo: nat, hi: nat): (r: Option<nat>)
    requires lo <= hi <= |s|
    ensures r.Some? ==> lo <= r.value < hi && s[r.value] != '\n'
    ensures r.Some? ==> forall k :: r.value < k < hi ==> s[k] == '\n'
    ensures r.None? ==> forall k :: lo <= k < hi ==> s[k] == '\n'
    decreases hi - lo
  {
    if hi == lo then None
    else if s[hi - 1] != '\n' then Some(hi - 1)
    else LastNonNewline(s, lo, hi - 1)
  }

  /**
   * A place where `.+` can begin after a `\s*` begun at `c`: inside or just past the
   * whitespace run, before the end of the text, on a character other than a newline.
   */
  predicate RestCandidate(s: string, c: nat, q: nat)
    requires c <= |s|
  {
    c <= q <= SpaceEnd(s, c) && q < |s| && s[q] != '\n'
  }

  /**
   * Where `\s*(.+)` puts the start of `.+` when `\s*` begins at `c`: the greedy `\s*`
   * gives back characters until `.+` can match, so this is the largest candidate, and
   * there is none when everything from `c` on is newlines.
   */
  function RestStart(s: string, c: nat): (r: Option<nat>)
    requires c <= |s|
    ensures r.Some? ==> RestCandidate(s, c, r.value)
    ensures r.Some? ==> forall k: nat :: RestCandidate(s, c, k) ==> k <= r.value
    ensures r.None? ==> forall k: nat :: !RestCandidate(s, c, k)
  {
    var b := SpaceEnd(s, c);
    if b < |s| then
      assert !IsSpace(s[b]);
      Some(b)
    else
      LastNonNewline(s, c, b)
  }

  // ---------------------------------------------------------------- headers

  predicate IsHash(c: char) { c == '#' }

  predicate LineStart(s: string, p: nat) { p == 0 || (p <= |s| && s[p - 1] == '\n') }

  /** Number of `#` characters starting at `p`. */
  function HashCount(s: string, p: nat): (h: nat)
    requires p <= |s|
    ensures p + h <= |s|
    ensures forall k :: p <= k < p + h ==> s[k] == '#'
    ensures p + h < |s| ==> s[p + h] != '#'
  {
    SpanLen(s[p..], IsHash)
  }

  /** One match of `^(#{1,6})\s+(.+)$`: the hashes start at `start`, the title is `[titleStart, titleEnd)`. */
  datatype HeaderMatch = HeaderMatch(level: nat, start: nat, titleStart: nat, titleEnd: nat)

  /**
   * The shape of a header match: one to six `#`, then at least one whitespace character
   * (possibly line ends), then a title that runs to the end of its line.
   */
  predicate WellFormed(s: string, m: HeaderMatch)
  {
    && 1 <= m.level <= 6
    && m.start + m.level < m.titleStart < m.titleEnd <= |s|
    && (forall k :: m.start <= k < m.start + m.level ==> s[k] == '#')
    && (forall k :: m.start + m.level <= k < m.titleStart ==> IsSpace(s[k]))
    && s[m.titleStart] != '\n'
    && m.titleEnd == LineEnd(s, m.titleStart)
  }

  /**
   * The header pattern tried at `p` (the `^` anchor is checked by the caller). `#{1,6}`
   * must take every `#` there, since a `#` cannot start `\s+`; so seven or more fail.
   */
  function HeaderAt(s: string, p: nat): (r: Option<HeaderMatch>)
    requires p <= |s|
    ensures r.Some? ==> r.value.start == p && WellFormed(s, r.value)
    ensures r.Some? ==> r.value.level == HashCount(s, p)
  {
    var h := HashCount(s, p);
    if h < 1 || h > 6 || p + h == |s| || !IsSpace(s[p + h]) then None
    else
      match RestStart(s, p + h + 1)
      case None => None
      case Some(q) => Some(HeaderMatch(h, p, q, LineEnd(s, q)))
  }

  /** `re.findall(r'^(#{1,6})\s+(.+)$', s[p..], re.MULTILINE)`, as matches in `s`. */
  function HeaderScan(s: string, p: nat): seq<HeaderMatch>
    requires p <= |s|
    decreases |s| - p
  {
    if p == |s| then []
    else if LineStart(s, p) && HeaderAt(s, p).Some? then
      var m := HeaderAt(s, p).value;
      [m] + HeaderScan(s, m.titleEnd)
    else
      HeaderScan(s, p + 1)
  }

  /** A header match found by the scan. */
  predicate FoundHeader(s: string, m: HeaderMatch)
  {
    LineStart(s, m.start) && WellFormed(s, m) && m.level == HashCount(s, m.start)
  }

  /**
   * Every match of the scan is a well-formed header match anchored at a line start,
   * whose level counts all the `#` there (so a run of seven or more never gives one).
   */
  lemma {:induction false} HeaderScanSound(s: string, p: nat)
    requires p <= |s|
    ensures forall i :: 0 <= i < |HeaderScan(s, p)| ==> FoundHeader(s, HeaderScan(s, p)[i])
    decreases |s| - p
  {
    if p < |s| && LineStart(s, p) && HeaderAt(s, p).Some? {
      var m := HeaderAt(s, p).value;
      HeaderScanSound(s, m.titleEnd);
      HeaderAtFound(s, p);
      ConsFound(s, m, HeaderScan(s, m.titleEnd));
    } else if p < |s| {
      HeaderScanSound(s, p + 1);
    }
  }

  lemma ConsFound(s: string, m: HeaderMatch, rest: seq<HeaderMatch>)
    requires FoundHeader(s, m) && forall i :: 0 <= i < |rest| ==> FoundHeader(s, rest[i])
    ensures forall i :: 0 <= i < |[m] + rest| ==> FoundHeader(s, ([m] + rest)[i])
  {
  }

  lemma HeaderAtFound(s: string, p: nat)
    requires p <= |s| && LineStart(s, p) && HeaderAt(s, p).Some?
    ensures FoundHeader(s, HeaderAt(s, p).value)
  {
  }

  /** The matches of the scan come in order and do not overlap. */
  lemma {:induction false} HeaderScanOrdered(s: string, p: nat)
    requires p <= |s|
    ensures forall i :: 0 <= i < |HeaderScan(s, p)| ==> p <= HeaderScan(s, p)[i].start
    ensures forall i, j :: 0 <= i < j < |HeaderScan(s, p)| ==> HeaderScan(s, p)[i].titleEnd <= HeaderScan(s, p)[j].start
    decreases |s| - p
  {
    var r := HeaderScan(s, p);
    if p == |s| {
    } else if LineStart(s, p) && HeaderAt(s, p).Some? {
      var m := HeaderAt(s, p).value;
      var rest := HeaderScan(s, m.titleEnd);
      HeaderScanOrdered(s, m.titleEnd);
      assert r == [m] + rest;
      assert m.start == p < m.titleEnd;
      forall i, j | 0 <= i < j < |r| ensures r[i].titleEnd <= r[j].start {
        assert r[j] == rest[j - 1];
        if i > 0 {
          assert r[i] == rest[i - 1];
        }
      }
    } else {
      HeaderScanOrdered(s, p + 1);
      assert r == HeaderScan(s, p + 1);
    }
  }

  /**
   * Line start `k` lies in the match `m`: at its start, or inside the whitespace
   * between the hashes and the title.
   */
  predicate Covers(m: HeaderMatch, k: nat)
  {
    m.start <= k < m.titleEnd && (m.start == k || k <= m.titleStart)
  }

  /** A match can take in a later line only through the whitespace after its hashes. */
  lemma LineStartInMatch(s: string, m: HeaderMatch, k: nat)
    requires WellFormed(s, m) && LineStart(s, k) && m.start <= k < m.titleEnd
    ensures Covers(m, k)
  {
    if m.start < k {
      assert s[k - 1] == '\n';
      assert forall i :: m.titleStart <= i < m.titleEnd ==> s[i] != '\n';
      assert k - 1 < m.titleStart;
    }
  }

  /**
   * No candidate header line is skipped: every line start where the pattern matches is
   * the start of a header, or lies inside the previous header's match, which happens
   * only when that header's `\s+` ran across line ends before its title.
   */
  lemma {:induction false} HeaderScanComplete(s: string, p: nat, k: nat)
    requires p <= k < |s| && LineStart(s, k) && HeaderAt(s, k).Some?
    ensures exists i :: 0 <= i < |HeaderScan(s, p)| && Covers(HeaderScan(s, p)[i], k)
    decreases |s| - p
  {
    if LineStart(s, p) && HeaderAt(s, p).Some? {
      var m := HeaderAt(s, p).value;
      ScanAtMatch(s, p, m);
      if k < m.titleEnd {
        LineStartInMatch(s, m, k);
      } else {
        HeaderScanComplete(s, m.titleEnd, k);
      }
      CoveredInCons(HeaderScan(s, p), m, HeaderScan(s, m.titleEnd), k);
    } else {
      ScanPastNonMatch(s, p);
      HeaderScanComplete(s, p + 1, k);
      var i :| 0 <= i < |HeaderScan(s, p + 1)| && Covers(HeaderScan(s, p + 1)[i], k);
      assert Covers(HeaderScan(s, p)[i], k);
    }
  }

  lemma ScanAtMatch(s: string, p: nat, m: HeaderMatch)
    requires p < |s| && LineStart(s, p) && HeaderAt(s, p) == Some(m)
    ensures HeaderScan(s, p) == [m] + HeaderScan(s, m.titleEnd)
  {
  }

  lemma ScanPastNonMatch(s: string, p: nat)
    requires p < |s| && !(LineStart(s, p) && HeaderAt(s, p).Some?)
    ensures HeaderScan(s, p) == HeaderScan(s, p + 1)
  {
  }

  lemma CoveredInCons(r: seq<HeaderMatch>, m: HeaderMatch, rest: seq<HeaderMatch>, k: nat)
    requires r == [m] + rest
    requires Covers(m, k) || exists i :: 0 <= i < |rest| && Covers(rest[i], k)
    ensures exists i :: 0 <= i < |r| && Covers(r[i], k)
  {
    if Covers(m, k) {
      assert r[0] == m;
    } else {
      var i :| 0 <= i < |rest| && Covers(rest[i], k);
      assert r[i + 1] == rest[i];
    }
  }

  /** `[(len(h[0]), h[1].strip()) for h in headers]`. */
  function Headers(s: string): (r: seq<(nat, string)>)
  {
    var ms := HeaderScan(s, 0);
    HeaderScanSound(s, 0);
    seq(|ms|, i requires 0 <= i < |ms| => (ms[i].level, Strip(s[ms[i].titleStart..ms[i].titleEnd])))
  }

  /**
   * On an ordinary header line (one to six `#`, a whitespace character, then some text
   * on the same line) the pattern matches at the line, with the number of `#` as the
   * level and the title running from the first non-whitespace character to the line end.
   */
  lemma {:induction false} HeaderOfLine(s: string, k: nat, h: nat, e: nat)
    requires k < |s| && h == HashCount(s, k) && e == LineEnd(s, k)
    requires 1 <= h <= 6 && k + h < |s| && IsSpace(s[k + h])
    requires !AllSpace(s[k + h..e])
    ensures SpaceEnd(s, k + h + 1) <= e
    ensures HeaderAt(s, k) == Some(HeaderMatch(h, k, SpaceEnd(s, k + h + 1), e))
  {
    var b := SpaceEnd(s, k + h + 1);
    TitleStartOnLine(s, k + h, e, b);
    LineEndWithin(s, k, b);
    HeaderAtIs(s, k, h, b);
  }

  /** Unfolding `HeaderAt` once the hashes and the start of `.+` are known. */
  lemma HeaderAtIs(s: string, p: nat, h: nat, q: nat)
    requires p < |s| && h == HashCount(s, p) && 1 <= h <= 6 && p + h < |s| && IsSpace(s[p + h])
    requires RestStart(s, p + h + 1) == Some(q)
    ensures HeaderAt(s, p) == Some(HeaderMatch(h, p, q, LineEnd(s, q)))
  {
  }

  /** Some non-whitespace before the line end `e`: `.+` starts after the whitespace run. */
  lemma TitleStartOnLine(s: string, a: nat, e: nat, b: nat)
    requires a < e <= |s| && IsSpace(s[a]) && b == SpaceEnd(s, a + 1)
    requires !AllSpace(s[a..e])
    ensures b < e && RestStart(s, a + 1) == Some(b)
  {
    var rest := s[a..e];
    var j :| 0 <= j < |rest| && !IsSpace(rest[j]);
    assert !IsSpace(s[a + j]);
  }

  /**
   * The title's `strip()` is the stripped rest of the line after the hashes: the
   * whitespace `\s+` took in front of it makes no difference.
   */
  lemma StripFromSpaceEnd(s: string, a: nat, e: nat)
    requires a < |s| && IsSpace(s[a]) && SpaceEnd(s, a + 1) <= e <= |s|
    ensures Strip(s[SpaceEnd(s, a + 1)..e]) == Strip(s[a..e])
  {
    SpaceRun(s, a);
    StripAfterSpaces(s, a, SpaceEnd(s, a + 1), e);
  }

  lemma SpaceRun(s: string, a: nat)
    requires a < |s| && IsSpace(s[a])
    ensures forall i :: a <= i < SpaceEnd(s, a + 1) ==> IsSpace(s[i])
  {
  }

  /** Whitespace in front of a piece of text does not change its stripped form. */
  lemma {:induction false} StripAfterSpaces(s: string, a: nat, b: nat, e: nat)
    requires a <= b <= e <= |s|
    requires forall i :: a <= i < b ==> IsSpace(s[i])
    ensures Strip(s[b..e]) == Strip(s[a..e])
  {
    var t, u := s[a..e], s[b..e];
    assert t[b - a..] == u;
    var lead := t[..b - a];
    assert AllSpace(lead) by {
      forall i | 0 <= i < |lead| ensures IsSpace(lead[i]) {
        assert lead[i] == s[a + i];
      }
    }
    StripSkipsSpace(t, b - a);
  }

  /** A line that starts with seven or more `#` never starts a header. */
  lemma {:induction false} NoHeaderAtSevenHashes(s: string, k: nat)
    requires k + 7 <= |s| && forall j :: k <= j < k + 7 ==> s[j] == '#'
    ensures forall i :: 0 <= i < |HeaderScan(s, 0)| ==> HeaderScan(s, 0)[i].start != k
  {
    var r := HeaderScan(s, 0);
    HeaderScanSound(s, 0);
    forall i | 0 <= i < |r| ensures r[i].start != k {
      var m := r[i];
      assert m.start + m.level < |s| && IsSpace(s[m.start + m.level]);
    }
  }

  /** The `\s+` after the hashes may run over a line end: a bare `#` line takes the next line as its title. */
  lemma HeaderAcrossLines(s: string)
    requires s == "#\n## Sub"
    ensures Headers(s) == [(1, "## Sub")]
  {
    var t := s[2..8];
    assert Strip(t) == "## Sub" by {
      assert t == "## Sub";
      StripUnpadded(t);
    }
    HeaderScanAcrossLines();
    assert Headers(s)[0] == (1, Strip(t));
  }

  /** Text that neither starts nor ends with whitespace is its own `strip()`. */
  lemma StripUnpadded(t: string)
    requires t != [] && !IsSpace(t[0]) && !IsSpace(t[|t| - 1])
    ensures Strip(t) == t
  {
    assert StripStart(t) == 0;
    assert TrailingSpace(t) == 0;
  }

  /** The one match in `#\n## Sub` starts at the bare `#` and has the second line as its title. */
  lemma HeaderScanAcrossLines()
    ensures HeaderScan("#\n## Sub", 0) == [HeaderMatch(1, 0, 2, 8)]
  {
    var s := "#\n## Sub";
    assert HashCount(s, 0) == 1;
    assert SpaceEnd(s, 2) == 2;
    assert LineEnd(s, 2) == 8 by {
      assert s[2..] == "## Sub";
    }
    assert HeaderAt(s, 0) == Some(HeaderMatch(1, 0, 2, 8));
  }

  // ---------------------------------------------------------------- tags

  /** The maximal run of word characters starting at `p`. */
  function WordRunAt(s: string, p: nat): (t: string)
    requires p <= |s|
    ensures forall i :: 0 <= i < |t| ==> IsWordChar(t[i])
    ensures p + |t| <= |s| && t == s[p..p + |t|]
    ensures p + |t| < |s| ==> !IsWordChar(s[p + |t|])
  {
    s[p..p + SpanLen(s[p..], IsWordChar)]
  }

  /** `#(\w+)` matches at `p`, capturing `t`. */
  predicate TagAt(s: string, p: nat, t: string)
  {
    p + 1 < |s| && s[p] == '#' && IsWordChar(s[p + 1]) && t == WordRunAt(s, p + 1)
  }

  /** `re.findall(r'#(\w+)', s[p..])`. */
  function TagScan(s: string, p: nat): (r: seq<string>)
    requires p <= |s|
    ensures forall t :: t in r ==> exists k: nat :: p <= k && TagAt(s, k, t)
    decreases |s| - p
  {
    if p + 1 >= |s| then []
    else if TagStart(s, p) then
      assert TagAt(s, p, WordRunAt(s, p + 1));
      [WordRunAt(s, p + 1)] + TagScan(s, TagEnd(s, p))
    else
      TagScan(s, p + 1)
  }

  /** A `#` followed by a word character. */
  predicate TagStart(s: string, p: nat) { p + 1 < |s| && s[p] == '#' && IsWordChar(s[p + 1]) }

  /** Where a tag match starting at `p` ends. */
  function TagEnd(s: string, p: nat): (e: nat)
    requires TagStart(s, p)
    ensures p + 1 < e <= |s|
  {
    p + 1 + |WordRunAt(s, p + 1)|
  }

  lemma {:induction false} TagScanComplete(s: string, p: nat, k: nat, t: string)
    requires p <= k && TagAt(s, k, t)
    ensures t in TagScan(s, p)
    decreases |s| - p
  {
    var r := TagScan(s, p);
    if k == p {
      assert r == [t] + TagScan(s, TagEnd(s, p));
    } else if TagStart(s, p) {
      // the `#` at `k` is not a word character, so the run from `p + 1` stops before it
      RunStopsBeforeHash(s, p + 1, k);
      TagScanComplete(s, TagEnd(s, p), k, t);
      assert r == [WordRunAt(s, p + 1)] + TagScan(s, TagEnd(s, p));
    } else {
      TagScanComplete(s, p + 1, k, t);
      assert r == TagScan(s, p + 1);
    }
  }

  /** A word-character run never reaches a `#`. */
  lemma RunStopsBeforeHash(s: string, p: nat, k: nat)
    requires p <= k < |s| && s[k] == '#'
    ensures p + |WordRunAt(s, p)| <= k
  {
    var u := WordRunAt(s, p);
  }

  /** `set(re.findall(r'#(\w+)', s))`. */
  function Tags(s: string): (r: set<string>)
    ensures forall t :: t in r ==> exists k: nat :: TagAt(s, k, t)
  {
    set t | t in TagScan(s, 0)
  }

  /**
   * The tags are exactly the maximal word-character runs that directly follow a `#`,
   * each counted once; a header's `#` followed by a space starts none.
   */
  lemma {:induction false} TagsSpec(s: string, t: string)
    ensures t in Tags(s) <==> exists k: nat :: TagAt(s, k, t)
    ensures t in Tags(s) ==> t != [] && forall i :: 0 <= i < |t| ==> IsWordChar(t[i])
  {
    if exists k: nat :: TagAt(s, k, t) {
      var k: nat :| TagAt(s, k, t);
      TagScanComplete(s, 0, k, t);
    }
  }

  // ---------------------------------------------------------------- checkbox todos

  const Checkbox: string := "- [ ] "

  /** `re.findall(r'- \[ \] (.+)', s)`: the rest of the line after each unchecked box. */
  function CheckboxTodos(s: string): (r: seq<string>)
    ensures forall i :: 0 <= i < |r| ==> r[i] != [] && Lacks(r[i], '\n')
    decreases |s|
  {
    if |s| <= 6 then []
    else if s[..6] == Checkbox && s[6] != '\n' then
      var e := LineEnd(s, 6);
      [s[6..e]] + CheckboxTodos(s[e..])
    else
      CheckboxTodos(s[1..])
  }

  /** Index of the first occurrence of the box in `l`, or `|l|` when there is none. */
  function FirstBox(l: string): (i: nat)
    ensures i <= |l|
    ensures i < |l| ==> i + 6 <= |l| && l[i..i + 6] == Checkbox
  {
    if |l| < 6 then |l|
    else if l[..6] == Checkbox then 0
    else 1 + FirstBox(l[1..])
  }

  /** The todo of one line, read the way a person would: the text after its first unchecked box. */
  function LineTodo(l: string): Option<string>
  {
    var i := FirstBox(l);
    if i + 6 < |l| then Some(l[i + 6..]) else None
  }

  function Listed(o: Option<string>): seq<string>
  {
    match o
    case None => []
    case Some(t) => [t]
  }

  function LineTodos(lines: seq<string>): seq<string>
  {
    if lines == [] then [] else Listed(LineTodo(lines[0])) + LineTodos(lines[1..])
  }

  lemma {:induction false} CheckboxTodosAfterNewline(rest: string)
    ensures CheckboxTodos(['\n'] + rest) == CheckboxTodos(rest)
  {
    var s := ['\n'] + rest;
    assert s[1..] == rest;
    if |s| > 6 {
      assert s[..6] != Checkbox by { assert s[0] != Checkbox[0]; }
    }
  }

  /** The scan over one line followed by a line end (or the end of the text) yields that line's todo. */
  lemma {:induction false} CheckboxTodosOfLine(l: string, tail: string)
    requires Lacks(l, '\n')
    requires tail == [] || tail[0] == '\n'
    ensures CheckboxTodos(l + tail) == Listed(LineTodo(l)) + CheckboxTodos(tail)
    decreases |l|
  {
    var s := l + tail;
    if |s| <= 6 {
      ShortLineNoTodo(l, tail);
    } else if s[..6] == Checkbox && s[6] != '\n' {
      BoxAtLineStart(l, tail);
    } else if l == [] {
      assert s == tail;
    } else {
      assert s[1..] == l[1..] + tail;
      CheckboxTodosOfLine(l[1..], tail);
      LineTodoSkip(l, tail);
    }
  }

  lemma ShortLineNoTodo(l: string, tail: string)
    requires Lacks(l, '\n') && (tail == [] || tail[0] == '\n') && |l + tail| <= 6
    ensures CheckboxTodos(l + tail) == [] && LineTodo(l) == None && CheckboxTodos(tail) == []
  {
    if |l| == 6 {
      assert FirstBox(l) == 0 || FirstBox(l) == 6;
    }
  }

  /** A line that starts with the box and has text after it. */
  lemma BoxAtLineStart(l: string, tail: string)
    requires Lacks(l, '\n') && (tail == [] || tail[0] == '\n')
    requires |l + tail| > 6 && (l + tail)[..6] == Checkbox && (l + tail)[6] != '\n'
    ensures CheckboxTodos(l + tail) == Listed(LineTodo(l)) + CheckboxTodos(tail)
  {
    var s := l + tail;
    assert forall j :: 0 <= j <= 6 ==> s[j] != '\n' by {
      assert forall j :: 0 <= j < 6 ==> s[j] == Checkbox[j];
    }
    assert |l| < |s| ==> s[|l|] == '\n';
    assert |l| > 6;
    assert l[..6] == Checkbox;
    assert forall i :: 6 <= i < |l| ==> s[i] != '\n';
    LineEndIs(s, 6, |l|);
    assert s[6..|l|] == l[6..];
    assert s[|l|..] == tail;
  }

  /** Where the scan steps past the first character of a line, so does the line's todo. */
  lemma LineTodoSkip(l: string, tail: string)
    requires Lacks(l, '\n') && (tail == [] || tail[0] == '\n') && l != []
    requires |l + tail| > 6 && !((l + tail)[..6] == Checkbox && (l + tail)[6] != '\n')
    ensures CheckboxTodos(l + tail) == CheckboxTodos((l + tail)[1..])
    ensures LineTodo(l) == LineTodo(l[1..])
  {
    var s := l + tail;
    if |l| >= 6 && l[..6] == Checkbox {
      assert |l| == 6 by {
        assert s[..6] == l[..6];
        assert s[6] == '\n';
      }
      assert FirstBox(l[1..]) == 5;
    } else if |l| < 6 {
      assert FirstBox(l[1..]) == |l| - 1;
    } else {
      assert s[..6] == l[..6];
    }
  }

  /**
   * The checkbox todos are, line by line, the text after the line's first `- [ ] `
   * (when some text follows it), in document order and with repeats kept.
   */
  lemma {:induction false} CheckboxTodosByLine(s: string)
    ensures CheckboxTodos(s) == LineTodos(SplitOn(s, '\n'))
    decreases |s|
  {
    var i := Find(s, '\n');
    if i == |s| {
      assert s == s + [];
      CheckboxTodosOfLine(s, []);
      assert SplitOn(s, '\n') == [s];
      assert LineTodos([s]) == Listed(LineTodo(s)) + LineTodos([]);
    } else {
      var l, rest := s[..i], s[i + 1..];
      assert s == l + (['\n'] + rest);
      CheckboxTodosOfLine(l, ['\n'] + rest);
      CheckboxTodosAfterNewline(rest);
      CheckboxTodosByLine(rest);
      var lines := SplitOn(s, '\n');
      assert lines == [l] + SplitOn(rest, '\n');
      assert lines[1..] == SplitOn(rest, '\n');
    }
  }

  /** An unchecked box starts at `i`. */
  predicate BoxAt(s: string, i: nat) { i + 6 <= |s| && s[i..i + 6] == Checkbox }

  /** Text without an unchecked box has no checkbox todo (a `TODO:` line gives none). */
  lemma {:induction false} NoBoxNoCheckboxTodos(s: string)
    requires forall i: nat :: !BoxAt(s, i)
    ensures CheckboxTodos(s) == []
    decreases |s|
  {
    if |s| > 6 {
      assert !BoxAt(s, 0);
      assert s[..6] == s[0..6];
      forall i: nat ensures !BoxAt(s[1..], i) {
        if i + 6 <= |s[1..]| {
          assert s[1..][i..i + 6] == s[i + 1..i + 7];
          assert !BoxAt(s, i + 1);
        }
      }
      NoBoxNoCheckboxTodos(s[1..]);
    }
  }

  // ---------------------------------------------------------------- keyword todos

  /** `TODO` in any letter case at position `p`. */
  predicate KeywordAt(s: string, p: nat)
  {
    p + 4 <= |s| && LowerChar(s[p]) == 't' && LowerChar(s[p + 1]) == 'o'
    && LowerChar(s[p + 2]) == 'd' && LowerChar(s[p + 3]) == 'o'
  }

  /** One match of `TODO:?\s*(.+)`: the keyword starts at `start`, the todo is `[textStart, textEnd)`. */
  datatype TodoMatch = TodoMatch(start: nat, textStart: nat, textEnd: nat)

  /**
   * The shape of a keyword-todo match: the keyword, then an optional colon and
   * whitespace (possibly line ends), then a todo that runs to the end of its line.
   */
  predicate TodoShape(s: string, m: TodoMatch)
  {
    && KeywordAt(s, m.start)
    && m.start + 4 <= m.textStart < m.textEnd <= |s|
    && (forall k :: m.start + 4 <= k < m.textStart ==> IsSpace(s[k]) || (k == m.start + 4 && s[k] == ':'))
    && s[m.textStart] != '\n'
    && m.textEnd == LineEnd(s, m.textStart)
  }

  /**
   * The pattern tried at `p`, ignoring case. The colon is taken if present and given back
   * only when nothing but line ends follows it; the greedy `\s*` then gives back
   * characters until `.+` can start.
   */
  function TodoAt(s: string, p: nat): (r: Option<TodoMatch>)
    requires p <= |s|
    ensures r.Some? ==> r.value.start == p && TodoShape(s, r.value)
    ensures r.None? && KeywordAt(s, p) ==> forall k :: p + 4 <= k < |s| ==> IsSpace(s[k])
  {
    if !KeywordAt(s, p) then None
    else
      var c := if p + 4 < |s| && s[p + 4] == ':' && RestStart(s, p + 5).Some? then RestStart(s, p + 5)
               else RestStart(s, p + 4);
      match c
      case None => None
      case Some(q) => Some(TodoMatch(p, q, LineEnd(s, q)))
  }

  /** `re.finditer(r'TODO:?\s*(.+)', s[p..], re.IGNORECASE)`, as matches in `s`. */
  function TodoScan(s: string, p: nat): seq<TodoMatch>
    requires p <= |s|
    decreases |s| - p
  {
    if p == |s| then []
    else if TodoAt(s, p).Some? then
      var m := TodoAt(s, p).value;
      [m] + TodoScan(s, m.textEnd)
    else
      TodoScan(s, p + 1)
  }

  lemma TodoScanAtMatch(s: string, p: nat, m: TodoMatch)
    requires p < |s| && TodoAt(s, p) == Some(m)
    ensures TodoScan(s, p) == [m] + TodoScan(s, m.textEnd)
  {
  }

  lemma TodoScanPast(s: string, p: nat)
    requires p < |s| && TodoAt(s, p).None?
    ensures TodoScan(s, p) == TodoScan(s, p + 1)
  {
  }

  /** Every match of the scan has the shape of a keyword-todo match. */
  lemma {:induction false} TodoScanSound(s: string, p: nat)
    requires p <= |s|
    ensures forall i :: 0 <= i < |TodoScan(s, p)| ==> TodoShape(s, TodoScan(s, p)[i])
    decreases |s| - p
  {
    if p < |s| && TodoAt(s, p).Some? {
      var m := TodoAt(s, p).value;
      TodoScanSound(s, m.textEnd);
      TodoScanAtMatch(s, p, m);
      var r, rest := TodoScan(s, p), TodoScan(s, m.textEnd);
      forall i | 0 <= i < |r| ensures TodoShape(s, r[i]) {
        if i > 0 { assert r[i] == rest[i - 1]; }
      }
    } else if p < |s| {
      TodoScanSound(s, p + 1);
      TodoScanPast(s, p);
    }
  }

  /** The matches of the scan come in order and do not overlap. */
  lemma {:induction false} TodoScanOrdered(s: string, p: nat)
    requires p <= |s|
    ensures forall i :: 0 <= i < |TodoScan(s, p)| ==> p <= TodoScan(s, p)[i].start
    ensures forall i, j :: 0 <= i < j < |TodoScan(s, p)| ==> TodoScan(s, p)[i].textEnd <= TodoScan(s, p)[j].start
    decreases |s| - p
  {
    var r := TodoScan(s, p);
    if p == |s| {
    } else if TodoAt(s, p).Some? {
      var m := TodoAt(s, p).value;
      var rest := TodoScan(s, m.textEnd);
      TodoScanOrdered(s, m.textEnd);
      TodoScanAtMatch(s, p, m);
      forall i, j | 0 <= i < j < |r| ensures r[i].textEnd <= r[j].start {
        assert r[j] == rest[j - 1];
        if i > 0 {
          assert r[i] == rest[i - 1];
        }
      }
    } else {
      TodoScanOrdered(s, p + 1);
      TodoScanPast(s, p);
    }
  }

  /** Position `k` lies in the match `m`, from its keyword to the end of its todo. */
  predicate InTodo(m: TodoMatch, k: nat)
  {
    m.start <= k < m.textEnd
  }

  lemma InTodoCons(r: seq<TodoMatch>, m: TodoMatch, rest: seq<TodoMatch>, k: nat)
    requires r == [m] + rest
    requires InTodo(m, k) || exists i :: 0 <= i < |rest| && InTodo(rest[i], k)
    ensures exists i :: 0 <= i < |r| && InTodo(r[i], k)
  {
    if InTodo(m, k) {
      assert r[0] == m;
    } else {
      var i :| 0 <= i < |rest| && InTodo(rest[i], k);
      assert r[i + 1] == rest[i];
    }
  }

  /**
   * No place where the pattern matches is skipped: it starts a match of the scan or lies
   * inside an earlier one (a `todo` within a todo's text is part of that text).
   */
  lemma {:induction false} TodoScanComplete(s: string, p: nat, k: nat)
    requires p <= k < |s| && TodoAt(s, k).Some?
    ensures exists i :: 0 <= i < |TodoScan(s, p)| && InTodo(TodoScan(s, p)[i], k)
    decreases |s| - p
  {
    if TodoAt(s, p).Some? {
      var m := TodoAt(s, p).value;
      TodoScanAtMatch(s, p, m);
      if m.textEnd <= k {
        TodoScanComplete(s, m.textEnd, k);
      }
      InTodoCons(TodoScan(s, p), m, TodoScan(s, m.textEnd), k);
    } else {
      TodoScanPast(s, p);
      TodoScanComplete(s, p + 1, k);
      var i :| 0 <= i < |TodoScan(s, p + 1)| && InTodo(TodoScan(s, p + 1)[i], k);
      assert InTodo(TodoScan(s, p)[i], k);
    }
  }

  /** `re.findall(r'TODO:?\s*(.+)', s, re.IGNORECASE)`: the text of each match. */
  function KeywordTodos(s: string): (r: seq<string>)
    ensures forall i :: 0 <= i < |r| ==> r[i] != [] && Lacks(r[i], '\n')
  {
    var ms := TodoScan(s, 0);
    TodoScanSound(s, 0);
    seq(|ms|, i requires 0 <= i < |ms| => s[ms[i].textStart..ms[i].textEnd])
  }

  /**
   * Every keyword todo is the rest of a line after a `TODO` in any case, an optional
   * colon and whitespace; the todos come in text order, and every place where the
   * pattern matches gives a todo or lies inside the match of an earlier one.
   */
  lemma KeywordTodosSpec(s: string)
    ensures var ms := TodoScan(s, 0);
      && |KeywordTodos(s)| == |ms|
      && (forall i :: 0 <= i < |ms| ==> TodoShape(s, ms[i]) && KeywordTodos(s)[i] == s[ms[i].textStart..ms[i].textEnd])
      && (forall i, j :: 0 <= i < j < |ms| ==> ms[i].textEnd <= ms[j].start)
    ensures forall k :: 0 <= k < |s| && TodoAt(s, k).Some? ==>
      exists i :: 0 <= i < |TodoScan(s, 0)| && InTodo(TodoScan(s, 0)[i], k)
  {
    TodoScanSound(s, 0);
    TodoScanOrdered(s, 0);
    forall k | 0 <= k < |s| && TodoAt(s, k).Some?
      ensures exists i :: 0 <= i < |TodoScan(s, 0)| && InTodo(TodoScan(s, 0)[i], k)
    {
      TodoScanComplete(s, 0, k);
    }
  }

  /** Text with no `todo` in any case has no keyword todo. */
  lemma {:induction false} NoKeywordNoTodoScan(s: string, p: nat)
    requires p <= |s| && forall i :: p <= i < |s| ==> !KeywordAt(s, i)
    ensures TodoScan(s, p) == []
    decreases |s| - p
  {
    if p < |s| {
      TodoScanPast(s, p);
      NoKeywordNoTodoScan(s, p + 1);
    }
  }

  lemma NoTodoNoKeywordTodos(s: string)
    requires forall i :: 0 <= i < |s| ==> !KeywordAt(s, i)
    ensures KeywordTodos(s) == []
  {
    NoKeywordNoTodoScan(s, 0);
  }

  /** A text whose only match starts it and runs to its last line, with fewer than four characters after it. */
  lemma SingleKeywordTodo(s: string, q: nat, e: nat)
    requires TodoAt(s, 0) == Some(TodoMatch(0, q, e)) && |s| - e < 4
    ensures KeywordTodos(s) == [s[q..e]]
  {
    TodoScanAtMatch(s, 0, TodoMatch(0, q, e));
    NoKeywordNoTodoScan(s, e);
  }

  /** A todo after `TODO:` and a space. */
  lemma KeywordTodoAfterColon(a: string)
    requires a == "TODO: buy milk"
    ensures KeywordTodos(a) == ["buy milk"]
  {
    TodoAfterColonStart(a);
    SingleKeywordTodo(a, 6, 14);
    assert a[6..14] == "buy milk";
  }

  lemma TodoAfterColonStart(a: string)
    requires a == "TODO: buy milk"
    ensures TodoAt(a, 0) == Some(TodoMatch(0, 6, 14))
  {
    assert KeywordAt(a, 0) && a[4] == ':' && IsSpace(a[5]) && !IsSpace(a[6]);
    assert SpaceEnd(a, 5) == 6;
    LineEndIs(a, 6, 14) by {
      assert forall i :: 6 <= i < 14 ==> a[i] != '\n';
    }
  }

  /** `\s*` runs over line ends: the todo can sit on the line after the keyword. */
  lemma KeywordTodoOnNextLine(b: string)
    requires b == "todo:\n  call"
    ensures KeywordTodos(b) == ["call"]
  {
    assert KeywordAt(b, 0) && b[4] == ':';
    assert IsSpace(b[5]) && IsSpace(b[6]) && IsSpace(b[7]) && !IsSpace(b[8]);
    assert SpaceEnd(b, 5) == 8;
    assert forall i :: 8 <= i < 12 ==> b[i] != '\n';
    LineEndIs(b, 8, 12);
    assert TodoAt(b, 0) == Some(TodoMatch(0, 8, 12));
    SingleKeywordTodo(b, 8, 12);
    assert b[8..12] == "call";
  }

  /** With nothing after it, the optional colon is given back and becomes the todo. */
  lemma KeywordTodoBareColon(c: string)
    requires c == "TODO:\n"
    ensures KeywordTodos(c) == [":"]
  {
    assert KeywordAt(c, 0) && c[4] == ':' && IsSpace(c[5]) && !IsSpace(c[4]);
    assert SpaceEnd(c, 5) == 6;
    assert RestStart(c, 5) == None;
    assert SpaceEnd(c, 4) == 4;
    LineEndIs(c, 4, 5);
    assert TodoAt(c, 0) == Some(TodoMatch(0, 4, 5));
    SingleKeywordTodo(c, 4, 5);
    assert c[4..5] == ":";
  }

  // ---------------------------------------------------------------- notes

  /** The dictionaries `_parse_markdown` and `_parse_text` return; a text note has no headers. */
  datatype Note =
    | MarkdownNote(headers: seq<(nat, string)>, tags: set<string>, todos: seq<string>, content: string)
    | TextNote(tags: set<string>, todos: seq<string>, content: string)
  {
    /** The `format` entry. */
    function Format(): string
    {
      if MarkdownNote? then "markdown" else "text"
    }
  }

  /** `_parse_markdown(content)`. */
  function ParseMarkdown(content: string): (r: Note)
    ensures r.MarkdownNote? && r.content == content
    ensures forall i :: 0 <= i < |r.todos| ==> r.todos[i] != [] && Lacks(r.todos[i], '\n')
  {
    MarkdownNote(Headers(content), Tags(content), CheckboxTodos(content), content)
  }

  /** `_parse_text(content)`. */
  function ParseText(content: string): (r: Note)
    ensures r.TextNote? && r.content == content
    ensures forall i :: 0 <= i < |r.todos| ==> r.todos[i] != [] && Lacks(r.todos[i], '\n')
  {
    TextNote(Tags(content), KeywordTodos(content), content)
  }

  /** The content-handling part of `parse_file`: pick the parser by the extension. */
  function Parse(content: string, extension: string): (r: Note)
    ensures r.content == content
    ensures r.MarkdownNote? <==> DetectFormat(extension) == Markdown
    ensures r.tags == Tags(content)
  {
    if DetectFormat(extension) == Markdown then ParseMarkdown(content) else ParseText(content)
  }
}
