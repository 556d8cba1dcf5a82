/**
 * `TextAnalyzer`: word frequencies, key phrases (n-grams), readability counts and
 * sentiment-indicator tallies over a note's text. The analyzer's one setting,
 * `include_stop_words`, is passed to the operations that read it.
 */
module Analyzer {
  import opened Text
  import opened Ranking

  /** `TextAnalyzer.STOP_WORDS`. */
  const StopWords: set<string> := {
    "the", "a", "an", "and", "or", "but", "in", "on", "at", "to", "for", "of", "with",
    "by", "as", "is", "are", "was", "were", "be", "been", "have", "has", "had", "do",
    "does", "did", "will", "would", "could", "should", "may", "might", "can", "must",
    "this", "that", "these", "those", "i", "you", "he", "she", "it", "we", "they",
    "me", "him", "her", "us", "them", "my", "your", "his", "her", "its", "our",
    "their", "myself", "yourself", "himself", "herself", "itself", "ourselves",
    "yourselves", "themselves"
  }

  /** The list comprehension `[w for w in ws if keep(w)]`. */
  function KeepIf(ws: seq<string>, keep: string -> bool): (r: seq<string>)
    ensures |r| <= |ws|
    ensures forall w :: w in r ==> w in ws && keep(w)
    ensures forall w :: w in ws && keep(w) ==> w in r
    ensures forall w :: keep(w) ==> multiset(r)[w] == multiset(ws)[w]
  {
    if ws == [] then []
    else
      assert ws == [ws[0]] + ws[1..];
      (if keep(ws[0]) then [ws[0]] else []) + KeepIf(ws[1..], keep)
  }

  /** The comprehension keeps the input's order: filtering a concatenation filters each part. */
  lemma {:induction false} KeepIfAppend(a: seq<string>, b: seq<string>, keep: string -> bool)
    ensures KeepIf(a + b, keep) == KeepIf(a, keep) + KeepIf(b, keep)
  {
    if a == [] {
      assert a + b == b;
    } else {
      assert (a + b)[0] == a[0] && (a + b)[1..] == a[1..] + b;
      KeepIfAppend(a[1..], b, keep);
    }
  }

  predicate AllLetters(w: string) { forall i :: 0 <= i < |w| ==> IsLetter(w[i]) }
  predicate AllLowerLetters(w: string) { forall i :: 0 <= i < |w| ==> IsLower(w[i]) }

  // ---------------------------------------------------------------- word frequency

  /** Letter-only words of at least `minLength` characters. */
  function LetterWordOf(minLength: nat): string -> bool
  {
    w => |w| >= minLength && AllLetters(w)
  }

  predicate NotStopWord(w: string) { w !in StopWords }

  /**
   * The tokens `analyze_word_frequency` counts. `\b[a-zA-Z]{m,}\b` over the lowered
   * text matches exactly the maximal `\w` runs that consist of letters only and have
   * at least `m` characters (a letter run touching a digit or `_` has no `\b` after it).
   */
  function FrequencyTokens(content: string, minLength: nat, includeStopWords: bool): (r: seq<string>)
    ensures forall w :: w in r ==> |w| >= minLength && AllLowerLetters(w)
    ensures !includeStopWords ==> forall w :: w in r ==> w !in StopWords
  {
    var low := Lower(content);
    var runs := WordRuns(low);
    var words := KeepIf(runs, LetterWordOf(minLength));
    LowerHasNoUpper(content);
    assert forall w :: w in words ==> AllLowerLetters(w) by {
      forall w | w in words ensures AllLowerLetters(w) {
        var k :| 0 <= k < |runs| && runs[k] == w;
        forall j | 0 <= j < |w| ensures IsLower(w[j]) {
          assert runs[k][j] in low;
        }
      }
    }
    if includeStopWords then words else KeepIf(words, NotStopWord)
  }

  /**
   * Nothing is lost on the way: every word of the lowered text that has the length, is
   * made of letters and is not filtered out as a stop word is counted as often as it
   * occurs; every token is such a word.
   */
  lemma FrequencyTokensComplete(content: string, minLength: nat, includeStopWords: bool)
    ensures forall w :: w in FrequencyTokens(content, minLength, includeStopWords) ==> w in WordRuns(Lower(content))
    ensures forall w :: |w| >= minLength && AllLetters(w) && (includeStopWords || w !in StopWords) ==>
              multiset(FrequencyTokens(content, minLength, includeStopWords))[w] == multiset(WordRuns(Lower(content)))[w]
  {
    var runs := WordRuns(Lower(content));
    var words := KeepIf(runs, LetterWordOf(minLength));
    var r := FrequencyTokens(content, minLength, includeStopWords);
    assert r == if includeStopWords then words else KeepIf(words, NotStopWord);
    forall w | |w| >= minLength && AllLetters(w) && (includeStopWords || w !in StopWords)
      ensures multiset(r)[w] == multiset(runs)[w]
    {
      assert LetterWordOf(minLength)(w);
      assert multiset(words)[w] == multiset(runs)[w];
    }
  }

  /** `analyze_word_frequency(content, min_length, top_n)`. */
  function WordFrequency(content: string, minLength: nat, topN: nat, includeStopWords: bool): (r: seq<Entry>)
    requires minLength >= 1
    ensures |r| <= topN
  {
    MostCommon(FrequencyTokens(content, minLength, includeStopWords), topN)
  }

  /**
   * What `analyze_word_frequency` promises: lowercase letter-only words of at least
   * `min_length` characters, no stop word unless they are included, at most `top_n`
   * entries, each word's exact number of occurrences among the tokens, counts that
   * never increase, ties in first-seen order, and no word left out unless it counts
   * less than every returned one, or as much and was seen after it.
   */
  lemma WordFrequencySpec(content: string, minLength: nat, topN: nat, includeStopWords: bool)
    requires minLength >= 1
    ensures var r := WordFrequency(content, minLength, topN, includeStopWords);
      forall i :: 0 <= i < |r| ==>
        |r[i].0| >= minLength && AllLowerLetters(r[i].0) && (!includeStopWords ==> r[i].0 !in StopWords)
    ensures var r, ws := WordFrequency(content, minLength, topN, includeStopWords),
                         FrequencyTokens(content, minLength, includeStopWords);
      && DistinctKeys(r)
      && (forall i :: 0 <= i < |r| ==> r[i].0 in ws && r[i].1 == multiset(ws)[r[i].0] && r[i].1 >= 1)
    ensures var r, ws := WordFrequency(content, minLength, topN, includeStopWords),
                         FrequencyTokens(content, minLength, includeStopWords);
      && (forall i, j :: 0 <= i < j < |r| ==> r[i].1 >= r[j].1)
      && (forall i, j :: (0 <= i < j < |r| && r[i].1 == r[j].1) ==>
            r[i].0 in ws && r[j].0 in ws && FirstIndex(ws, r[i].0) < FirstIndex(ws, r[j].0))
    ensures var r, ws := WordFrequency(content, minLength, topN, includeStopWords),
                         FrequencyTokens(content, minLength, includeStopWords);
      forall w :: w in ws && !HasKey(r, w) ==>
        |r| == topN && forall i :: 0 <= i < |r| ==>
          r[i].1 > multiset(ws)[w] ||
          (r[i].1 == multiset(ws)[w] && r[i].0 in ws && FirstIndex(ws, r[i].0) < FirstIndex(ws, w))
  {
    var ws := FrequencyTokens(content, minLength, includeStopWords);
    var r := WordFrequency(content, minLength, topN, includeStopWords);
    assert r == MostCommon(ws, topN);
    MostCommonCounts(ws, topN);
    MostCommonOrder(ws, topN);
    MostCommonComplete(ws, topN);
  }

  // ---------------------------------------------------------------- key phrases

  /** `re.sub(r'[^\w\s]', ' ', s)`: every character that is neither a word character nor whitespace becomes a space. */
  function Clean(s: string): (r: string)
    ensures |r| == |s|
    ensures forall i :: 0 <= i < |s| ==> IsWordChar(r[i]) || IsSpace(r[i])
    ensures forall i :: 0 <= i < |s| ==> r[i] == if IsWordChar(s[i]) || IsSpace(s[i]) then s[i] else ' '
  {
    seq(|s|, i requires 0 <= i < |s| => if IsWordChar(s[i]) || IsSpace(s[i]) then s[i] else ' ')
  }

  predicate IsPhraseWord(w: string) { w !in StopWords && |w| >= 3 }

  /** The words `find_key_phrases` builds n-grams from. */
  function PhraseWords(content: string): (r: seq<string>)
    ensures forall w :: w in r ==> IsPhraseWord(w) && Lacks(w, ' ')
    ensures forall w :: IsPhraseWord(w) ==> multiset(r)[w] == multiset(SplitWhitespace(Clean(Lower(content))))[w]
  {
    var clean := Clean(Lower(content));
    var split := SplitWhitespace(clean);
    var r := KeepIf(split, IsPhraseWord);
    assert forall w :: w in r ==> Lacks(w, ' ') by {
      forall w | w in r ensures Lacks(w, ' ') {
        var k :| 0 <= k < |split| && split[k] == w;
      }
    }
    r
  }

  /** All windows of `n` consecutive words, joined by single spaces. */
  function Windows(words: seq<string>, n: nat): (r: seq<string>)
    requires n >= 1
    ensures |r| == if |words| >= n then |words| - n + 1 else 0
  {
    seq(if |words| >= n then |words| - n + 1 else 0,
        i requires 0 <= i && i + n <= |words| => JoinWith(words[i..i + n], ' '))
  }

  /** The list `find_key_phrases` builds: the windows for n = `lo`, then `lo + 1`, ... up to `hi`. */
  function NGrams(words: seq<string>, lo: nat, hi: int): (r: seq<string>)
    requires lo >= 1
    ensures forall g :: g in r ==> exists n :: lo <= n <= hi && g in Windows(words, n)
    decreases if hi >= lo then hi - lo + 1 else 0
  {
    if lo > hi then [] else Windows(words, lo) + NGrams(words, lo + 1, hi)
  }

  /** `p` splits (on spaces) into the `n` words starting at position `i`. */
  predicate SplitsInto(p: string, words: seq<string>, i: int, n: int)
  {
    0 <= i && 0 <= n && i + n <= |words| && SplitOn(p, ' ') == words[i..i + n]
  }

  lemma WindowSplits(words: seq<string>, i: nat, n: nat)
    requires n >= 1 && i + n <= |words|
    requires forall w :: w in words ==> Lacks(w, ' ')
    ensures SplitsInto(JoinWith(words[i..i + n], ' '), words, i, n)
  {
    var piece := words[i..i + n];
    forall k | 0 <= k < |piece| ensures Lacks(piece[k], ' ') {
      assert piece[k] == words[i + k];
    }
    SplitJoin(piece, ' ');
  }

  /**
   * Every generated phrase splits back (on spaces) into between `lo` and `hi` of the
   * words, consecutive in the word list.
   */
  lemma {:induction false} NGramsAreWindows(words: seq<string>, lo: nat, hi: int)
    requires lo >= 1
    requires forall w :: w in words ==> Lacks(w, ' ')
    ensures forall p :: p in NGrams(words, lo, hi) ==>
              exists i, n :: lo <= n <= hi && SplitsInto(p, words, i, n)
    decreases if hi >= lo then hi - lo + 1 else 0
  {
    if lo <= hi {
      NGramsAreWindows(words, lo + 1, hi);
      var ws := Windows(words, lo);
      forall p | p in ws
        ensures exists i, n :: lo <= n <= hi && SplitsInto(p, words, i, n)
      {
        var i :| 0 <= i < |ws| && ws[i] == p;
        WindowSplits(words, i, lo);
      }
      assert NGrams(words, lo, hi) == ws + NGrams(words, lo + 1, hi);
    }
  }

  /** The phrases of `find_key_phrases` are runs of `min_words` to `max_words` phrase words. */
  lemma PhrasesAreWordRuns(content: string, lo: nat, hi: int, p: string)
    requires lo >= 1 && p in NGrams(PhraseWords(content), lo, hi)
    ensures lo <= |SplitOn(p, ' ')| <= hi
    ensures forall t :: t in SplitOn(p, ' ') ==> t in PhraseWords(content) && IsPhraseWord(t)
  {
    var words := PhraseWords(content);
    NGramsAreWindows(words, lo, hi);
    var i, n :| lo <= n <= hi && SplitsInto(p, words, i, n);
    forall t | t in SplitOn(p, ' ') ensures t in words {
      var k :| 0 <= k < n && words[i..i + n][k] == t;
      assert words[i + k] == t;
    }
  }

  /**
   * `find_key_phrases(content, min_words, max_words, top_n)`: the nested loops append
   * every window for each n in `[min_words, max_words]`, then the pooled list is ranked.
   */
  method FindKeyPhrases(content: string, minWords: nat, maxWords: int, topN: nat) returns (r: seq<Entry>)
    requires minWords >= 1
    ensures r == MostCommon(NGrams(PhraseWords(content), minWords, maxWords), topN)
  {
    var words := PhraseWords(content);
    var phrases := PooledNGrams(words, minWords, maxWords);
    r := MostCommon(phrases, topN);
  }

  /** The outer loop of `find_key_phrases`: for each n from `lo` to `hi`, append the windows of n words. */
  method PooledNGrams(words: seq<string>, lo: nat, hi: int) returns (phrases: seq<string>)
    requires lo >= 1
    ensures phrases == NGrams(words, lo, hi)
  {
    phrases := [];
    var n := lo;
    while n <= hi
      invariant lo <= n
      invariant n <= hi + 1 || n == lo
      invariant phrases + NGrams(words, n, hi) == NGrams(words, lo, hi)
      decreases hi - n
    {
      phrases := AppendWindows(phrases, words, n);
      assert NGrams(words, n, hi) == Windows(words, n) + NGrams(words, n + 1, hi);
      n := n + 1;
    }
    assert phrases + [] == phrases;
  }

  /** The inner loop of `find_key_phrases`: append every window of `n` consecutive words. */
  method AppendWindows(phrases: seq<string>, words: seq<string>, n: nat) returns (p: seq<string>)
    requires n >= 1
    ensures p == phrases + Windows(words, n)
  {
    p := phrases;
    var i := 0;
    ghost var ws := Windows(words, n);
    while i < |words| - n + 1
      invariant 0 <= i <= |ws|
      invariant p == phrases + ws[..i]
    {
      assert ws[..i + 1] == ws[..i] + [JoinWith(words[i..i + n], ' ')];
      p := p + [JoinWith(words[i..i + n], ' ')];
      i := i + 1;
    }
    assert ws[..i] == ws;
  }

  /** Every ranked phrase has between `lo` and `hi` words, each a phrase word. */
  lemma KeyPhraseShape(content: string, lo: nat, hi: int, topN: nat)
    requires lo >= 1
    ensures |MostCommon(NGrams(PhraseWords(content), lo, hi), topN)| <= topN
    ensures forall i :: 0 <= i < |MostCommon(NGrams(PhraseWords(content), lo, hi), topN)| ==>
              var p := MostCommon(NGrams(PhraseWords(content), lo, hi), topN)[i].0;
              lo <= |SplitOn(p, ' ')| <= hi && forall t :: t in SplitOn(p, ' ') ==> IsPhraseWord(t)
  {
    var ngrams := NGrams(PhraseWords(content), lo, hi);
    var r := MostCommon(ngrams, topN);
    MostCommonCounts(ngrams, topN);
    forall i | 0 <= i < |r|
      ensures lo <= |SplitOn(r[i].0, ' ')| <= hi
      ensures forall t :: t in SplitOn(r[i].0, ' ') ==> IsPhraseWord(t)
    {
      PhrasesAreWordRuns(content, lo, hi, r[i].0);
    }
  }

  // ---------------------------------------------------------------- syllables

  predicate IsVowel(c: char) { c == 'a' || c == 'e' || c == 'i' || c == 'o' || c == 'u' || c == 'y' }

  /** Number of maximal runs of vowels in `w`. */
  function VowelGroups(w: string): (g: nat)
    ensures g <= |w|
  {
    if w == [] then 0
    else
      var k := |w| - 1;
      VowelGroups(w[..k]) + (if IsVowel(w[k]) && (k == 0 || !IsVowel(w[k - 1])) then 1 else 0)
  }

  /**
   * The estimate `_count_syllables` computes: 1 for words of at most three characters,
   * otherwise the vowel groups of the lowered word, less one for a final `e`, and at least 1.
   */
  function SyllableEstimate(word: string): (r: nat)
    ensures r >= 1
  {
    var w := Lower(word);
    if |w| <= 3 then 1
    else
      var groups := VowelGroups(w) - (if w[|w| - 1] == 'e' then 1 else 0);
      if groups < 1 then 1 else groups
  }

  /** Extending a prefix by one character adds a group exactly when it starts a vowel run. */
  lemma VowelGroupsStep(w: string, i: nat)
    requires i < |w|
    ensures VowelGroups(w[..i + 1]) ==
            VowelGroups(w[..i]) + (if IsVowel(w[i]) && (i == 0 || !IsVowel(w[i - 1])) then 1 else 0)
  {
    assert w[..i + 1][..i] == w[..i];
  }

  /** `_count_syllables(word)`: a scan that counts a syllable at each vowel following a non-vowel. */
  method CountSyllables(word: string) returns (count: nat)
    ensures count == SyllableEstimate(word)
  {
    var w := Lower(word);
    if |w| <= 3 {
      return 1;
    }
    var groups := 0;
    var prevWasVowel := false;
    var i := 0;
    while i < |w|
      invariant 0 <= i <= |w|
      invariant groups == VowelGroups(w[..i])
      invariant prevWasVowel == (i > 0 && IsVowel(w[i - 1]))
    {
      var isVowel := IsVowel(w[i]);
      VowelGroupsStep(w, i);
      if isVowel && !prevWasVowel {
        groups := groups + 1;
      }
      prevWasVowel := isVowel;
      i := i + 1;
    }
    assert w[..i] == w;
    if w[|w| - 1] == 'e' {
      groups := groups - 1;
    }
    count := if groups < 1 then 1 else groups;
  }

  /** Vowel groups are separated by at least one other character. */
  lemma {:induction false} VowelGroupsBound(w: string)
    ensures 2 * VowelGroups(w) <= |w| + 1
    ensures |w| > 0 && !IsVowel(w[|w| - 1]) ==> 2 * VowelGroups(w) <= |w|
  {
    if w != [] {
      var k := |w| - 1;
      VowelGroupsBound(w[..k]);
      if k > 0 {
        assert w[..k][k - 1] == w[k - 1];
      }
    }
  }

  /** A word never gets more syllables than half its length, rounded up. */
  lemma SyllableBound(word: string)
    requires |word| >= 1
    ensures SyllableEstimate(word) <= (|word| + 1) / 2
  {
    var w := Lower(word);
    VowelGroupsBound(w);
    if |w| > 3 && w[|w| - 1] != 'e' && IsVowel(w[|w| - 1]) {
      // a final vowel other than `e` counts, but then `2 * groups <= |w| + 1` is enough
      assert 2 * VowelGroups(w) <= |w| + 1;
    }
  }

  lemma SyllableOfShortWord(word: string)
    requires word == "cat"
    ensures SyllableEstimate(word) == 1
  {
  }

  lemma SyllablesOfHello(word: string)
    requires word == "Hello"
    ensures SyllableEstimate(word) == 2
  {
    LowerOfHello(word);
    VowelGroupsOfHello(Lower(word));
  }

  lemma LowerOfHello(word: string)
    requires word == "Hello"
    ensures Lower(word) == "hello"
  {
    assert LowerChar(word[0]) == 'h';
  }

  lemma VowelGroupsOfHello(w: string)
    requires w == "hello"
    ensures VowelGroups(w) == 2
  {
    VowelGroupsStep(w, 0);
    VowelGroupsStep(w, 1);
    VowelGroupsStep(w, 2);
    VowelGroupsStep(w, 3);
    VowelGroupsStep(w, 4);
    assert w[..5] == w;
  }

  lemma SyllablesOfTape(word: string)
    requires word == "tape"
    ensures SyllableEstimate(word) == 1
  {
    var w := Lower(word);
    assert w == "tape";
    VowelGroupsStep(w, 0);
    VowelGroupsStep(w, 1);
    VowelGroupsStep(w, 2);
    VowelGroupsStep(w, 3);
    assert w[..4] == w;
  }

  // ---------------------------------------------------------------- readability

  predicate IsTerminator(c: char) { c == '.' || c == '!' || c == '?' }
  predicate NotTerminator(c: char) { !IsTerminator(c) }

  /** `re.split(r'[.!?]+', s)`: the pieces between maximal runs of sentence terminators. */
  function SplitTerminators(s: string): (r: seq<string>)
    ensures |r| >= 1
    decreases |s|
  {
    var i := SpanLen(s, NotTerminator);
    if i == |s| then [s]
    else
      var j := i + SpanLen(s[i..], IsTerminator);
      [s[..i]] + SplitTerminators(s[j..])
  }

  function Concat(ps: seq<string>): string
  {
    if ps == [] then [] else ps[0] + Concat(ps[1..])
  }

  /** `s` with every sentence terminator removed. */
  function DropTerminators(s: string): string
  {
    if s == [] then [] else (if IsTerminator(s[0]) then [] else [s[0]]) + DropTerminators(s[1..])
  }

  lemma {:induction false} DropTerminatorsAppend(a: string, b: string)
    ensures DropTerminators(a + b) == DropTerminators(a) + DropTerminators(b)
  {
    if a == [] {
      assert a + b == b;
    } else {
      assert (a + b)[1..] == a[1..] + b;
      DropTerminatorsAppend(a[1..], b);
    }
  }

  lemma {:induction false} DropNoTerminators(s: string)
    requires TerminatorFree(s)
    ensures DropTerminators(s) == s
  {
    if s != [] {
      DropNoTerminators(s[1..]);
    }
  }

  lemma {:induction false} DropOnlyTerminators(s: string)
    requires forall i :: 0 <= i < |s| ==> IsTerminator(s[i])
    ensures DropTerminators(s) == []
  {
    if s != [] {
      DropOnlyTerminators(s[1..]);
    }
  }

  predicate TerminatorFree(s: string) { forall j :: 0 <= j < |s| ==> !IsTerminator(s[j]) }

  /** No piece holds a terminator. */
  lemma {:induction false} SplitTerminatorsPieces(s: string)
    ensures forall k :: 0 <= k < |SplitTerminators(s)| ==> TerminatorFree(SplitTerminators(s)[k])
    decreases |s|
  {
    var i := SpanLen(s, NotTerminator);
    if i < |s| {
      var j := i + SpanLen(s[i..], IsTerminator);
      SplitTerminatorsPieces(s[j..]);
      var r := SplitTerminators(s);
      assert r == [s[..i]] + SplitTerminators(s[j..]);
    }
  }

  lemma ConcatCons(p: string, rest: seq<string>)
    ensures Concat([p] + rest) == p + Concat(rest)
  {
    assert ([p] + rest)[1..] == rest;
  }

  /** Dropping the terminators of text, terminator run, rest. */
  lemma {:induction false} DropAcrossRun(s: string, i: nat, j: nat)
    requires i <= j <= |s|
    requires TerminatorFree(s[..i])
    requires forall k :: i <= k < j ==> IsTerminator(s[k])
    ensures DropTerminators(s) == s[..i] + DropTerminators(s[j..])
  {
    var a, b, c := s[..i], s[i..j], s[j..];
    assert s == a + (b + c);
    forall k | 0 <= k < |b| ensures IsTerminator(b[k]) {
      assert b[k] == s[i + k];
    }
    DropTerminatorsAppend(a, b + c);
    DropTerminatorsAppend(b, c);
    DropNoTerminators(a);
    DropOnlyTerminators(b);
  }

  /** The pieces hold exactly the text's characters other than the terminators, in order. */
  lemma {:induction false} SplitTerminatorsKeepsText(s: string)
    ensures Concat(SplitTerminators(s)) == DropTerminators(s)
    decreases |s|
  {
    var i := SpanLen(s, NotTerminator);
    if i == |s| {
      DropNoTerminators(s);
      ConcatCons(s, []);
    } else {
      var j := i + SpanLen(s[i..], IsTerminator);
      SplitTerminatorsKeepsText(s[j..]);
      ConcatCons(s[..i], SplitTerminators(s[j..]));
      DropAcrossRun(s, i, j);
    }
  }

  /** Text without a terminator is a single piece. */
  lemma SplitTerminatorsWhole(s: string)
    requires TerminatorFree(s)
    ensures SplitTerminators(s) == [s]
  {
    SpanLenIs(s, NotTerminator, |s|);
  }

  /**
   * A maximal run of terminators ends a piece: the pieces of `a + t + b`, where `a` has
   * no terminator, `t` is a non-empty run of them and `b` does not start with one, are
   * `a` and then the pieces of `b`. With `SplitTerminatorsWhole` this determines the
   * pieces of every text, so there is one more piece than there are terminator runs.
   */
  lemma SplitTerminatorsStep(a: string, t: string, b: string)
    requires TerminatorFree(a)
    requires t != [] && forall k :: 0 <= k < |t| ==> IsTerminator(t[k])
    requires b == [] || !IsTerminator(b[0])
    ensures SplitTerminators(a + t + b) == [a] + SplitTerminators(b)
  {
    var s, u := a + t + b, t + b;
    assert s[..|a|] == a && s[|a|..] == u;
    assert forall k :: 0 <= k < |a| ==> NotTerminator(s[k]) by {
      assert forall k :: 0 <= k < |a| ==> s[k] == a[k];
    }
    assert !NotTerminator(s[|a|]) by {
      assert s[|a|] == t[0];
    }
    SpanLenIs(s, NotTerminator, |a|);
    assert forall k :: 0 <= k < |t| ==> IsTerminator(u[k]) by {
      assert forall k :: 0 <= k < |t| ==> u[k] == t[k];
    }
    assert u[|t|..] == b;
    SpanLenIs(u, IsTerminator, |t|);
    assert s[|a| + |t|..] == b;
  }

  /** The stripped pieces that are not blank. */
  /** `[f(p) for p in ps]`. */
  function MapEach(ps: seq<string>, f: string -> string): (r: seq<string>)
    ensures |r| == |ps| && forall k :: 0 <= k < |ps| ==> r[k] == f(ps[k])
  {
    seq(|ps|, k requires 0 <= k < |ps| => f(ps[k]))
  }

  /** `[p.strip() for p in ps]`. */
  function StripEach(ps: seq<string>): (r: seq<string>)
  {
    MapEach(ps, Strip)
  }

  predicate NonEmpty(w: string) { w != [] }

  /** `[p.strip() for p in ps if p.strip()]`: the stripped pieces that are not blank. */
  function NonBlank(ps: seq<string>): (r: seq<string>)
  {
    KeepIf(StripEach(ps), NonEmpty)
  }

  /** Every kept sentence is a non-empty stripped piece. */
  lemma NonBlankSound(ps: seq<string>)
    ensures |NonBlank(ps)| <= |ps|
    ensures forall i :: 0 <= i < |NonBlank(ps)| ==>
              NonBlank(ps)[i] != [] && exists k :: 0 <= k < |ps| && NonBlank(ps)[i] == Strip(ps[k])
  {
    var r, t := NonBlank(ps), StripEach(ps);
    forall i | 0 <= i < |r| ensures r[i] != [] && exists k :: 0 <= k < |ps| && r[i] == Strip(ps[k]) {
      assert r[i] in r;
      var k :| 0 <= k < |t| && t[k] == r[i];
    }
  }

  /** Every piece that is not all whitespace is kept, stripped. */
  lemma NonBlankComplete(ps: seq<string>)
    ensures forall k :: 0 <= k < |ps| && !AllSpace(ps[k]) ==> Strip(ps[k]) in NonBlank(ps)
  {
    var t := StripEach(ps);
    forall k | 0 <= k < |ps| && !AllSpace(ps[k]) ensures Strip(ps[k]) in NonBlank(ps) {
      assert t[k] in t && NonEmpty(t[k]);
    }
  }

  /** Keeping the non-blank pieces keeps their order: it works piece by piece. */
  lemma NonBlankAppend(a: seq<string>, b: seq<string>)
    ensures NonBlank(a + b) == NonBlank(a) + NonBlank(b)
  {
    MapEachAppend(a, b, Strip);
    KeepIfAppend(StripEach(a), StripEach(b), NonEmpty);
  }

  lemma MapEachAppend(a: seq<string>, b: seq<string>, f: string -> string)
    ensures MapEach(a + b, f) == MapEach(a, f) + MapEach(b, f)
  {
    var x, y := MapEach(a + b, f), MapEach(a, f) + MapEach(b, f);
    forall k | 0 <= k < |x| ensures x[k] == y[k] {
      if k < |a| {
        assert (a + b)[k] == a[k];
      } else {
        assert (a + b)[k] == b[k - |a|];
      }
    }
  }

  /** A single piece is kept, stripped, exactly when it is not all whitespace. */
  lemma NonBlankOne(p: string)
    ensures NonBlank([p]) == if AllSpace(p) then [] else [Strip(p)]
  {
    var t := StripEach([p]);
    assert t == [Strip(p)];
    assert t[1..] == [];
  }

  lemma StripIdempotent(s: string)
    ensures Strip(Strip(s)) == Strip(s)
  {
    var t := Strip(s);
    if t != [] {
      assert StripStart(t) == 0;
      assert TrailingSpace(t) == 0;
    } else {
      assert AllSpace(t);
    }
  }

  lemma {:induction false} StripKeepsTerminatorFree(s: string)
    requires TerminatorFree(s)
    ensures TerminatorFree(Strip(s))
  {
    var a := StripStart(s);
    forall j | 0 <= j < |Strip(s)| ensures !IsTerminator(Strip(s)[j]) {
      assert Strip(s)[j] == s[a + j];
    }
  }

  /** The sentences `analyze_readability` counts. */
  function Sentences(content: string): (r: seq<string>)
    ensures forall i :: 0 <= i < |r| ==> r[i] != []
  {
    NonBlankSound(SplitTerminators(content));
    NonBlank(SplitTerminators(content))
  }

  /**
   * Every sentence is non-empty text without surrounding whitespace and without a
   * terminator inside it, and every piece that is not blank gives a sentence.
   */
  lemma {:induction false} SentencesAreClean(content: string)
    ensures var r := Sentences(content);
      forall i :: 0 <= i < |r| ==>
        r[i] != [] && Strip(r[i]) == r[i] && forall j :: 0 <= j < |r[i]| ==> !IsTerminator(r[i][j])
    ensures var ps := SplitTerminators(content);
      forall k :: 0 <= k < |ps| && !AllSpace(ps[k]) ==> Strip(ps[k]) in Sentences(content)
  {
    var ps := SplitTerminators(content);
    var r := Sentences(content);
    SplitTerminatorsPieces(content);
    NonBlankSound(ps);
    NonBlankComplete(ps);
    forall i | 0 <= i < |r|
      ensures Strip(r[i]) == r[i] && forall j :: 0 <= j < |r[i]| ==> !IsTerminator(r[i][j])
    {
      var k :| 0 <= k < |ps| && r[i] == Strip(ps[k]);
      StripIdempotent(ps[k]);
      StripKeepsTerminatorFree(ps[k]);
    }
  }

  function SyllableTotal(words: seq<string>): nat
  {
    if words == [] then 0 else SyllableEstimate(words[0]) + SyllableTotal(words[1..])
  }

  lemma {:induction false} SyllableTotalAtLeastWords(words: seq<string>)
    ensures SyllableTotal(words) >= |words|
  {
    if words != [] {
      SyllableTotalAtLeastWords(words[1..]);
    }
  }

  /**
   * The result of `analyze_readability`: `Empty` is the all-zero dictionary returned
   * when the text has no sentence or no word.
   */
  datatype Readability =
    | Empty
    | Metrics(sentences: nat, words: nat, syllables: nat,
              avgWordsPerSentence: real, avgSyllablesPerWord: real, fleschReadingEase: real)

  function Clamp(x: real): (r: real)
    ensures 0.0 <= r <= 100.0
    ensures 0.0 <= x <= 100.0 ==> r == x
  {
    if x < 0.0 then 0.0 else if x > 100.0 then 100.0 else x
  }

  /** The metrics computed from the three counts. */
  function MetricsOf(sentences: nat, words: nat, syllables: nat): Readability
  {
    if sentences == 0 || words == 0 then Empty
    else
      var wps := words as real / sentences as real;
      var spw := syllables as real / words as real;
      Metrics(sentences, words, syllables, wps, spw, Clamp(206.835 - 1.015 * wps - 84.6 * spw))
  }

  /** `analyze_readability(content)`, before the averages are rounded. */
  function ReadabilityOf(content: string): (r: Readability)
    ensures r.Metrics? ==> r.syllables >= r.words && 0.0 <= r.fleschReadingEase <= 100.0
  {
    var words := WordRuns(content);
    SyllableTotalAtLeastWords(words);
    MetricsOf(|Sentences(content)|, |words|, SyllableTotal(words))
  }

  lemma Quotient(a: nat, b: nat)
    requires b > 0
    ensures (a as real / b as real) * b as real == a as real
    ensures a >= b ==> a as real / b as real >= 1.0
  {
  }

  /** Averages that multiply back to the counts, at least one syllable per word, a score within [0, 100]. */
  predicate Consistent(r: Readability)
  {
    r.Metrics? ==>
      && r.syllables >= r.words
      && r.avgWordsPerSentence * r.sentences as real == r.words as real
      && r.avgSyllablesPerWord * r.words as real == r.syllables as real
      && r.avgSyllablesPerWord >= 1.0
      && 0.0 <= r.fleschReadingEase <= 100.0
  }

  lemma {:induction false} MetricsOfSpec(sentences: nat, words: nat, syllables: nat)
    requires syllables >= words
    ensures var r := MetricsOf(sentences, words, syllables);
      && (r.Empty? <==> sentences == 0 || words == 0)
      && (r.Metrics? ==> r.sentences == sentences && r.words == words && r.syllables == syllables)
      && Consistent(r)
  {
    if sentences > 0 && words > 0 {
      Quotient(words, sentences);
      Quotient(syllables, words);
    }
  }

  /**
   * What `analyze_readability` reports: no metrics exactly when there is no sentence or
   * no word; otherwise the numbers of sentences and words, the syllable total of the
   * words (at least one per word), averages that multiply back to the counts, and a reading ease within [0, 100].
   */
  lemma {:induction false} ReadabilitySpec(content: string)
    ensures var r := ReadabilityOf(content);
      && (r.Empty? <==> |Sentences(content)| == 0 || |WordRuns(content)| == 0)
      && (r.Metrics? ==> r.sentences == |Sentences(content)| && r.words == |WordRuns(content)|)
      && (r.Metrics? ==> r.syllables == SyllableTotal(WordRuns(content)))
      && Consistent(r)
  {
    var words := WordRuns(content);
    SyllableTotalAtLeastWords(words);
    MetricsOfSpec(|Sentences(content)|, |words|, SyllableTotal(words));
  }

  // ---------------------------------------------------------------- sentiment

  /** The word lists of `analyze_sentiment_indicators`. */
  const PositiveWords: set<string> := {
    "good", "great", "excellent", "amazing", "wonderful", "fantastic", "awesome",
    "love", "like", "enjoy", "happy", "pleased", "satisfied", "excited",
    "success", "successful", "achievement", "accomplish", "complete", "done"
  }
  const NegativeWords: set<string> := {
    "bad", "terrible", "awful", "horrible", "hate", "dislike", "angry", "upset",
    "frustrated", "annoyed", "disappointed", "fail", "failure", "problem",
    "issue", "bug", "error", "broken", "difficult", "hard", "challenging"
  }
  const UrgentWords: set<string> := {
    "urgent", "asap", "immediately", "critical", "important", "priority",
    "deadline", "due", "emergency", "fix", "resolve", "address"
  }

  /** No word is in two of the lists. */
  lemma PositiveNotNegative() ensures PositiveWords !! NegativeWords {}
  lemma PositiveNotUrgent() ensures PositiveWords !! UrgentWords {}
  lemma NegativeNotUrgent() ensures NegativeWords !! UrgentWords {}

  datatype Sentiment = Sentiment(positive: nat, negative: nat, urgent: nat)

  /** How many of `ws` belong to `lexicon`. */
  function CountIn(ws: seq<string>, lexicon: set<string>): (n: nat)
    ensures n <= |ws|
  {
    if ws == [] then 0 else (if ws[0] in lexicon then 1 else 0) + CountIn(ws[1..], lexicon)
  }

  /** `analyze_sentiment_indicators(content)`: lexicon hits among the lowered text's words. */
  function SentimentOf(content: string): (r: Sentiment)
    ensures var n := |WordRuns(Lower(content))|; r.positive <= n && r.negative <= n && r.urgent <= n
  {
    var words := WordRuns(Lower(content));
    Sentiment(CountIn(words, PositiveWords), CountIn(words, NegativeWords), CountIn(words, UrgentWords))
  }

  lemma {:induction false} CountInDisjoint(ws: seq<string>, a: set<string>, b: set<string>, c: set<string>)
    requires a !! b && a !! c && b !! c
    ensures CountIn(ws, a) + CountIn(ws, b) + CountIn(ws, c) <= |ws|
  {
    if ws != [] {
      CountInDisjoint(ws[1..], a, b, c);
    }
  }

  /** Each word counts toward at most one indicator, so the three never exceed the word count. */
  lemma {:induction false} SentimentWithinWords(content: string)
    ensures var r := SentimentOf(content);
      r.positive + r.negative + r.urgent <= |WordRuns(Lower(content))|
  {
    PositiveNotNegative();
    PositiveNotUrgent();
    NegativeNotUrgent();
    CountInDisjoint(WordRuns(Lower(content)), PositiveWords, NegativeWords, UrgentWords);
  }

  /** Counting is by whole word and ignores case: a text that differs only in case scores the same. */
  lemma SentimentIgnoresCase(a: string, b: string)
    requires Lower(a) == Lower(b)
    ensures SentimentOf(a) == SentimentOf(b)
  {
  }

  /** The example sentence, lowered, and its words. */
  const LoweredExample: string := "this is great but the bug is urgent"
  const ExampleWords: seq<string> := ["this", "is", "great", "but", "the", "bug", "is", "urgent"]

  lemma ExampleLowered(content: string, low: string)
    requires content == "This is great but the bug is urgent"
    requires low == LoweredExample
    ensures Lower(content) == low
  {
    assert LowerChar(content[0]) == low[0];
    forall i | 1 <= i < |content| ensures Lower(content)[i] == low[i] {
      assert !IsUpper(content[i]);
    }
  }

  /** A word of the example followed by a space: it is the next run. */
  lemma ExampleStep(low: string, a: nat, i: nat, w: string)
    requires a < i < |low| && |w| == i - a && !IsWordChar(low[i])
    requires forall k :: 0 <= k < |w| ==> low[a + k] == w[k] && IsLetter(w[k])
    ensures Runs(low[a..], IsWordChar) == [w] + Runs(low[i + 1..], IsWordChar)
  {
    assert low[a..i] == w;
    RunsCut(low, a, i, |low|, IsWordChar);
    RunsWhole(w, IsWordChar);
    assert low[a..|low|] == low[a..] && low[i + 1..|low|] == low[i + 1..];
  }

  lemma ExampleRun0(low: string)
    requires low == LoweredExample
    ensures Runs(low[0..], IsWordChar) == ["this"] + Runs(low[5..], IsWordChar)
  {
    ExampleStep(low, 0, 4, "this");
  }

  lemma ExampleRun1(low: string)
    requires low == LoweredExample
    ensures Runs(low[5..], IsWordChar) == ["is"] + Runs(low[8..], IsWordChar)
  {
    ExampleStep(low, 5, 7, "is");
  }

  lemma ExampleRun2(low: string)
    requires low == LoweredExample
    ensures Runs(low[8..], IsWordChar) == ["great"] + Runs(low[14..], IsWordChar)
  {
    ExampleStep(low, 8, 13, "great");
  }

  lemma ExampleRun3(low: string)
    requires low == LoweredExample
    ensures Runs(low[14..], IsWordChar) == ["but"] + Runs(low[18..], IsWordChar)
  {
    ExampleStep(low, 14, 17, "but");
  }

  lemma ExampleRun4(low: string)
    requires low == LoweredExample
    ensures Runs(low[18..], IsWordChar) == ["the"] + Runs(low[22..], IsWordChar)
  {
    ExampleStep(low, 18, 21, "the");
  }

  lemma ExampleRun5(low: string)
    requires low == LoweredExample
    ensures Runs(low[22..], IsWordChar) == ["bug"] + Runs(low[26..], IsWordChar)
  {
    ExampleStep(low, 22, 25, "bug");
  }

  lemma ExampleRun6(low: string)
    requires low == LoweredExample
    ensures Runs(low[26..], IsWordChar) == ["is"] + Runs(low[29..], IsWordChar)
  {
    ExampleStep(low, 26, 28, "is");
  }

  lemma ExampleRunLast(low: string)
    requires low == LoweredExample
    ensures Runs(low[29..], IsWordChar) == ["urgent"]
  {
    var last := low[29..];
    assert forall k :: 0 <= k < 6 ==> last[k] == low[29 + k];
    assert last == "urgent";
    RunsWhole(last, IsWordChar);
  }

  /** The eight steps chain up into the whole list of words. */
  lemma ExampleChain(low: string)
    requires |low| == 35
    requires Runs(low[0..], IsWordChar) == ["this"] + Runs(low[5..], IsWordChar)
    requires Runs(low[5..], IsWordChar) == ["is"] + Runs(low[8..], IsWordChar)
    requires Runs(low[8..], IsWordChar) == ["great"] + Runs(low[14..], IsWordChar)
    requires Runs(low[14..], IsWordChar) == ["but"] + Runs(low[18..], IsWordChar)
    requires Runs(low[18..], IsWordChar) == ["the"] + Runs(low[22..], IsWordChar)
    requires Runs(low[22..], IsWordChar) == ["bug"] + Runs(low[26..], IsWordChar)
    requires Runs(low[26..], IsWordChar) == ["is"] + Runs(low[29..], IsWordChar)
    requires Runs(low[29..], IsWordChar) == ["urgent"]
    ensures WordRuns(low) == ExampleWords
  {
    assert low[0..] == low;
  }

  lemma ExampleWordRuns(low: string)
    requires low == LoweredExample
    ensures WordRuns(low) == ExampleWords
  {
    ExampleRun0(low);
    ExampleRun1(low);
    ExampleRun2(low);
    ExampleRun3(low);
    ExampleRun4(low);
    ExampleRun5(low);
    ExampleRun6(low);
    ExampleRunLast(low);
    ExampleChain(low);
  }

  /** A list with no word of the lexicon counts zero. */
  lemma {:induction false} CountInNone(ws: seq<string>, lexicon: set<string>)
    requires forall k :: 0 <= k < |ws| ==> ws[k] !in lexicon
    ensures CountIn(ws, lexicon) == 0
  {
    if ws != [] {
      CountInNone(ws[1..], lexicon);
    }
  }

  /** A list whose only word of the lexicon is at `h` counts one. */
  lemma {:induction false} CountInOne(ws: seq<string>, h: nat, lexicon: set<string>)
    requires h < |ws| && ws[h] in lexicon
    requires forall k :: 0 <= k < |ws| && k != h ==> ws[k] !in lexicon
    ensures CountIn(ws, lexicon) == 1
  {
    if h == 0 {
      CountInNone(ws[1..], lexicon);
    } else {
      CountInOne(ws[1..], h - 1, lexicon);
    }
  }

  lemma ExamplePositive()
    ensures ExampleWords[2] in PositiveWords
    ensures forall k :: 0 <= k < |ExampleWords| && k != 2 ==> ExampleWords[k] !in PositiveWords
  {
  }

  lemma ExampleNegative()
    ensures ExampleWords[5] in NegativeWords
    ensures forall k :: 0 <= k < |ExampleWords| && k != 5 ==> ExampleWords[k] !in NegativeWords
  {
  }

  lemma ExampleUrgent()
    ensures ExampleWords[7] in UrgentWords
    ensures forall k :: 0 <= k < |ExampleWords| && k != 7 ==> ExampleWords[k] !in UrgentWords
  {
  }

  /** One word of each kind: `great`, `bug` and `urgent`. */
  lemma SentimentExample(content: string)
    requires content == "This is great but the bug is urgent"
    ensures SentimentOf(content) == Sentiment(1, 1, 1)
  {
    var low := LoweredExample;
    ExampleLowered(content, low);
    ExampleWordRuns(low);
    ExamplePositive();
    CountInOne(ExampleWords, 2, PositiveWords);
    ExampleNegative();
    CountInOne(ExampleWords, 5, NegativeWords);
    ExampleUrgent();
    CountInOne(ExampleWords, 7, UrgentWords);
  }

  // ---------------------------------------------------------------- insights

  /** The dictionary `generate_text_insights` returns. */
  datatype Insights = Insights(
    topWords: seq<Entry>, keyPhrases: seq<Entry>, readability: Readability, sentiment: Sentiment)

  /** `generate_text_insights(content)`: the four analyses with the fixed parameters the analyzer uses. */
  method GenerateTextInsights(content: string, includeStopWords: bool) returns (r: Insights)
    ensures r.topWords == WordFrequency(content, 3, 15, includeStopWords) && |r.topWords| <= 15
    ensures r.keyPhrases == MostCommon(NGrams(PhraseWords(content), 2, 4), 8) && |r.keyPhrases| <= 8
    ensures forall i :: 0 <= i < |r.keyPhrases| ==> 2 <= |SplitOn(r.keyPhrases[i].0, ' ')| <= 4
    ensures r.readability == ReadabilityOf(content)
    ensures r.sentiment == SentimentOf(content)
  {
    var topWords := WordFrequency(content, 3, 15, includeStopWords);
    var keyPhrases := FindKeyPhrases(content, 2, 4, 8);
    KeyPhraseShape(content, 2, 4, 8);
    r := Insights(topWords, keyPhrases, ReadabilityOf(content), SentimentOf(content));
  }
}
