# SmartNoteParser core in Dafny

A Dafny model of the core of SmartNoteParser, a tool that reads Markdown and plain-text
notes, extracts their structure and exports it. The model has seven modules in six files:

- `text.dfy` models the Python string primitives the core relies on, over `seq<char>`.
  Module `Wrappers` holds `Option`. Module `Text` holds `lower()`, `strip()`, `split()`,
  `split(sep)` and `sep.join`, `splitlines()`, and the `\w` and `\s` character classes.
- `ranking.dfy` models `collections.Counter(...).most_common(n)`. The tally is an
  insertion-ordered list of (key, count) pairs, sorted by a stable descending insertion
  sort, then cut to `n`.
- `analyzer.dfy` models `TextAnalyzer`: word frequency, key phrases (n-grams), syllable
  estimate, readability and sentiment indicators, and the insights that combine them. The
  n-gram loops and the syllable loop are methods proved against specification functions.
- `parser.dfy` models `NoteParser`: format detection, and the Markdown and plain-text
  extraction of headers, tags and todos. Each regular expression becomes an explicit
  scanner, with the regex engine's backtracking worked out by hand.
- `settings.dfy` models `Config`: the defaults, the recursive merge of a loaded settings
  dictionary, dotted-path lookup and the custom patterns. The object's dictionary is a
  field that the methods reassign.
- `exporter.dfy` models `DataExporter.export_to_csv` up to the hand-off to the CSV
  writer. The four appending loops become methods, proved against the row layout they
  build.

Where the code and its description disagree, the model follows the code:

- Tags are every `#` followed by word characters, so header text such as `## Plan`
  yields no tag, while `#Plan` anywhere does. No header line is excluded.
- The parser extracts no keywords. Exported notes therefore have a keyword count of 0
  (`Exporter.ExportedNoteCounts`).
- Todos are lists that keep repeats and document order. The Markdown parser reads only
  `- [ ] ` items; the text parser reads only `TODO` in any case, with an optional colon.
- The header pattern lets `\s+` run across line ends. So `#\n## Sub` gives the single
  header `(1, "## Sub")`, and the `## Sub` line is not read as a header of its own. The
  model reproduces this (`Parser.HeaderAcrossLines`).
- The sentiment word lists and stop words are exactly those in `analyzer.py`.

## Model

| member | source | states |
|---|---|---|
| Text.Lower | analyzer.py:25 | the result has the input's length; every character is lowered ASCII-wise, so no upper-case letter is left |
| Text.Strip | parser.py:50 | the result is the slice after the leading whitespace with only whitespace after it; it is empty exactly when the input is all whitespace, and otherwise neither end is whitespace |
| Text.SplitWhitespace | exporter.py:19 | the pieces are non-empty, hold no whitespace and use only characters of the input; `Text.RunsSplit` and `Text.RunsWhole` pin down which pieces, in order |
| Text.RunsSplit | exporter.py:19 | a character outside the class splits the runs: the runs of `a + [c] + b` are the runs of `a` followed by the runs of `b` |
| Text.RunsWhole | exporter.py:19 | a non-empty string made only of class characters is a single run |
| Text.RunsOfJoin | analyzer.py:62 | non-empty class pieces joined by an outside character split back into exactly those pieces, in order |
| Text.WordRuns | analyzer.py:62 | the runs are non-empty and made of word characters of the input; as for `split()`, `Text.RunsSplit` and `Text.RunsWhole` determine all maximal runs in order |
| Text.JoinSplit | config.py:85 | joining the pieces of `split(sep)` with `sep` gives back the string |
| Text.SplitJoin | config.py:85 | splitting the join of `sep`-free pieces gives back the pieces |
| Text.SplitOn | config.py:85 | `split(sep)` gives at least one piece, and no piece holds `sep` |
| Text.JoinWith | analyzer.py:49 | joining `k` pieces puts at least `k - 1` separators in the result |
| Text.Lines | exporter.py:20 | `splitlines()` gives at most one line per character of the text |
| Text.LinesStep | exporter.py:20 | a boundary ends a line: the lines of `a`, a boundary and the rest are `a` and then the rest's lines, with `\r\n` read as one boundary |
| Text.LinesLast | exporter.py:20 | a non-empty last line with no boundary after it is one line |
| Text.LineEnd | parser.py:49 | `.+` stops at the first newline at or after its start, or at the end of the text |
| Ranking.Bump | analyzer.py:32 | one `Counter` increment: the counted key goes up by one, or is appended with count 1, and other keys keep their counts and places |
| Ranking.TallyCovers | analyzer.py:32 | the keys of `Counter(ws)` are exactly the elements of `ws` |
| Ranking.TallyCounts | analyzer.py:32 | each key's count is its number of occurrences in `ws` |
| Ranking.TallyFirstSeen | analyzer.py:32 | the keys are in first-occurrence order |
| Ranking.SortDesc | analyzer.py:33 | sorting keeps every entry, as a permutation |
| Ranking.SortOrders | analyzer.py:33 | the sort is by descending count, and ties keep their earlier order (stability) |
| Ranking.Take | analyzer.py:33 | `[:n]` is the prefix of length min(n, len) |
| Ranking.MostCommonCounts | analyzer.py:33 | each entry of `most_common(n)` is an element of the input with its exact count (at least 1), and keys are distinct |
| Ranking.MostCommonOrder | analyzer.py:33 | counts do not increase along the result, and equal counts appear in first-occurrence order |
| Ranking.MostCommonComplete | analyzer.py:33 | an element left out means the result already has `n` entries, each counted more often, or as often and first seen earlier |
| Ranking.Tally | analyzer.py:32 | `Counter(ws)` holds each key once |
| Ranking.InsertDesc | analyzer.py:33 | one insertion step keeps every entry and adds the new one, as a multiset |
| Ranking.RankedCounts | analyzer.py:33 | every ranked entry is an element of the input with its exact count |
| Ranking.MostCommon | analyzer.py:33 | `most_common(n)` has at most `n` entries |
| Analyzer.KeepIf | analyzer.py:29 | the comprehension keeps exactly the elements that pass the test, with their multiplicities, and is no longer than its input |
| Analyzer.KeepIfAppend | analyzer.py:29 | filtering a concatenation is filtering each part, so the kept elements stay in their order |
| Analyzer.FrequencyTokens | analyzer.py:25-29 | the counted words are lower-case letter words of at least `min_length` letters, and not stop words unless those are included |
| Analyzer.FrequencyTokensComplete | analyzer.py:25-29 | every counted word is a word of the lowered text, and every qualifying word appears as often as in the lowered text |
| Analyzer.WordFrequency | analyzer.py:22-33 | `analyze_word_frequency` returns at most `top_n` entries |
| Analyzer.WordFrequencySpec | analyzer.py:22-33 | `analyze_word_frequency` returns at most `top_n` distinct such words with their exact counts, by descending count with ties in first-occurrence order; a word left out means `top_n` entries were returned, each more frequent, or as frequent and seen first |
| Analyzer.Clean | analyzer.py:38 | `re.sub(r'[^\w\s]', ' ', ...)` keeps the length, keeps every word character and whitespace character in place, and turns every other character into a space |
| Analyzer.PhraseWords | analyzer.py:38-42 | every phrase word has at least three characters, is not a stop word and has no space; each such word is kept as often as it occurs in the cleaned, lowered text |
| Analyzer.NGrams | analyzer.py:47-50 | every pooled phrase is a window of `n` words for some `n` between `min_words` and `max_words` |
| Analyzer.Windows | analyzer.py:48-50 | there are `len(words) - n + 1` windows of `n` words, or none |
| Analyzer.AppendWindows | analyzer.py:48-50 | the inner loop appends the windows of `n` consecutive words in order |
| Analyzer.PooledNGrams | analyzer.py:44-50 | the nested loops build the windows for n = `min_words` .. `max_words`, in that order |
| Analyzer.NGramsAreWindows | analyzer.py:47-50 | every pooled phrase is `n` consecutive words joined by spaces, with `min_words` <= n <= `max_words` |
| Analyzer.PhrasesAreWordRuns | analyzer.py:47-50 | a pooled phrase splits back into between `min_words` and `max_words` words, each a filtered phrase word |
| Analyzer.FindKeyPhrases | analyzer.py:35-54 | `find_key_phrases` ranks the pooled n-grams with `most_common(top_n)` |
| Analyzer.KeyPhraseShape | analyzer.py:35-54 | the key phrases number at most `top_n`, and each has between `min_words` and `max_words` phrase words |
| Analyzer.CountSyllables | analyzer.py:84-105 | the loop computes the estimate: 1 for words of at most three characters, otherwise the vowel groups of the lowered word, less one for a final `e`, and at least 1 |
| Analyzer.SyllableEstimate | analyzer.py:105 | the estimate is at least 1 |
| Analyzer.VowelGroups | analyzer.py:95-99 | a word has at most one vowel group per character |
| Analyzer.VowelGroupsBound | analyzer.py:95-99 | a word of length L has at most (L + 1) / 2 vowel groups, and at most L / 2 when it ends in a consonant |
| Analyzer.SyllableBound | analyzer.py:84-105 | the estimate never exceeds (len(word) + 1) / 2 |
| Analyzer.SyllableOfShortWord | analyzer.py:87-88 | `cat` counts as one syllable |
| Analyzer.SyllablesOfHello | analyzer.py:86-105 | `Hello` is lowered first and counts two syllables |
| Analyzer.SyllablesOfTape | analyzer.py:102-103 | the final `e` of `tape` is silent: one syllable |
| Analyzer.SplitTerminators | analyzer.py:59 | `re.split` always gives at least one piece |
| Analyzer.SplitTerminatorsWhole | analyzer.py:59 | text without a terminator is one piece, itself |
| Analyzer.SplitTerminatorsStep | analyzer.py:59 | a maximal terminator run ends a piece: `a`, the run and the rest split into `a` and then the rest's pieces; with `SplitTerminatorsWhole` this gives one piece more than there are terminator runs |
| Analyzer.SplitTerminatorsPieces | analyzer.py:59 | no piece of `re.split(r'[.!?]+', ...)` holds a terminator |
| Analyzer.SplitTerminatorsKeepsText | analyzer.py:59 | the pieces, concatenated, are the text with its terminators removed |
| Analyzer.NonBlankSound | analyzer.py:60 | the kept sentences are no more than the pieces, and each is the non-empty stripped form of some piece |
| Analyzer.NonBlankComplete | analyzer.py:60 | every piece that is not all whitespace is kept, stripped |
| Analyzer.NonBlankAppend | analyzer.py:60 | the comprehension over two runs of pieces is the two comprehensions in order |
| Analyzer.NonBlankOne | analyzer.py:60 | one piece gives its stripped form, or nothing when it is all whitespace |
| Analyzer.Sentences | analyzer.py:59-60 | every sentence is non-empty |
| Analyzer.SentencesAreClean | analyzer.py:59-60 | every sentence is non-empty, already stripped and free of terminators, and every piece between terminators that is not all whitespace is a sentence, stripped |
| Analyzer.SyllableTotalAtLeastWords | analyzer.py:63 | the syllable total is at least the number of words |
| Analyzer.Clamp | analyzer.py:73 | the score lies within [0, 100] and is unchanged inside that range |
| Analyzer.MetricsOfSpec | analyzer.py:65-73 | no metrics exactly when there is no sentence or no word; otherwise the counts are kept, the averages multiply back to them and the score is clamped |
| Analyzer.ReadabilitySpec | analyzer.py:56-82 | `analyze_readability` gives the empty result exactly when there is no sentence or no word; otherwise it gives the sentence and word counts, the syllable total of the words, at least one syllable per word, consistent averages and a reading ease within [0, 100] |
| Analyzer.ReadabilityOf | analyzer.py:56-82 | metrics have at least as many syllables as words and a reading ease within [0, 100] |
| Analyzer.CountIn | analyzer.py:129-131 | a lexicon count never exceeds the number of words |
| Analyzer.CountInOne | analyzer.py:129-131 | words with exactly one lexicon hit count one |
| Analyzer.CountInDisjoint | analyzer.py:129-131 | hits counted against three disjoint word lists add up to at most the number of words |
| Analyzer.SentimentOf | analyzer.py:107-132 | each indicator count is at most the number of words of the lowered text |
| Analyzer.SentimentWithinWords | analyzer.py:107-132 | the three indicator counts together never exceed the number of words |
| Analyzer.SentimentIgnoresCase | analyzer.py:126 | texts equal after lowering score the same |
| Analyzer.SentimentExample | analyzer.py:107-132 | `This is great but the bug is urgent` has one positive, one negative and one urgent indicator |
| Analyzer.GenerateTextInsights | analyzer.py:134-154 | the insights are the top 15 words, the top 8 phrases of two to four words, the readability and the sentiment of the same text |
| Parser.DetectFormat | parser.py:32-36 | only an extension of three or nine characters can be Markdown |
| Parser.DetectFormatSpec | parser.py:32-36 | the format is Markdown exactly when the lowered extension is `.md` or `.markdown` |
| Parser.DetectFormatExamples | parser.py:32-36 | `.md`, `.MD` and `.Markdown` are Markdown; `.txt`, `` and `.mdx` are text |
| Parser.HashCount | parser.py:49 | counts the `#` run at a position, stopping at the first other character |
| Parser.RestStart | parser.py:49 | where `\s*(.+)` starts `.+`: the largest candidate, after giving back whitespace, that is not a newline; none when only newlines remain |
| Parser.HeaderAt | parser.py:49 | a match has one to six `#`, whitespace, then a title running to its line end, and its level is the number of `#` |
| Parser.HeaderScanSound | parser.py:49 | every header found starts a line and is a well-formed match |
| Parser.HeaderScanOrdered | parser.py:49 | the headers are in document order and do not overlap |
| Parser.HeaderScanComplete | parser.py:49 | no matching line start is skipped: it starts a header or lies inside the previous match |
| Parser.HeaderOfLine | parser.py:49 | an ordinary header line matches at its start, with the number of `#` as level and a title that runs from the first non-space to the line end |
| Parser.StripFromSpaceEnd | parser.py:50 | the stripped title does not depend on the whitespace `\s+` took |
| Parser.NoHeaderAtSevenHashes | parser.py:49 | a run of seven `#` never starts a header |
| Parser.HeaderAcrossLines | parser.py:49-50 | `#\n## Sub` yields exactly the header (1, `## Sub`) |
| Parser.TagScan | parser.py:53 | every tag found directly follows a `#` at or after the scan position, as its maximal word-character run |
| Parser.Tags | parser.py:53-54 | every tag in the set directly follows some `#` |
| Parser.TagScanComplete | parser.py:53 | every `#` followed by a word-character run contributes that run |
| Parser.TagsSpec | parser.py:53-54 | a string is a tag exactly when some `#` is followed by exactly that maximal run of word characters; tags are non-empty |
| Parser.CheckboxTodos | parser.py:57 | every checkbox todo is non-empty and lies within one line |
| Parser.CheckboxTodosOfLine | parser.py:57 | on one line, the scan yields the text after the line's first `- [ ] `, if any text follows |
| Parser.CheckboxTodosByLine | parser.py:57-58 | the todos are, line by line, the text after each line's first unchecked box, in order and with repeats |
| Parser.NoBoxNoCheckboxTodos | parser.py:57 | text without `- [ ] ` has no checkbox todo |
| Parser.TodoAt | parser.py:76 | a match at `p` is `TODO` in any case, an optional colon, whitespace, then a todo from a non-newline to its line end; with `TODO` at `p` there is no match only when nothing but whitespace follows |
| Parser.TodoScanSound | parser.py:76 | every match of the scan has that shape |
| Parser.TodoScanOrdered | parser.py:76 | the matches start at or after the scan position, in document order, without overlap |
| Parser.TodoScanComplete | parser.py:76 | a position where a match starts is never skipped: it lies inside some match of the scan |
| Parser.KeywordTodos | parser.py:76 | every keyword todo is non-empty and lies within one line |
| Parser.KeywordTodosSpec | parser.py:76-77 | the todos are, in document order, the texts of the scan's matches, each anchored at a `TODO`; the matches do not overlap and every matching position is covered |
| Parser.SingleKeywordTodo | parser.py:76-77 | a match at the start that leaves fewer than four characters gives exactly that one todo |
| Parser.NoTodoNoKeywordTodos | parser.py:76-77 | text with no `todo`, in any case, at any position has no keyword todo |
| Parser.KeywordTodoAfterColon | parser.py:76 | `TODO: buy milk` yields `buy milk` |
| Parser.KeywordTodoOnNextLine | parser.py:76 | `\s*` crosses the line end: `todo:\n  call` yields `call` |
| Parser.KeywordTodoBareColon | parser.py:76 | `TODO:\n` yields `:`, since the optional colon is given back |
| Parser.ParseMarkdown | parser.py:38-60 | the Markdown note keeps the content, and each todo is non-empty and lies within one line |
| Parser.ParseText | parser.py:62-79 | the text note keeps the content, and each todo is non-empty and lies within one line |
| Parser.Parse | parser.py:25-30 | the parser is chosen by the detected format; the note keeps the content and has the content's tags |
| Settings.Merged | config.py:74-79 | the merged keys are the default keys plus the loaded ones |
| Settings.MergeDict | config.py:74-79 | the loop over loaded keys produces the recursive merge, whatever order it takes the keys in |
| Settings.MergeKey | config.py:76-79 | one key: a dictionary over a dictionary is merged recursively, anything else overwrites |
| Settings.MergedAlongPath | config.py:76-77 | where both sides hold dictionaries at a path, the result holds their merge there |
| Settings.DefaultKeptAtDepth | config.py:74-79 | a default key the loaded dictionary lacks keeps its value, at any depth |
| Settings.LoadedWinsAtDepth | config.py:78-79 | a loaded key that is not a dictionary over a dictionary replaces the default, at any depth |
| Settings.MergedSelf | config.py:74-79 | merging a dictionary into itself changes nothing |
| Settings.MergeIdempotent | config.py:72-81 | merging the same loaded settings twice equals merging them once |
| Settings.Config.constructor | config.py:32-37 | the object starts with the defaults, merged with the loaded dictionary when there is one |
| Settings.Config.MergeConfig | config.py:72-81 | the object's settings become their merge with the loaded dictionary |
| Settings.Config.Get | config.py:83-94 | the loop walks the dotted path and returns the value reached, or the default at the first missing key or non-dictionary |
| Settings.DescendAppend | config.py:88-92 | following a path in two parts is following the first part, then the second from there |
| Settings.DescendFails | config.py:88-92 | the walk fails exactly when some segment meets a non-dictionary or a missing key |
| Settings.GetFollowsSegments | config.py:83-94 | `get` on segments joined by dots follows exactly those segments |
| Settings.GetPair | config.py:83-94 | a two-segment path that exists returns the nested value |
| Settings.DottedPair | config.py:85 | a path of two dot-free segments joined by a dot splits into exactly those two segments |
| Settings.Config.GetCustomPatterns | config.py:101-106 | the tag and todo patterns are the two dotted lookups, each defaulting to an empty list |
| Settings.DefaultTagPatterns | config.py:13 | by default the custom tag patterns are an empty list |
| Settings.DefaultTodoPatterns | config.py:14 | by default the custom todo patterns are `TODO:`, `FIXME:` and `NOTE:` |
| Settings.DefaultMaxTagsShown | config.py:25 | by default the summary shows at most ten tags |
| Exporter.AppendHeaders | exporter.py:29-41 | the header loop appends one row per (level, title) pair, in order |
| Exporter.AppendItems | exporter.py:44-86 | each of the tag, keyword and todo loops appends one row per item, in order |
| Exporter.ExportRows | exporter.py:13-86 | the rows are the info row, then the header, tag, keyword and todo rows |
| Exporter.RowsLayout | exporter.py:13-86 | there is one row per item plus the info row; the info row comes first, every row has the document's format, and every other row has blank count columns |
| Exporter.InfoRowCounts | exporter.py:16-26 | the info row counts the content's words and lines and each section's items, and has no level or content |
| Exporter.HeaderRowsInOrder | exporter.py:29-41 | each header row carries its level and title, in header order |
| Exporter.TagRowsInOrder | exporter.py:44-56 | each tag row carries its tag, in the order the tags are listed |
| Exporter.KeywordRowsInOrder | exporter.py:59-71 | each keyword row carries its keyword, in order |
| Exporter.TodoRowsInOrder | exporter.py:74-86 | each todo row carries its todo, in order |
| Exporter.RowsOfKind | exporter.py:13-86 | each kind of row appears once per item of its own section |
| Exporter.CountsMatchRows | exporter.py:16-86 | the info row's counts equal the numbers of header, tag, keyword and todo rows |
| Exporter.ExportedNoteCounts | exporter.py:16-26 | for a parsed note, the info row counts its headers (none for a text note), its distinct tags, no keywords and its todos |

## Left out

- File reading in `parse_file`, the missing-file error, and the exporter's file writing are not modelled. The CSV and JSON writers (pandas and `json.dump`), `export_to_json`, column ordering and CSV quoting are also left out.
- `Config` discovery (`_find_config_file`), `load_config` and `save_default_config` are out, because they do file and YAML/JSON I/O. The constructor takes what loading produced.
- `Config` values have value semantics. `DEFAULT_CONFIG.copy()` is shallow, so in the source a merge writes into the nested default dictionaries shared with the class. That aliasing is not modelled.
- Settings values are null, booleans, integers, strings, lists and string-keyed dictionaries. Floats and non-string keys are not modelled.
- Analyzer.ReadabilityOf: averages and the score are exact reals. `round(..., 2)` and `round(..., 1)` and IEEE floating point are not modelled.
- Character classes are ASCII: Python's Unicode `\w`, `\s` and `lower()` beyond A-Z are not modelled.
- Analyzer.WordFrequency and Analyzer.FindKeyPhrases require a minimum length or word count of at least 1. The regex `{0,}` and `range` with a non-positive `n` are not modelled.
- Exporter.NoteData: a tag set's iteration order is not modelled. The tags are given as a list, each tag once.
- `watcher.py`, `main.py` and `setup.py` (file watching, the command line and packaging) are not part of this model.
- `TextAnalyzer.__init__` has no separate member: its one setting, `include_stop_words`, is passed to the operations that read it.
