# translator-sama in Dafny

A model of `translator.py`, the script that turns a Japanese "Appraisal" block
(the status screen of a character: kind, level, name, HP/MP/SP, average
abilities, skills, skill points, titles) into an English report, with a
JP→EN dictionary of names that it reads, consults and can write back.

The model has three parts, as the script does:

- **Translation store** (`store.dfy`, module `Store`). The loop of
  `read_dictionary_file` over the file's lines, the class
  `TranslationStore` that replaces the globals `dictionary` and
  `missing_words`, `translate`, `dictionary_cmp`, and
  `write_dictionary_file` down to the text it writes. Reading is specified
  by `LoadDictionary` and proved equal to "strip, drop blank and comment
  lines, pair the rest, last pair wins". Writing is proved sorted,
  independent of the collection order, and to read back as the original
  dictionary.
- **Field extractor** (`extractor.dfy`, facts in `extractor_facts.dfy`, the
  regex shapes in `patterns.dfy`). `translate_numbers`, the quote
  substitutions, the second-line check, the failure phrase, the stat and
  attribute scans (first match wins), the header and the skill/title
  sub-parser. `Extract(d, text)` is the record `parse` returns, or the
  exception it raises, for dictionary `d`. `ParseWords(text)` lists the
  words it hands to `translate`, in order. The method `Parse` updates the
  store's missing words and is proved against both.
- **Renderer** (`renderer.dfy`, module `Renderer`). `print_stat`,
  `print_attr`, `print_skill_or_title`, and the writes of `md_quote`,
  `md_break`, `stat_line` and `print_output` to an output buffer (class
  `OutBuffer`). Each writing method is proved to append exactly its part
  of `Report(p, md, splitSkills, splitTitles)`.

Shared pieces are in their own modules:
- `Text`: Python's `strip`, `find`, `split`, `join`, `readlines`,
  `splitlines` and string order, restricted to what the script uses.
- `Record`: the parsed record.
- `Wrappers`: `Option` and `Result`.

The command-line flags `--md`, `--split_skills` and `--split_titles` are
parameters. The dictionary file's lines are a parameter of the store's
constructor. The text the writer produces is a result.

In markdown mode a bare `\n` follows the blank quoted lines, `Skills:`
and `Titles:`, the skill-points line, the joined lists and each bullet
(translator.py:353-402).
`dictionary_cmp` calls Python 2's `cmp` (see Findings).

## Model

| member | source | states |
|---|---|---|
| Extractor.NarrowDigit | translator.py:51-60 | a full-width digit becomes the ASCII digit of the same value; any other character is kept |
| Extractor.TranslateNumbers | translator.py:49-61 | same length, and each character is narrowed in place |
| Extractor.TranslateNumbersNormal | translator.py:49-61 | no full-width digit is left, and a second run changes nothing (idempotent) |
| Extractor.DropThroughLast | translator.py:222 | the kept suffix holds no `『` and is what follows the last `『` of the line |
| Extractor.DropFromFirst | translator.py:223 | the kept prefix holds no `』` and is what precedes the first `』` of the line |
| Extractor.CutClean | translator.py:222-223 | a line with its quotes cut holds neither quote mark |
| Extractor.QuotesRemoved | translator.py:222-223 | the prepared text holds no `『` and no `』` |
| Extractor.NoQuotesKept | translator.py:222-223 | text without quote marks is only stripped |
| Extractor.LinesOf | translator.py:226 | the lines hold no line break, and joined with line breaks they give back the prepared text |
| Text.SplitLines | translator.py:226 | `splitlines`: empty text gives no lines, no line holds a line break, and the lines joined with line breaks give the text back less one final line break |
| Text.TrimmedLines | translator.py:223-226 | stripped text has no final line break, so its lines joined give it back exactly |
| Extractor.Segments | translator.py:236 | the segments are non-empty and free of ideographic spaces |
| Extractor.SegmentsCons | translator.py:236 | the segments of `a　b` are `a` (unless empty) followed by the segments of `b`, so the runs come in line order and no run is lost |
| Extractor.SegmentsOne | translator.py:236 | a line without ideographic spaces is its one segment, or has none when empty |
| Text.SplitAtChar | translator.py:212 | splitting at a one-character separator gives the text before its first occurrence, then the split of the rest |
| Text.NonEmptyAppend | translator.py:236 | the filter over two lists is the filter of each, concatenated, so the kept elements keep their order |
| Extractor.StatisticsSegment | translator.py:233-237 | a line that passes the `ステータス` check has a first segment, so `headsplit[0]` cannot raise |
| Extractor.Summary | translator.py:232-238 | a summary exists iff there are two lines, line 2 has two segments and its first is exactly `ステータス`; then it is the second segment |
| Extractor.ReadSummary | translator.py:232-238 | the record holds the translated summary exactly when `Summary` gives one, and the missing words grow by that word's miss |
| Extractor.PlusOf | translator.py:122-124 | a bonus is read iff `＋(\d+)` is found in the line, and it is the captured number |
| Extractor.UpOf | translator.py:125-127 | an up count is read iff `\((\d+)up\)` is found in the line, and it is the captured number |
| Extractor.ScanStatFirst | translator.py:129-136 | a stat is read iff some line matches; its numbers, bonus and up count all come from the first matching line |
| Extractor.ScanAttrFirst | translator.py:138-144 | an attribute is read iff some line matches; its number, bonus and up count all come from the first matching line |
| Extractor.StatPattern | translator.py:244-247 | each stat pattern captures two numbers |
| Extractor.AttrPattern | translator.py:250-256 | each attribute pattern captures one number |
| Extractor.MatchAttrib2 | translator.py:129-136 | the record changes only in the tag's stat, which becomes the first-match scan; the returned flag is true iff some line matches |
| Extractor.MatchAttrib1 | translator.py:138-144 | the record changes only in the tag's attribute, which becomes the first-match scan; the returned flag is true iff some line matches |
| Extractor.ReadStats | translator.py:244-247 | the four `match_attrib_2` calls leave the stats equal to `StatsOf(lines)` and nothing else changed |
| Extractor.ReadAttrs | translator.py:250-256 | the seven `match_attrib_1` calls leave the attributes equal to `AttrsOf(lines)` and nothing else changed |
| ExtractorFacts.ScanStatAppend | translator.py:129-136 | scanning more lines only matters when the earlier ones have no match |
| ExtractorFacts.ScanAttrAppend | translator.py:138-144 | scanning more lines only matters when the earlier ones have no match |
| ExtractorFacts.StatsOfKeys | translator.py:244-247 | each stat kind is present iff its pattern matches some line, with the first match's value |
| ExtractorFacts.StatAt | translator.py:244-247 | the same, for one stat kind |
| ExtractorFacts.PutStatsKey | translator.py:244-247 | after the four stat updates, a kind's key is set exactly by its own scan |
| ExtractorFacts.AttrLines | translator.py:250-256 | the lines an attribute is looked for in are a prefix of the lines and start with the title line |
| ExtractorFacts.AttrsOfKeys | translator.py:250-256 | each attribute kind is present iff its pattern matches its lines, with the first match's value |
| ExtractorFacts.AttrAt | translator.py:250-256 | the same, for one attribute kind |
| ExtractorFacts.PutAttrsKey | translator.py:250-256 | after the seven attribute updates, a kind's key is set exactly by its own scan |
| ExtractorFacts.LevelFromTitle | translator.py:250 | the level is present iff `ＬＶ(\d+)` is found in the first line, and then comes from that line with its bonus and up count |
| ExtractorFacts.LevelIgnoresOtherLines | translator.py:250 | two texts with the same first line have the same level |
| Extractor.FirstHolding | translator.py:157-162 | the index of the first line holding the marker, and none when no line holds it |
| Extractor.ListLine | translator.py:154-164 | a list line exists iff some line holds the marker and a line follows the first such line; it is that following line |
| Extractor.FindListLine | translator.py:155-162 | the loop with `break` finds exactly `ListLine` |
| Extractor.LastLv | translator.py:169 | the last `ＬＶ` that has text before it and a digit after it; none when there is no such `ＬＶ` |
| Extractor.LevelSplit | translator.py:169-176 | a level is read iff some `ＬＶ` has text before it and a digit after it; the name is the text before the last such `ＬＶ`, and the level is the whole digit run after it |
| Extractor.NameRun | translator.py:170 | a name run exists iff the piece has a character other than `(`; it is the first maximal run without `(` |
| Extractor.ReadEntry | translator.py:166-182 | the entry is `EntryOf` of the piece, and the missing words grow exactly by the miss of the word handed to `translate` |
| Extractor.ReadEntries | translator.py:165-182 | one entry per bracket-trimmed piece, in order, and the missing words grow by the misses of all their words |
| Extractor.ListOf | translator.py:154-184 | a list is present iff the list line exists and is non-empty; it is then the entries of its pieces |
| Extractor.ReadSkills | translator.py:154-184 | `skills` is set exactly to `ListOf` with levels, nothing else changes, and the missing words grow by the list's words |
| Extractor.ReadTitles | translator.py:186-209 | `titles` is set exactly to `ListOf` without levels, nothing else changes, and the missing words grow by the list's words |
| ExtractorFacts.EntryFacts | translator.py:166-182 | an entry has a level iff it is a skill with a `ＬＶ` and digit, named by the text before the last one; `up` and `new` are read from every piece whichever name branch ran |
| ExtractorFacts.ListShape | translator.py:154-184 | a present list has one entry per `」「`-piece of the non-empty line after the first marker line, in order |
| ExtractorFacts.TitlesHaveNoLevel | translator.py:186-209 | no title entry has a level |
| ExtractorFacts.SkillPointsLineFirst | translator.py:161 | the skill-points line holds `スキル`, so when it comes first the skills are read from the line after it |
| Extractor.KindWord | translator.py:212-213 | the kind is the title up to its first ideographic space |
| Extractor.NameWord | translator.py:214-217 | a name exists iff `名前　` is followed by text; it is that text with its ideographic spaces removed |
| Extractor.ReadHeader | translator.py:211-217 | the record gets the translated kind and, when present, the translated name; the missing words grow by those two words' misses |
| Extractor.HeaderMisses | translator.py:211-217 | the misses of the header words are the kind's miss plus the name's miss |
| Extractor.Parse | translator.py:219-262 | the result is `Extract(dictionary, text)`, the dictionary is unchanged, and the missing words grow by the misses of `ParseWords(text)` |
| Extractor.ParseLines | translator.py:226-262 | the same, from the split lines on |
| ExtractorFacts.ExtractFails | translator.py:226-258 | `parse` raises `ValueError` iff line 2 exists and lacks `ステータス`, and raises `IndexError` iff there is no line at all |
| ExtractorFacts.ParseMissing | translator.py:219-262 | after `parse` a word is missing iff it was missing before, or it is a normalised word handed to `translate` that has no entry |
| Patterns.MatchAt | translator.py:131 | a match ends within the line and captures one number per `(\d+)` |
| Patterns.MatchAtSound | translator.py:131 | what the matcher returns is a match of the pattern at that position |
| Patterns.MatchAtComplete | translator.py:131 | whenever the pattern matches at a position, the matcher finds a match there |
| Patterns.MatchAtExact | translator.py:131 | for a pattern that ends with a literal, the matcher returns exactly the end and captures of any match at that position, so the match there is unique |
| Patterns.SearchFrom | translator.py:131 | `re.search` finds the leftmost position where the pattern matches, and reports none when it matches nowhere |
| Patterns.FoundIff | translator.py:131 | a search succeeds iff the pattern matches somewhere in the line |
| Patterns.FoundExact | translator.py:131 | for a pattern that ends with a literal, the search returns the captures of the leftmost match |
| Patterns.MatchAtMaximal | translator.py:122-134 | for a pattern that ends with `(\d+)`, a match ends at the end of the line or before a non-digit: the trailing capture takes the whole digit run |
| Patterns.FirstMatch | translator.py:130-136 | the first line the pattern is found in, with its captures; no earlier line matches; none when no line matches |
| Patterns.FirstMatchAppend | translator.py:130-136 | the first match in `lines + more` is in `lines` when there is one there, and otherwise in `more` |
| Store.ReadDictionaryFile | translator.py:63-81 | the loop computes `LoadDictionary(content)`, with stripped keys and values and no placeholder value |
| Store.Kept | translator.py:71-74 | no line the reader acts on is blank or a comment |
| Store.LoadAllPairs | translator.py:69-80 | the reader loop stores the kept lines taken two at a time, from whatever state it starts in |
| Store.LoadIsPairing | translator.py:63-81 | reading is: strip every line, drop blank and comment lines, pair the rest, store in order |
| Store.SkippedIgnored | translator.py:71-74 | inserting a blank or comment line anywhere changes nothing, not even the source/translation alternation |
| Store.SkippedLineIgnored | translator.py:70-74 | a raw line that strips to blank or a comment can be removed without changing the dictionary |
| Store.LastPairWins | translator.py:75-80 | the last non-placeholder pair for a source word decides its translation |
| Store.KeptThrough | translator.py:78-79 | pairs that give a word only the placeholder keep its earlier translation |
| Store.Cmp | translator.py:84 | Python 2 `cmp` on strings: -1, 0 or 1, for before, equal and after |
| Store.DictionaryCmp | translator.py:83-84 | negative iff the first pair sorts first by translation then source, zero iff the pairs are equal, positive iff the second sorts first |
| Store.DictionaryCmpAntisymmetric | translator.py:83-84 | swapping the arguments swaps the sign |
| Store.CmpTransitive | translator.py:83-84 | the order is transitive |
| Store.Insert | translator.py:96 | inserting into a sorted list keeps it sorted and adds exactly that pair |
| Store.SortPairs | translator.py:95-96 | the result is sorted and a permutation of the input |
| Store.SortedUnique | translator.py:96 | two sorted permutations of the same pairs are equal, so the written file does not depend on the order the set and the map are walked |
| Store.DictionaryCmpAsWritten | translator.py:83-84 | under Python 3 every call raises `NameError` |
| Store.InsertAsWritten | translator.py:96 | inserting into an empty list succeeds with just the new pair; into any other list it raises `NameError` |
| Store.SortAsWrittenFails | translator.py:96 | with the comparison as written, the sort raises iff there are at least two pairs |
| Store.CollectPairs | translator.py:90-94 | the pairs are exactly the missing words with the placeholder and the dictionary entries, one per word |
| Store.EmitPairs | translator.py:99-106 | the writes produce the header, a newline, then source and translation lines for each pair |
| Store.PairLinesAppend | translator.py:102-106 | the lines of two runs of pairs are the lines of each, one after the other |
| Store.PairText | translator.py:103-106 | one pair is written as source, newline, translation, newline |
| Store.WriteDictionaryFile | translator.py:86-106 | the written pairs are exactly the missing and known words, sorted, and the text is built from them |
| Store.OneLine | translator.py:103-104 | an entry followed by a newline is one line that strips back to the entry |
| Store.PairLinesRead | translator.py:102-106 | every written pair line is one line, and stripping gives back the words in order |
| Store.HeaderComments | translator.py:42-45 | both header lines start with `#` |
| Store.ReadBackWith | translator.py:99-106 | the written text splits back into the two header lines and then the pair words |
| Store.CommentsIgnored | translator.py:73-74 | the two header lines change nothing when read |
| Store.ReadBack | translator.py:99-106 | the file read back gives the header lines, which are skipped, then the pair words |
| Store.LoadPairWords | translator.py:75-80 | reading the words of well-formed pairs stores exactly the dictionary; placeholder pairs store nothing |
| Store.LoadPairStep | translator.py:75-80 | reading one pair's two words moves from source to translation and back |
| Store.WriteThenRead | translator.py:63-106 | writing a store's dictionary and missing words, then reading the file, gives back exactly the dictionary, when every word is a trimmed, one-line, non-comment entry |
| Store.EmptyMissingWordShifts | translator.py:63-106 | for the dictionary `{x: y}` and the missing word `""`, the file written reads back as `{"--NEEDS TRANSLATION--": x}`: the empty line is skipped and later lines pair up shifted |
| Store.Normalize | translator.py:114 | same length, no ideographic space left, every other character kept |
| Store.MissesOfAppend | translator.py:118 | the misses of two runs of `translate` are the union of the misses of each |
| Store.MissesOfExactly | translator.py:118 | a word is missed by a run iff it has no entry and is the normalised form of one of the run's words |
| Store.TranslationStore.constructor | translator.py:109-110 | the dictionary is read from the file's lines and no word is missing yet |
| Store.TranslationStore.Translate | translator.py:112-119 | a hit returns the stored translation and leaves the missing words alone; a miss returns the normalised word and adds it; the dictionary never changes |
| Renderer.StatPlusIff | translator.py:265-273 | a stat's text shows a `+` iff its bonus is set |
| Renderer.AttrPlusIff | translator.py:275-283 | an attribute's text shows a `+` iff its bonus is set |
| Renderer.ShownEntry | translator.py:285-296 | a rendered entry starts with `[`, ends with `]`, and holds no ASCII space and no `-` |
| Renderer.EscapeRoundTrip | translator.py:294-295 | the space and hyphen replacement can be undone on text without no-break characters |
| Renderer.ShownEntryRoundTrip | translator.py:285-296 | undoing the replacement gives back the bracketed name, level, up count and new mark |
| Renderer.DigitsPlain | translator.py:288-290 | numbers hold no no-break character |
| Renderer.NatStrThousands | translator.py:379 | the decimal digits of a number of four digits or more are those of its thousands followed by three digits |
| Renderer.GroupedDigits | translator.py:379 | removing the commas of `'{:,}'` gives the plain decimal digits |
| Renderer.QuoteMarks | translator.py:300-301 | `times` copies of `> `: `>` at the even positions, a space at the odd ones |
| Renderer.PlainMarkup | translator.py:298-311 | in plain mode `md_quote` writes nothing, `md_break` only the newline, and a stat line is its text and a newline |
| Renderer.AttrContent | translator.py:339-348 | each average line starts with its label |
| Renderer.AverageContents | translator.py:339-348 | every average line starts with `A`, so none is an HP, MP or SP line |
| Renderer.StatLines | translator.py:308-311 | one `stat_line` per content, in order |
| Renderer.FramedAppend | translator.py:330-348 | stat lines written one after another concatenate |
| Renderer.FramedOne | translator.py:331-348 | each guarded `stat_line` writes one line or nothing |
| Renderer.StatParts | translator.py:330-348 | the stat block is the HP, MP, SP and average lines, in that order |
| Renderer.AverageParts | translator.py:339-348 | the averages are offense, defense, magic, resistance and speed, in that order |
| Renderer.SpLineIff | translator.py:335-338 | an `SP:` line is written iff both stamina stats are present, and then it shows the short-term stat first |
| Renderer.Shown | translator.py:356-358 | one rendered entry per entry, in order |
| Renderer.BulletLines | translator.py:362-367 | one bullet line per entry, in order |
| Renderer.JoinedListSplits | translator.py:369-371 | a list joined on one line splits back into its rendered entries |
| Renderer.JoinersHoldSpace | translator.py:370 | both joiners hold an ASCII space |
| Renderer.BulletsReadBack | translator.py:362-367 | a split list reads back as one line per entry |
| Renderer.ListHead | translator.py:351-355 | a present list starts with a blank quoted line and its heading line |
| Renderer.BulletsSnoc | translator.py:362-367 | writing one more bullet appends its line |
| Renderer.OutBuffer.constructor | translator.py:313 | the buffer starts empty |
| Renderer.OutBuffer.Write | translator.py:316 | `out.write` appends its argument |
| Renderer.OutBuffer.MdQuote | translator.py:298-301 | appends `times` quote marks in markdown mode and nothing in plain mode |
| Renderer.OutBuffer.MdBreak | translator.py:303-306 | appends two spaces and a newline in markdown mode, a newline in plain mode |
| Renderer.OutBuffer.StatLine | translator.py:308-311 | appends a doubly quoted line with its break |
| Renderer.OutBuffer.MaybeStatLine | translator.py:331-348 | appends the stat lines of the contents given |
| Renderer.OutBuffer.PrintHeader | translator.py:314-321 | appends the header: kind, then level and name after U+2015 when present |
| Renderer.OutBuffer.PrintLevel | translator.py:317-318 | appends the level part only when the level is present |
| Renderer.OutBuffer.PrintName | translator.py:319-320 | appends the name part only when the name is present |
| Renderer.OutBuffer.PrintStatistics | translator.py:323-328 | appends `Statistics:` with the summary word when there is one |
| Renderer.OutBuffer.PrintStats | translator.py:330-348 | appends the HP, MP, SP and average lines of the stats present |
| Renderer.OutBuffer.PrintAverages | translator.py:339-348 | appends the average lines present, in order |
| Renderer.OutBuffer.ShowEntries | translator.py:356-358 | the rendered entries, in order |
| Renderer.OutBuffer.PrintBullets | translator.py:362-367 | appends one bullet line per entry |
| Renderer.OutBuffer.WriteBullet | translator.py:363-367 | appends `+ ` under a quote mark in markdown mode, an indented `•` in plain mode |
| Renderer.OutBuffer.PrintList | translator.py:350-371 | appends the list section only when the list is present and non-empty |
| Renderer.OutBuffer.PrintBody | translator.py:359-371 | appends the entries as bullets when split, otherwise joined on one quoted line |
| Renderer.OutBuffer.PrintSkillPoints | translator.py:373-379 | appends the skill points with thousands grouping only when they are present |
| Renderer.OutBuffer.PrintFailed | translator.py:404-407 | appends the failure line only when the appraisal failed |
| Renderer.OutBuffer.PrintOutput | translator.py:313-407 | appends the whole report: header, statistics, stat lines, skills, skill points, titles, failure line |

## Left out

- Argument parsing: the flags are parameters of the renderer and the store.
- File I/O:
  - opening and reading the dictionary and input files;
  - the `.bak` copy made with `shutil.copy`;
  - the writes to the dictionary, output and error-log files;
  - the echo to standard output.
  The store takes the dictionary file's lines; the writer and the renderer produce text.
- `process_file` and its catch-all `except` with `traceback` logging: the
  exceptions `parse` raises are the `Failure` cases of `Extract`.
- Module-level execution: the globals are the fields of `TranslationStore`.
- Line splitting is modelled on `\n` only, for both `readlines` and `splitlines`. Python also splits `splitlines` on `\r`, `\x0b`, `\x1c` and other separators.
- Regex `\d` is ASCII here. `translate_numbers` runs first, but Python's `\d` also matches digits of other scripts.
- Only the fixed patterns the script uses are modelled, by hand. There is no general regex engine.
- The order in which Python walks the `missing_words` dict and the `dictionary` map is left open in `CollectPairs`. `SortedUnique` shows the written text does not depend on it.
- `WriteDictionaryFile` sorts with the intended comparison. The as-written comparison is modelled separately, under Findings.
- `CollectPairs`: Python's `missing_words` is a dict used as a set. The model uses a set.
- Store.WriteThenRead: the round trip is proved only for words that are trimmed, hold no line break, and do not start with `#`. An empty word or one that starts with `#` is written as a line the reader skips, so the line after it is read as a source word and every later pair is shifted. The empty word is reachable: a title whose `名前　` is followed only by ideographic spaces gives the name `""` (translator.py:214-217), and `translate` records it as missing (translator.py:114-118). Store.EmptyMissingWordShifts exhibits the shift.
- Renderer.StatPlusIff and Renderer.AttrPlusIff state only which optional parts appear. The numbers and colours are stated by the definitions `PrintStat` and `PrintAttr`. No parser of the rendered text is proved against them.

## Findings

| source | as written | input that shows it | evidently intended | confidence | as-written member | corrected member |
|---|---|---|---|---|---|---|
| translator.py:83-84 | `dictionary_cmp` calls `cmp`, a Python 2 built-in; under Python 3 (`#!python3`) every call raises `NameError`, so `write_dictionary_file` fails whenever it sorts two or more pairs | `--update_dict` with a dictionary holding two entries, or one entry and one missing word | order by translation, then by source word | not executed | Store.SortAsWrittenFails | Store.SortPairs |
