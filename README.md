# Kanji quiz curriculum pipeline

A Dafny model of the offline pipeline that builds the curriculum of a
kanji-reading quiz for Japanese primary school grades 1 to 6:

- **Reading extraction** (`extract_kanji_readings.js` / `.php`): each
  KANJIDIC2 character of a school grade yields its on readings (katakana
  shifted to hiragana) and kun readings (split into base and okurigana at
  the first `.`). Rows that are not pure hiragana, and readings of rare
  status, are skipped and counted. The JavaScript version writes the rows
  as CSV, escaping fields per section 2 of RFC 4180.
- **Reading import** (`import_kanji_readings.js` / `.php`): the CSV is
  parsed and every row is validated with a fixed check order. Each row is
  then either inserted or skipped with one error. Counters and per-grade
  on/kun tallies are kept.
- **Grade-allocated kanji import** (`import_haitou_kanji.php`): rows whose
  grade is 1..6 and whose trimmed kanji is one character are inserted in
  one transaction.
- **Question generation** (`generate_questions.js`): for each reading, a
  template is picked round-robin from a per-class, per-grade table. The
  okurigana is prepended to the trailing text. Every kanji the pupil has
  not yet learnt (those of the same or later grades) is replaced by its
  fallback reading: the first non-empty reading, stripped of a `(…)`
  suffix, with kun readings before on readings. A kanji without such a
  reading is kept as it is.
- **Unit migration** (`migrate_units.js` / `.php`): every grade's kanji,
  in kanji_id order, are cut into units of 20 (named 第N回). A last unit
  of 5 or fewer is merged into the one before. Questions are re-pointed to
  the unit of their reading's kanji or, without a reading, of the first
  kanji of their text that has a unit. A question whose reading finds no
  unit breaks `unit_id NOT NULL`, and the whole migration rolls back.

The JavaScript and PHP twins share one model. `Text.Dialect` (`Js` or
`Php`) selects where they differ:

- which characters are trimmed;
- how the kun reading is split;
- how `empty("0")` behaves;
- how short rows are handled;
- how the grade is selected.

Database reads are input sequences and maps. Inserts and updates are
output sequences and maps. Every loop of the scripts is a `method` whose
`ensures` ties its result to a left-fold specification function. The
scripts' promises are proved as lemmas about those functions.

Files:
- `wrappers.dfy`: `Option`.
- `text.dfy`: trim, split/join, `parseInt`, the `(int)` cast, decimal digits.
- `kana.dfy`: the hiragana check (and PCRE's reading of it, where `$`
  also matches before a final line feed), the katakana shift, the
  ideograph range.
- `grades.dfy`: grades 1..6.
- `csv.dfy`: field escaping, the byte-order mark, the header.
- `templates.dfy`: the template table.
- `generate.dfy`: question generation.
- `extract.dfy`: reading extraction.
- `import_readings.dfy`: reading import.
- `pipeline.dfy`: extraction followed by import.
- `import_haitou.dfy`: the grade-allocated kanji import.
- `migrate_units.dfy`: unit migration.

Two behaviours of the code are easy to misread:

- The okurigana is prepended whenever it is present (generate_questions.js:358-361). This does not depend on the reading's class.
- In the fallback map the first *non-empty* stripped reading wins (generate_questions.js:285). The test `if (!result[k])` treats a stored empty string as absent, so a later row may still fill it.

## Model

| member | source | states |
|---|---|---|
| Templates.StandardWellFormed | generate_questions.js:24-136 | every (class, grade 1..6) template list is non-empty: 5 noun, 3 verb and 3 onyomi templates per grade, so lookup never fails |
| Templates.TemplatesFor | generate_questions.js:348 | the list looked up for a class and grade of a well-formed table is non-empty |
| Templates.Wrap | generate_questions.js:349 | the wrapped index is below the list length |
| Templates.WrapIsMod | generate_questions.js:349 | the wrapped index is `index % length` |
| Templates.PickRoundRobin | generate_questions.js:349 | the chosen template is in the list, is `templates[index mod length]`, is the index-th when the index is in range, and repeats with period `length` |
| Kana.KatakanaToHiragana | extract_kanji_readings.js:22-26 | length is kept; each code point U+30A1..U+30F6 is shifted down by 0x60 and every other character is unchanged |
| Kana.KatakanaToHiraganaIdempotent | extract_kanji_readings.js:22-26 | shifting twice is shifting once |
| Kana.OnReadingAccepted | extract_kanji_readings.js:109-116 | a converted on reading passes the hiragana check iff it is non-empty and every character is hiragana, ー or katakana U+30A1..U+30F3 |
| Kana.HiraganaHasNoIdeograph | generate_questions.js:383 | a string passing the hiragana check (extract_kanji_readings.js:47-49) contains no character of the CJK range the generator substitutes |
| Text.Trim | import_kanji_readings.js:128-131 | the result is empty or starts and ends with a non-blank character; it is the input with only blank characters dropped from both ends |
| Text.TrimKeeps | import_kanji_readings.php:105-108 | a string without blank ends is trimmed to itself |
| Text.TrimEmpty | import_kanji_readings.js:132 | trimming gives the empty string iff the input is all blank |
| Text.TrimIdempotent | import_kanji_readings.js:128-131 | trimming twice is trimming once |
| Text.IndexOf | extract_kanji_readings.js:36 | the index found holds the character and no earlier position does; none is found iff the character is absent |
| Text.IndexOfPrefix | extract_kanji_readings.php:37 | the first occurrence after a prefix free of the character is at the prefix's length |
| Text.Split | import_kanji_readings.js:36 | at least one part; no part holds the separator; joining the parts with it gives the input back |
| Text.SplitJoin | extract_kanji_readings.js:37 | splitting a join of separator-free parts gives the parts back |
| Text.JoinFree | extract_kanji_readings.js:194 | a join of parts free of a character other than the separator is free of it |
| Text.PhpIntCastDigit | import_haitou_kanji.php:55 | `(int)` of one digit is its value |
| Text.NatToDecimal | extract_kanji_readings.js:189 | `String(v)` of a natural number is a non-empty digit string whose value is the number |
| Text.ParseDecimal | import_kanji_readings.js:40 | `parseInt` and PHP's `(int)` read the decimal text of a number back as that number |
| Text.DigitPrefixAll | import_kanji_readings.php:106 | the digit prefix of an all-digit string is the whole string |
| Csv.EscapeField | extract_kanji_readings.js:187-194 | a field with a comma, quote or line feed is written inside double quotes; any other field verbatim |
| Csv.UndoubleDouble | extract_kanji_readings.js:191 | undoubling the doubled quotes of a field gives the field back |
| Csv.EscapeRoundTrip | extract_kanji_readings.js:187-194 | reading the written field per section 2 of RFC 4180 gives the field back, for fields without a carriage return |
| Csv.FieldWithCr | extract_kanji_readings.js:190 | a lone carriage return is written unquoted, which the RFC grammar rejects |
| Csv.SkipBom | import_haitou_kanji.php:37-41 | the three bytes EF BB BF are dropped when they open the file and only then |
| Csv.SkipBomRemovesMark | import_kanji_readings.php:67-70 | a file opening with the mark is read from the byte after it |
| Csv.DataRows | import_haitou_kanji.php:43-44 | the first record is consumed as the header and the rest follow unchanged |
| Generate.FirstParenSuffixLeftmost | generate_questions.js:352 | the search finds the leftmost position where `/\(.+\)$/` matches, or none when no position matches |
| Generate.StripParenSuffixCuts | generate_questions.js:352 | the stripped reading is a prefix of the reading; what is cut is the leftmost match; nothing is cut iff there is no match |
| Generate.StripParenSuffixClean | generate_questions.js:287 | a stripped reading has no `(…)` suffix left, so stripping is idempotent |
| Generate.ConvertText | generate_questions.js:379-402 | the character loop computes the per-character substitution `Convert` |
| Generate.ConvertAppend | generate_questions.js:379-402 | converting a concatenation converts each part |
| Generate.ConvertIdentity | generate_questions.js:379-402 | text with no disallowed kanji that has a fallback is returned unchanged |
| Generate.ConvertRespectsGrade | generate_questions.js:379-402 | with ideograph-free fallbacks, no disallowed kanji that has a fallback is left in the result |
| Generate.ConvertIdempotent | generate_questions.js:379-402 | converting converted text changes nothing |
| Generate.ClassifyCases | generate_questions.js:337-345 | classification is total and exclusive: onyomi iff `is_onyomi === 1`, verb iff not and okurigana is non-empty, noun otherwise |
| Generate.GenerateQuestion | generate_questions.js:332-373 | the target kanji is kept unchanged, the reading loses its `(…)` suffix, and pre and post texts are the chosen template's texts, okurigana-prefixed, after conversion |
| Generate.PostStartsWithOkurigana | generate_questions.js:358-365 | with hiragana okurigana the final post text starts with the okurigana |
| Generate.QuestionRespectsGrade | generate_questions.js:363-365 | neither text of a question contains a disallowed kanji that has a fallback |
| Generate.KanjiOfGradeMembers | generate_questions.js:242-249 | a kanji is listed for grade g iff some row has that kanji and grade g |
| Generate.BuildKanjiByGrade | generate_questions.js:242-249 | the grouping loop lists, for each grade 1..6, the kanji of that grade in row order |
| Generate.EarlierMembers | generate_questions.js:255-268 | a kanji is allowed in grade g iff it belongs to a grade 1..g-1 |
| Generate.EarlierMonotone | generate_questions.js:257-265 | allowed sets only grow with the grade |
| Generate.BuildAllowedKanjiMap | generate_questions.js:255-268 | the nested loops give every grade 1..6 the union of the earlier grades' kanji; grade 1 gets the empty set |
| Generate.AllowedFromRows | generate_questions.js:242-268 | a kanji is allowed in grade g iff some kanji row has a grade 1..g-1 |
| Generate.FallbackFirstWins | generate_questions.js:283-290 | the map has a key iff some row mentions the kanji; its value is the first non-empty stripped reading of the kanji, or the empty string when every stripped reading is empty; a non-empty value is never overwritten |
| Generate.FallbackClean | generate_questions.js:287 | no stored reading carries a `(…)` suffix |
| Generate.FallbackPrefersKun | generate_questions.js:274-290 | with kun rows first (ORDER BY is_onyomi), a kanji with a kun reading gets a kun reading |
| Generate.BuildKanjiToReadingMap | generate_questions.js:274-292 | the first-wins loop computes the fallback map specified by `FallbackSpec` |
| Generate.FallbackReadingsIdeographFree | generate_questions.js:283-290 | ideograph-free readings give an ideograph-free fallback map |
| Generate.Tally | generate_questions.js:180 | the statistics have exactly the keys 1..6 |
| Generate.TallyCounts | generate_questions.js:203 | each grade's statistic is the number of readings of that grade |
| Generate.StatsTotal | generate_questions.js:202-203 | the six statistics add up to the number of readings |
| Generate.TallyStep | generate_questions.js:203 | each reading increments exactly its own grade's statistic |
| Generate.GenerateQuestions | generate_questions.js:179-205 | one question per reading, in order; the template index of the i-th reading is i; the inserted count is the number of readings; the statistics are the tally |
| Generate.TextGradeSafe | generate_questions.js:255-268 | every character left unsubstituted in grade g is either not an ideograph, or the kanji of some row of a grade 1..g-1, or without a fallback reading |
| Generate.EarlierIsAllowedIn | generate_questions.js:242-268 | the allowed set built for grade g is exactly the set of kanji the table lists at grades 1..g-1 |
| Generate.Run | generate_questions.js:141-207 | end to end: the i-th question is `GenerateQuestion` of the i-th reading with template index i, the kanji of the lower grades as allowed set and the fallback map of the reading rows, stored with its grade's unit; so it keeps its reading id, kanji and stripped reading; the statistics are the tally; every character of every question text is safe for the reading's grade |
| Extract.RemoveMarksDeletes | extract_kanji_readings.js:34 | the cleaned text holds exactly the characters of the input other than `-`, `(` and `)` |
| Extract.RemoveMarksKeeps | extract_kanji_readings.php:35 | text without those marks is unchanged |
| Extract.ParseKunyomiShape | extract_kanji_readings.js:32-42 | without a dot the base is the cleaned text and okurigana is empty; with one, the base is the text before the first dot and okurigana the text up to the second (JavaScript) or the whole rest (PHP, extract_kanji_readings.php:32-43) |
| Extract.KunDialectsAgree | extract_kanji_readings.php:38 | when the PHP okurigana holds no dot, both versions split the same way |
| Extract.KunDialectsDiverge | extract_kanji_readings.js:37 | `a.b.c` gives okurigana `b` in JavaScript and `b.c` in PHP |
| Extract.KunOutcomesDiverge | extract_kanji_readings.js:127-138 | hence JavaScript emits such a kun reading and PHP (extract_kanji_readings.php:148-159) skips it |
| Extract.ReadingOutcome | extract_kanji_readings.js:95-148 | an emitted row is valid for its dialect (reading passing the dialect's hiragana check, okurigana empty or passing it, on rows without okurigana) and for the character; its on flag is 1 iff the reading is an on reading; PHP's check (extract_kanji_readings.php:48-51) also lets one final line feed through |
| Extract.OnReadingOutcome | extract_kanji_readings.js:109-125 | a common on reading is emitted as `[kanji, 1, hiragana, '']` iff the converted value passes the dialect's hiragana check, otherwise skipped |
| Extract.KunReadingOutcome | extract_kanji_readings.js:127-147 | a common kun reading is emitted with flag 0 iff its base passes the dialect's hiragana check and its okurigana is empty or passes it, otherwise skipped |
| Extract.FeedDialectsDiverge | extract_kanji_readings.php:48-51 | an on reading `ア` followed by a line feed is skipped in JavaScript and written as `あ` plus the line feed in PHP |
| Extract.RareStatusSkipped | extract_kanji_readings.js:104-107 | a reading whose status is neither empty nor `jy` is skipped (in JavaScript only when it is an on/kun reading with text, as the scan order implies) |
| Extract.FirstDigitGradeIsFirst | extract_kanji_readings.js:73 | the grade read is the first all-digit grade value, none iff there is none |
| Extract.FirstTargetGradeIsFirst | extract_kanji_readings.php:95-107 | the grade read is the first value that casts into 1..6, none iff there is none |
| Extract.Selection | extract_kanji_readings.js:73-81 | a selected grade is always in 1..6 |
| Extract.GradeSelectionDiverges | extract_kanji_readings.php:95-104 | grades `8`,`3` select nothing in JavaScript and grade 3 in PHP |
| Extract.ZeroStats | extract_kanji_readings.js:56-59 | the statistics start with one entry per grade 1..6 |
| Extract.ZeroAt | extract_kanji_readings.php:91 | every grade starts at zero kanji, on and kun readings |
| Extract.OutcomesPartition | extract_kanji_readings.js:104-147 | every reading is emitted, skipped or ignored, exactly one of the three |
| Extract.ExtractSpecEffect | extract_kanji_readings.js:54-153 | the rows are the emitted outcomes in order; the skip count is the number of skipped outcomes; the reading count is the number of rows; the kanji count is the number of selected characters; per-grade totals match both |
| Extract.ExtractConservation | extract_kanji_readings.js:73-77 | appending a character without a target grade changes nothing; every reading of the selected characters is counted exactly once, as a row, a skip or an ignored reading; the per-grade kanji and reading totals equal the two counters |
| Extract.AllOutcomesFrom | extract_kanji_readings.js:91-148 | every outcome comes from a reading of some character |
| Extract.ExtractedRowsValid | extract_kanji_readings.php:135-169 | every written row is valid for the dialect's hiragana check and comes from a character's reading |
| Extract.SelectGrade | extract_kanji_readings.php:95-104 | the grade loop computes `Selection` |
| Extract.ExtractCharacterReadings | extract_kanji_readings.js:91-150 | the per-reading loop computes the reading fold for one character |
| Extract.ExtractReadings | extract_kanji_readings.js:54-153 | the character loop computes `ExtractSpec` (results, counters, grade statistics) |
| Extract.CsvLines | extract_kanji_readings.js:179-196 | the header line, then one line per row, in order |
| Extract.RowLineFields | extract_kanji_readings.js:181-194 | a valid row with plain kanji is written as its four fields joined by commas, and splitting the line on commas gives them back |
| Extract.WriteCsv | extract_kanji_readings.js:179-198 | the written text is the lines joined by line feeds |
| ImportReadings.NonBlankLines | import_kanji_readings.js:22 | only non-blank lines of the input are kept |
| ImportReadings.NonBlankLinesKeep | import_kanji_readings.js:22 | an input without blank lines is kept whole |
| ImportReadings.DropBom | import_kanji_readings.js:26-28 | a leading U+FEFF is removed and only it |
| ImportReadings.ParseLine | import_kanji_readings.js:32-45 | a line gives a row iff it splits into at least 3 parts; the row carries its line number and comma-free fields; an okurigana is non-empty |
| ImportReadings.HeaderIgnored | import_kanji_readings.js:31 | the first line never influences the rows |
| ImportReadings.ParseCsvRows | import_kanji_readings.js:21-49 | the rows are those parsed from the non-blank lines after the first, numbered from 2 |
| ImportReadings.ParseCsv | import_kanji_readings.js:21-49 | the parsing loop computes `ParseCsvSpec` |
| ImportReadings.ShortLineDropped | import_kanji_readings.js:37 | a line with two parts gives no row and no error |
| ImportReadings.Validate | import_kanji_readings.js:135-163 | a rejection keeps the line number; an insertion is for a known kanji with its id |
| ImportReadings.ValidateAccepts | import_kanji_readings.js:135-166 | a row is inserted iff its kanji is known, the flag is 0 or 1, the reading is hiragana and the okurigana absent or hiragana; both versions accept the same rows |
| ImportReadings.ValidateFirstFailure | import_kanji_readings.php:112-141 | the error reported is the first failing check in the order unknown kanji, flag, empty reading, non-hiragana reading, non-hiragana okurigana |
| ImportReadings.ZeroReadingDiverges | import_kanji_readings.php:124 | a reading `0` is reported as not hiragana in JavaScript (import_kanji_readings.js:147) and as empty in PHP |
| ImportReadings.PhpVerdict | import_kanji_readings.php:99-141 | a record with fewer than 3 columns is rejected as short, and only such a record |
| ImportReadings.OkuriganaNormalised | import_kanji_readings.js:131-132 | okurigana that is missing or trims to empty becomes null; a kept one is non-empty and trimmed (PHP: import_kanji_readings.php:108-109) |
| ImportReadings.ShortRowDiverges | import_kanji_readings.php:99-103 | a two-column row is an error in PHP and silently dropped in JavaScript |
| ImportReadings.Start | import_kanji_readings.js:117-123 | the tallies start with one entry per grade |
| ImportReadings.Account | import_kanji_readings.js:165-175 | accounting a verdict keeps one tally per grade |
| ImportReadings.ImportFoldRows | import_kanji_readings.js:117-179 | imported plus skipped is the number of rows, the error count is the skip count, and inserted and errors are the verdicts' in order |
| ImportReadings.ImportFoldTally | import_kanji_readings.js:169-175 | each grade's on and kun tallies count exactly the inserted rows of that grade and flag |
| ImportReadings.ImportFoldTotal | import_kanji_readings.php:147-153 | the tallies add up to the imported count |
| ImportReadings.VerdictsAccounted | import_kanji_readings.js:135-167 | every insertion and error comes from a verdict, and every verdict is recorded as one |
| ImportReadings.ValidateValid | import_kanji_readings.php:143-145 | an inserted row has a registered kanji id, a 0/1 flag, a hiragana reading and null or hiragana okurigana |
| ImportReadings.ImportRows | import_kanji_readings.js:126-177 | the validation loop computes the fold of the rows' verdicts |
| ImportReadings.InsertMany | import_kanji_readings.js:126-179 | the JavaScript import of parsed rows is the fold of their verdicts |
| ImportReadings.JsImportCounts | import_kanji_readings.js:117-179 | every parsed row is inserted or skipped; errors equal skips; tallies add up to imports |
| ImportReadings.JsImportRows | import_kanji_readings.js:126-177 | the inserted rows and the errors are exactly the rows' insertions and rejections, in order; every accepted row's insertion is among the inserted and every rejected row's error among the errors; every inserted row is valid; no row is rejected as short |
| ImportReadings.NumberedVerdicts | import_kanji_readings.php:86 | the k-th data record is judged with line number k + 2 |
| ImportReadings.ImportRecords | import_kanji_readings.php:96-154 | the PHP `while` loop computes the fold of the data records' verdicts |
| ImportReadings.PhpImportCsv | import_kanji_readings.php:60-156 | the PHP import of the records after the header is the fold of their verdicts |
| ImportReadings.PhpImportCounts | import_kanji_readings.php:83-154 | every data record is imported or skipped; errors equal skips; tallies add up to imports |
| ImportReadings.PhpImportRows | import_kanji_readings.php:96-154 | the inserted rows and the errors are exactly the records' insertions and rejections (line k + 2 for the k-th record), in order; every accepted record's insertion is among the inserted and every rejected record's error among the errors; every inserted row is valid |
| ImportReadings.FoldKeepsVerdicts | import_kanji_readings.js:126-177 | folding known verdicts gives exactly their insertions and errors, in order, each insertion coming from a verdict and each verdict recorded |
| Pipeline.ReadBacks | import_kanji_readings.js:35-44 | the k-th written row is read back as the row numbered k + 2 |
| Pipeline.RowLineNoFeed | extract_kanji_readings.js:181-194 | a written row line holds no line feed |
| Pipeline.RowLineTrimmed | import_kanji_readings.js:22 | a written row line is not blank and trims to itself |
| Pipeline.ReadBackLine | import_kanji_readings.js:32-45 | a written row line parses back to the row's fields |
| Pipeline.WrittenRowsParse | import_kanji_readings.js:31-46 | the written lines parse back to exactly the written rows |
| Pipeline.ExtractedCsvParses | extract_kanji_readings.js:179-198 | the CSV the extractor writes is parsed by the importer (import_kanji_readings.js:21-49) into exactly the extracted rows, in order |
| Pipeline.ReadBackInserted | import_kanji_readings.js:135-166 | a read-back extracted row of a registered kanji is accepted unchanged |
| Pipeline.ExtractThenImport | import_kanji_readings.js:117-179 | importing the extractor's rows inserts every row, in order, with nothing skipped and no error |
| ImportHaitou.AcceptRow | import_haitou_kanji.php:52-58 | a record is accepted iff it has 3 columns, its second casts to 1..6 and its third trims to one character; the accepted row holds that grade and character |
| ImportHaitou.AcceptRowTrims | import_haitou_kanji.php:56 | surrounding spaces and line breaks of the kanji are trimmed |
| ImportHaitou.AcceptRowRefuses | import_haitou_kanji.php:58 | grade 7 and a two-character kanji are refused |
| ImportHaitou.Filtered | import_haitou_kanji.php:50-61 | no more rows are kept than records read |
| ImportHaitou.InsertAccepted | import_haitou_kanji.php:47-64 | the insert loop commits every accepted row, or rolls back on the first repeated kanji |
| ImportHaitou.ImportHaitou | import_haitou_kanji.php:23-64 | the script computes `HaitouSpec`: nothing when the table is not empty, else the transaction over the records after the header |
| ImportHaitou.DuplicateStays | import_haitou_kanji.php:76-80 | once a repeated kanji is inserted, later rows do not change the rollback |
| ImportHaitou.FilteredFrom | import_haitou_kanji.php:51-61 | every kept row comes from an accepted record and every accepted record's row is kept |
| ImportHaitou.FilteredCount | import_haitou_kanji.php:60 | `$count` is the number of accepted records |
| ImportHaitou.FirstRepeatDistinct | import_haitou_kanji.php:59 | there is no repeat iff the inserted kanji are pairwise distinct |
| ImportHaitou.HaitouOutcome | import_haitou_kanji.php:23-80 | the script ends already imported iff the table held rows; a commit holds the accepted rows, valid and distinct, with `$count` their number; a rollback names a kanji two accepted rows share |
| ImportHaitou.DistinctImported | import_haitou_kanji.php:47-64 | a file whose accepted kanji are distinct is imported in full |
| ImportHaitou.GradeBreakdownTotal | import_haitou_kanji.php:71-74 | the per-grade counts add up to the number of rows |
| MigrateUnits.GroupKanji | migrate_units.js:38-47 | the loop and the in-place pop/merge compute `Regroup` (PHP: migrate_units.php:39-45) |
| MigrateUnits.ChunksShape | migrate_units.js:38-41 | chunks concatenate to the input; all but the last hold 20; the last holds 1..20; no kanji gives no chunk |
| MigrateUnits.RegroupFlatten | migrate_units.js:38-47 | the groups concatenate back to the grade's kanji, so each kanji is in exactly one group, in order |
| MigrateUnits.RegroupShape | migrate_units.php:39-45 | no kanji gives no group; all groups but the last hold 20; with two or more groups the last holds 6..25 |
| MigrateUnits.MergeLastFlatten | migrate_units.js:43-47 | merging the last group loses and adds nothing |
| MigrateUnits.GradeKanji | migrate_units.js:29 | the grade's kanji are table rows of that grade (migrate_units.php:28-30) |
| MigrateUnits.GradeKanjiComplete | migrate_units.js:29 | every table row of the grade is among them |
| MigrateUnits.GradeKanjiSorted | migrate_units.php:28-30 | they keep kanji_id order |
| MigrateUnits.NewUnitsNumbered | migrate_units.js:51-58 | the units of a grade are numbered 1..n consecutively, named `第N回`, with consecutive ids |
| MigrateUnits.UnitNameParses | migrate_units.php:55 | a unit name is `第`, the decimal number, `回`, and distinct numbers give distinct names |
| MigrateUnits.AssignKanji | migrate_units.js:61-63 | the loop sets the unit of every kanji of the group (migrate_units.php:62-64) |
| MigrateUnits.AssignGroupEffect | migrate_units.php:61-64 | every kanji of the group gets the group's unit; other kanji keep theirs |
| MigrateUnits.AssignGroupsEffect | migrate_units.js:51-64 | every kanji of the grade's groups gets one of the grade's new units; other kanji keep theirs |
| MigrateUnits.AssignGroupsPlaces | migrate_units.js:38-63 | the k-th group's kanji get the k-th new unit |
| MigrateUnits.CreateGradeUnits | migrate_units.js:51-67 | one unit per group is appended and every group's kanji point to it (migrate_units.php:53-68) |
| MigrateUnits.MigrateGrades | migrate_units.js:17-68 | the grade loop computes `CreateUnits` (migrate_units.php:17-69) |
| MigrateUnits.NewUnitsAppend | migrate_units.js:51-58 | units stay numbered by position after a grade's units are appended |
| MigrateUnits.GradeStepShape | migrate_units.js:32-35 | a grade with no kanji changes nothing; otherwise exactly one unit per group of `Regroup` is appended, each of that grade; earlier units are kept; the grade's kanji are assigned new units and other kanji keep theirs |
| MigrateUnits.GradeStepConsistent | migrate_units.js:28-68 | one grade's step keeps every assigned kanji pointing at a unit of its own grade |
| MigrateUnits.CreateUnitsConsistent | migrate_units.js:28-68 | after all grades every unit's id is its position and every assigned kanji points at a unit of its grade |
| MigrateUnits.CreateUnitsCovers | migrate_units.php:22-68 | every kanji of a listed grade is assigned a unit |
| MigrateUnits.KanjiInOwnGrade | migrate_units.js:61-63 | a kanji's unit belongs to the kanji's own grade |
| MigrateUnits.FirstIndex | migrate_units.js:72-80 | the match is the first row with the key; none iff no row has it |
| MigrateUnits.PlacedAt | migrate_units.js:61-63 | after assignment a row's unit is its assigned unit, others unchanged |
| MigrateUnits.FirstUnitSpec | migrate_units.js:91-106 | no unit iff no character of the text is a registered kanji with a unit; otherwise the unit of the first such character (migrate_units.php:92-108) |
| MigrateUnits.Repoint | migrate_units.js:72-107 | a question with a reading gets its reading's kanji unit; one without gets its text's first matching unit, or keeps its unit when none matches; nothing else changes |
| MigrateUnits.WithReading | migrate_units.js:81 | the number of questions updated through their reading is at most the number of questions; it is zero iff no question has a reading and the number of questions iff all do |
| MigrateUnits.MatchUnit | migrate_units.php:96-105 | the `matched` loop computes the first matching character's unit |
| MigrateUnits.ResolvesStep | migrate_units.js:72-80 | the reading path resolves for one more question iff it did for the prefix and the new question, if it has a reading, finds a unit |
| MigrateUnits.RepointQuestions | migrate_units.php:73-110 | every question is re-pointed as `Repoint` says; the update count is the questions with a reading; the statement succeeds iff every question with a reading finds a unit |
| MigrateUnits.Migrate | migrate_units.js:16-139 | the whole migration commits iff every question with a reading finds a unit after step 2; then units and assignment are as `CreateUnits` and the questions re-pointed against the updated kanji table; otherwise everything rolls back to the old tables (migrate_units.php:14-146) |
| MigrateUnits.PlacedSorted | migrate_units.js:61-63 | updating units keeps kanji_id order |
| MigrateUnits.PlacedInOwnGrade | migrate_units.js:61-63 | each updated kanji row's unit is a unit of its grade |
| MigrateUnits.ReadingRepoint | migrate_units.js:72-80 | a question with a reading gets the unit of its reading's kanji row |
| MigrateUnits.ReadingQuestionPlaced | migrate_units.php:73-81 | that unit is the new unit of the reading's kanji, of its grade |
| MigrateUnits.CharUnitPlaced | migrate_units.js:94-102 | a character's unit is the new unit of a registered kanji of its grade |
| MigrateUnits.NullQuestionPlaced | migrate_units.js:91-106 | a question without a reading gets the new unit of a kanji of its text, in that kanji's grade |
| MigrateUnits.ReadingPathResolvesPlaced | migrate_units.js:72-80 | when every question with a reading names an existing reading of a kanji in a migrated grade, the reading path finds a unit for each and the migration commits |

## Left out

- The KANJIDIC2 scan is not modelled. This covers the regex scan of `<character>` and `<reading>` blocks (extract_kanji_readings.js:66-98) and `simplexml_load_file`. Each character is given as its grade values, literal and (type, status, value) readings.
- `mb_convert_kana(..., 'c')` is a library call. It is taken to be the same code-point shift as the JavaScript `katakanaToHiragana`.
- `fgetcsv` and `fputcsv` framing is not modelled; the PHP scripts' records are given as sequences of fields. The PHP extractor's CSV output goes through `fputcsv` and is not modelled. The JavaScript extractor's output is modelled.
- File reading and writing, database connections, pragmas and SQL statements are not modelled. Database reads are inputs and writes are outputs.
- Console output, messages and error texts are not modelled. Errors are kept as (line number, reason).
- Existence checks and early exits are not modelled: the missing file or database, the empty `haitou_kanji` table, the importers' exit when `kanji_readings` already holds rows (import_kanji_readings.js:87-94, import_kanji_readings.php:44-50), the import exit codes and the generator's `process.exit`. The generator's `DELETE FROM questions` (generate_questions.js:154-157) is not modelled; its questions are the new rows only.
- Exceptions are out except in two places: in the grade-allocated kanji import a repeated kanji breaking `UNIQUE(kanji)` rolls the transaction back, and in the unit migration a NULL unit breaking `questions.unit_id NOT NULL` rolls the migration back.
- The JavaScript importer crashes when the file is empty. It is modelled as `None`.
- The JavaScript `in` test also matches prototype keys such as `constructor`. The model treats the kanji map as a plain finite map.
- `Text.PhpIntCast`: PHP's `(int)` cast is modelled as leading white space, an optional sign and the longest run of decimal digits, 0 when there is none. Exponent and hexadecimal forms are not modelled.
- The generator's unit creation (`createUnits`) is not modelled. The grade → unit id map is an input.
- The sample printout at the end of the generator is not modelled.
- Unit migration: the final verification queries, the orphan count, and the deletion of old units are not modelled. Ids after the sequence reset are taken to be 1, 2, … in creation order.
- `Generate.Run`: requires every reading of the fallback rows to hold no CJK ideograph. The program does not guarantee this. The reading import's hiragana check makes it hold for imported rows, but the admin API's `add_reading` and `update_reading` (api.php:440-473) store any non-empty trimmed reading. The grade-safety clauses of `Run` depend on it; the clause tying each question to `GenerateQuestion` would hold without it.
- `Generate.Run`, `Generate.GenerateQuestions`, `Generate.BuildKanjiByGrade`: every grade read from the database is assumed to be 1..6, which the kanji import guarantees. Another grade would make the JavaScript index an undefined template list.
- `Generate.FallbackPrefersKun`: `ORDER BY is_onyomi` is a precondition. Ties within one flag are in unspecified order, so the model proves only that some kun reading wins, not which one.
- `MigrateUnits.KanjiInOwnGrade` and the other unit lemmas require the kanji table in kanji_id order with distinct ids, as `ORDER BY kanji_id` on the primary key gives.
- SQL subqueries and `LIMIT 1` are taken to mean the first matching row in table order.
- The question loop without a reading is modelled as one pass over all questions. The update through the reading id is applied first, as in the scripts.
- Kanji of grades not in the grade list keep their old `unit_id`.
- Text is split into code points, which is what both `[...text]` and `preg_split('//u', ...)` do. Surrogates and combining sequences are not modelled.
- `Csv.EscapeField`: the quoting condition is the script's (comma, quote, line feed). A field with a carriage return is written unquoted, which section 2 of RFC 4180 does not allow. `Csv.EscapeRoundTrip` therefore excludes carriage returns, and `Csv.FieldWithCr` shows the case. Extracted fields are hiragana and kanji, so the case never reaches the output.
- The warning for kanji without readings, and the printing of the first 10 import errors, are not modelled.
