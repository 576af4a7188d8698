/**
 * Import of the extracted readings into the reading table
 * (import_kanji_readings.js and import_kanji_readings.php): the JavaScript
 * line parser, the per-row normalisation, the fixed order of the five
 * validity checks, and the counters, error list and per-grade tallies of the
 * row loop. The database is a pair of maps read beforehand (kanji to id, id
 * to grade) and the inserted rows are an output sequence.
 */
module ImportReadings {
  import opened Wrappers
  import opened Text
  import opened Kana
  import opened Grades
  import Csv

  /** One row as the validators see it: the JavaScript parser produces these
      (`isOnyomi` is `None` where `parseInt` gives NaN, `okurigana` is `None`
      for null), and both scripts validate one after normalisation. */
  datatype Row = Row(kanji: string, isOnyomi: Option<int>, reading: string, okurigana: Option<string>, lineNum: nat)

  // ------------------------------------------------------ parseCSV (JavaScript)

  /** `line.trim()` is truthy. */
  predicate NonBlank(line: string) { Trim(Js, line) != [] }

  /** `filter(line => line.trim())`: the non-blank lines, in order. */
  function NonBlankLines(lines: seq<string>): (r: seq<string>)
    ensures |r| <= |lines|
    ensures forall k | 0 <= k < |r| :: NonBlank(r[k]) && r[k] in lines
  {
    if lines == [] then []
    else
      var init, last := lines[..|lines| - 1], lines[|lines| - 1];
      assert forall k | 0 <= k < |init| :: init[k] in lines;
      NonBlankLines(init) + (if NonBlank(last) then [last] else [])
  }

  /** Lines that all hold a non-blank character are all kept. */
  lemma {:induction false} NonBlankLinesKeep(lines: seq<string>)
    requires forall k | 0 <= k < |lines| :: !AllBlank(JsWhite, lines[k])
    ensures NonBlankLines(lines) == lines
  {
    if lines != [] {
      NonBlankLinesKeep(lines[..|lines| - 1]);
      TrimEmpty(Js, lines[|lines| - 1]);
      assert lines[..|lines| - 1] + [lines[|lines| - 1]] == lines;
    }
  }

  /** `lines[0].substring(1)` when the first line starts with U+FEFF. */
  function DropBom(line: string): (r: string)
    ensures line != [] && line[0] == '\U{FEFF}' ==> line == [line[0]] + r
    ensures line == [] || line[0] != '\U{FEFF}' ==> r == line
  {
    if line != [] && line[0] == '\U{FEFF}' then line[1..] else line
  }

  /** The loop body for `lines[i]`, numbered `i + 1`: the trimmed line split
      at every comma, kept when it has at least three parts; a fourth part
      that is missing or empty is null. */
  function ParseLine(line: string, lineNum: nat): (r: Option<Row>)
    ensures r.Some? <==> |Split(Trim(Js, line), ',')| >= 3
    ensures r.Some? ==> r.value.lineNum == lineNum && ',' !in r.value.kanji && ',' !in r.value.reading
    ensures r.Some? && r.value.okurigana.Some? ==> r.value.okurigana.value != [] && ',' !in r.value.okurigana.value
  {
    var t := Trim(Js, line);
    var parts := Split(t, ',');
    if t != [] && |parts| >= 3 then
      Some(Row(parts[0], JsParseInt(parts[1]), parts[2],
               if |parts| > 3 && parts[3] != [] then Some(parts[3]) else None, lineNum))
    else
      assert t == [] ==> parts == [t];
      None
  }

  /** What one line contributes to the result. */
  function LineRows(line: string, lineNum: nat): seq<Row> {
    match ParseLine(line, lineNum)
    case Some(row) => [row]
    case None => []
  }

  /** The rows parsed from `lines[1..n]`; the first line is the header. */
  function ParsedRows(lines: seq<string>, n: nat): (rows: seq<Row>)
    requires n <= |lines|
    ensures forall k | 0 <= k < |rows| :: 2 <= rows[k].lineNum <= n
  {
    if n <= 1 then []
    else
      ParsedRows(lines, n - 1) + LineRows(lines[n - 1], n)
  }

  lemma ParsedRowsStep(lines: seq<string>, i: nat)
    requires 1 <= i < |lines|
    ensures ParsedRows(lines, i + 1) == ParsedRows(lines, i) + LineRows(lines[i], i + 1)
  {
  }

  /** Whatever the header says, it never becomes a row. */
  lemma {:induction false} HeaderIgnored(lines: seq<string>, other: seq<string>, n: nat)
    requires |lines| == |other| && n <= |lines|
    requires forall k | 1 <= k < |lines| :: lines[k] == other[k]
    ensures ParsedRows(lines, n) == ParsedRows(other, n)
  {
    if n > 1 {
      HeaderIgnored(lines, other, n - 1);
    }
  }

  /** `parseCSV`: `None` where the script fails on a file without a single
      non-blank line (`lines[0]` is undefined). */
  function ParseCsvSpec(content: string): Option<seq<Row>> {
    var lines := NonBlankLines(Split(content, '\n'));
    if lines == [] then None
    else
      var unmarked := lines[0 := DropBom(lines[0])];
      Some(ParsedRows(unmarked, |unmarked|))
  }

  /** The rows are numbered in increasing order, from 2 on, and the
      byte-order mark on the header makes no difference. */
  lemma ParseCsvRows(content: string)
    requires ParseCsvSpec(content).Some?
    ensures var lines := NonBlankLines(Split(content, '\n'));
      ParseCsvSpec(content) == Some(ParsedRows(lines, |lines|))
  {
    var lines := NonBlankLines(Split(content, '\n'));
    HeaderIgnored(lines[0 := DropBom(lines[0])], lines, |lines|);
  }

  method ParseCsv(content: string) returns (rows: Option<seq<Row>>)
    ensures rows == ParseCsvSpec(content)
  {
    var lines := NonBlankLines(Split(content, '\n'));
    if lines == [] {
      assert ParseCsvSpec(content) == None;
      return None;
    }
    ghost var unmarked := lines[0 := DropBom(lines[0])];
    if lines[0] != [] && lines[0][0] == '\U{FEFF}' {
      lines := lines[0 := lines[0][1..]];
    }
    assert lines == unmarked;
    var results: seq<Row> := [];
    var i := 1;
    while i < |lines|
      invariant 1 <= i <= |lines|
      invariant results == ParsedRows(lines, i)
    {
      ParsedRowsStep(lines, i);
      var parsed := ParseLine(lines[i], i + 1);
      if parsed.Some? {
        results := results + [parsed.value];
      }
      i := i + 1;
    }
    assert i == |lines|;
    assert results == ParsedRows(unmarked, |unmarked|);
    assert ParseCsvSpec(content) == Some(ParsedRows(unmarked, |unmarked|));
    return Some(results);
  }

  /** JavaScript drops a line with fewer than three columns without a trace. */
  lemma ShortLineDropped(lineNum: nat)
    ensures ParseLine("x,1", lineNum) == None
  {
    ShortLineSplit();
  }

  lemma ShortLineSplit()
    ensures Split(Trim(Js, "x,1"), ',') == ["x", "1"]
  {
    TrimKeeps(Js, "x,1");
    assert Join(["x", "1"], ',') == "x,1";
    SplitJoin(["x", "1"], ',');
  }

  // -------------------------------------------------------------- validation

  /** Why a row is skipped, in the order the checks run; `ShortRow` is PHP's
      column-count check, which comes first. */
  datatype Rejection = ShortRow | UnknownKanji | BadFlag | EmptyReading | ReadingNotHiragana | OkuriganaNotHiragana

  /** One entry of `errors`: the line and the reason (the message text is not modelled). */
  datatype ImportError = ImportError(lineNum: nat, reason: Rejection)

  /** One `INSERT INTO kanji_readings`. */
  datatype Insertion = Insertion(kanjiId: int, isOnyomi: int, reading: string, okurigana: Option<string>)

  datatype Verdict = Insert(ins: Insertion) | Reject(error: ImportError)

  /** `!reading` in JavaScript; PHP's `empty($reading)` also holds for `"0"`. */
  predicate EmptyText(d: Dialect, s: string) {
    s == [] || (d == Php && s == "0")
  }

  /** The five checks, in order; the first that fails decides the error. */
  function Validate(d: Dialect, kanjiMap: map<string, int>, r: Row): (v: Verdict)
    ensures v.Reject? ==> v.error.lineNum == r.lineNum && v.error.reason != ShortRow
    ensures v.Insert? ==> && r.kanji in kanjiMap && v.ins.kanjiId == kanjiMap[r.kanji]
                          && r.isOnyomi == Some(v.ins.isOnyomi) && (v.ins.isOnyomi == 0 || v.ins.isOnyomi == 1)
                          && v.ins.reading == r.reading && IsHiragana(v.ins.reading)
                          && v.ins.okurigana == r.okurigana
                          && (v.ins.okurigana.Some? ==> IsHiragana(v.ins.okurigana.value))
  {
    if r.kanji !in kanjiMap then Reject(ImportError(r.lineNum, UnknownKanji))
    else if r.isOnyomi != Some(0) && r.isOnyomi != Some(1) then Reject(ImportError(r.lineNum, BadFlag))
    else if EmptyText(d, r.reading) then Reject(ImportError(r.lineNum, EmptyReading))
    else if !IsHiragana(r.reading) then Reject(ImportError(r.lineNum, ReadingNotHiragana))
    else if r.okurigana.Some? && !IsHiragana(r.okurigana.value) then Reject(ImportError(r.lineNum, OkuriganaNotHiragana))
    else Insert(Insertion(kanjiMap[r.kanji], r.isOnyomi.value, r.reading, r.okurigana))
  }

  /** Neither empty text nor `"0"` is hiragana. */
  lemma ZeroNotHiragana()
    ensures !IsHiragana("0") && !IsHiragana("")
  {
    assert "0"[0] == '0';
  }

  /** A row is inserted exactly when its kanji is registered, its flag is 0
      or 1, its reading is hiragana and its okurigana is null or hiragana,
      in both scripts: the empty-reading check never decides acceptance
      alone, since empty text (and `"0"`) is not hiragana. */
  lemma ValidateAccepts(d: Dialect, kanjiMap: map<string, int>, r: Row)
    ensures Validate(d, kanjiMap, r).Insert? <==>
      && r.kanji in kanjiMap && (r.isOnyomi == Some(0) || r.isOnyomi == Some(1))
      && IsHiragana(r.reading) && (r.okurigana.None? || IsHiragana(r.okurigana.value))
    ensures Validate(d, kanjiMap, r).Insert? ==>
      Validate(d, kanjiMap, r).ins == Insertion(kanjiMap[r.kanji], r.isOnyomi.value, r.reading, r.okurigana)
    ensures Validate(Js, kanjiMap, r).Insert? == Validate(Php, kanjiMap, r).Insert?
  {
    ZeroNotHiragana();
  }

  /** The check order: each reason is reported exactly when every earlier
      check passes and its own fails. */
  lemma ValidateFirstFailure(d: Dialect, kanjiMap: map<string, int>, r: Row)
    ensures var v := Validate(d, kanjiMap, r);
      var known := r.kanji in kanjiMap;
      var flagOk := r.isOnyomi == Some(0) || r.isOnyomi == Some(1);
      && (v == Reject(ImportError(r.lineNum, UnknownKanji)) <==> !known)
      && (v == Reject(ImportError(r.lineNum, BadFlag)) <==> known && !flagOk)
      && (v == Reject(ImportError(r.lineNum, EmptyReading)) <==> known && flagOk && EmptyText(d, r.reading))
      && (v == Reject(ImportError(r.lineNum, ReadingNotHiragana)) <==>
            known && flagOk && !EmptyText(d, r.reading) && !IsHiragana(r.reading))
      && (v == Reject(ImportError(r.lineNum, OkuriganaNotHiragana)) <==>
            known && flagOk && IsHiragana(r.reading) && r.okurigana.Some? && !IsHiragana(r.okurigana.value))
  {
    ZeroNotHiragana();
  }

  /** The reading `"0"` is "empty" to PHP and "not hiragana" to JavaScript:
      the same row is skipped by both, with different errors. */
  lemma ZeroReadingDiverges(kanjiMap: map<string, int>, kanji: string, flag: int, lineNum: nat)
    requires kanji in kanjiMap && (flag == 0 || flag == 1)
    ensures Validate(Js, kanjiMap, Row(kanji, Some(flag), "0", None, lineNum)) ==
            Reject(ImportError(lineNum, ReadingNotHiragana))
    ensures Validate(Php, kanjiMap, Row(kanji, Some(flag), "0", None, lineNum)) ==
            Reject(ImportError(lineNum, EmptyReading))
  {
    ZeroNotHiragana();
  }

  // ----------------------------------------------------------- normalisation

  /** `row.okurigana ? row.okurigana.trim() : null`, then `''` to null. */
  function JsOkurigana(o: Option<string>): Option<string> {
    if o.None? || o.value == [] then None
    else
      var t := Trim(Js, o.value);
      if t == [] then None else Some(t)
  }

  /** The JavaScript loop body before the checks: kanji, reading and
      okurigana trimmed. */
  function JsNormalise(r: Row): Row {
    Row(Trim(Js, r.kanji), r.isOnyomi, Trim(Js, r.reading), JsOkurigana(r.okurigana), r.lineNum)
  }

  function JsVerdict(kanjiMap: map<string, int>, r: Row): Verdict {
    Validate(Js, kanjiMap, JsNormalise(r))
  }

  /** `isset($row[3]) ? trim($row[3]) : null`, then `''` to null. */
  function PhpOkurigana(fields: seq<string>): Option<string> {
    if |fields| > 3 then
      var t := Trim(Php, fields[3]);
      if t == [] then None else Some(t)
    else None
  }

  /** The PHP loop body for one `fgetcsv` record on line `lineNum`: the
      column count first, then the normalised row through the five checks. */
  function PhpVerdict(kanjiMap: map<string, int>, fields: seq<string>, lineNum: nat): (v: Verdict)
    ensures |fields| < 3 <==> v == Reject(ImportError(lineNum, ShortRow))
  {
    if |fields| < 3 then Reject(ImportError(lineNum, ShortRow))
    else
      Validate(Php, kanjiMap, Row(Trim(Php, fields[0]), Some(PhpIntCast(fields[1])), Trim(Php, fields[2]),
                                  PhpOkurigana(fields), lineNum))
  }

  /** Okurigana is null exactly when it is missing or all blank, and is
      otherwise trimmed and non-empty, in both scripts. */
  lemma OkuriganaNormalised(o: Option<string>, fields: seq<string>)
    ensures JsOkurigana(o).None? <==> o.None? || AllBlank(JsWhite, o.value)
    ensures JsOkurigana(o).Some? ==> JsOkurigana(o).value != [] && Trim(Js, JsOkurigana(o).value) == JsOkurigana(o).value
    ensures PhpOkurigana(fields).None? <==> |fields| <= 3 || AllBlank(PhpTrimList, fields[3])
    ensures PhpOkurigana(fields).Some? ==>
      PhpOkurigana(fields).value != [] && Trim(Php, PhpOkurigana(fields).value) == PhpOkurigana(fields).value
  {
    if o.Some? {
      TrimEmpty(Js, o.value);
      TrimIdempotent(Js, o.value);
    }
    if |fields| > 3 {
      TrimEmpty(Php, fields[3]);
      TrimIdempotent(Php, fields[3]);
    }
  }

  /** A record of two columns is an error in PHP, while the JavaScript
      parser drops the same line before validation. */
  lemma ShortRowDiverges(kanjiMap: map<string, int>, lineNum: nat)
    ensures PhpVerdict(kanjiMap, ["x", "1"], lineNum) == Reject(ImportError(lineNum, ShortRow))
    ensures ParseLine("x,1", lineNum) == None
  {
    ShortLineDropped(lineNum);
  }

  // ------------------------------------------------------------ accumulation

  /** `gradeStats[g]`: on- and kun-readings imported for one grade. */
  datatype Tally = Tally(onyomi: nat, kunyomi: nat)

  /** The state of the row loop; `stats[g - 1]` is `gradeStats[g]`. */
  datatype Import = Import(inserted: seq<Insertion>, imported: nat, skipped: nat, errors: seq<ImportError>,
                           stats: seq<Tally>)

  function Start(): (s: Import)
    ensures |s.stats| == 6
  {
    Import([], 0, 0, [], seq(6, _ => Tally(0, 0)))
  }

  /** An inserted kanji's id has a grade in 1..6 (`gradeMap[kanjiId]`). */
  predicate Known(gradeMap: map<int, int>, v: Verdict) {
    v.Insert? ==> v.ins.kanjiId in gradeMap && ValidGrade(gradeMap[v.ins.kanjiId])
  }

  /** Every registered kanji has a grade in 1..6, as the kanji import guarantees. */
  predicate Registered(kanjiMap: map<string, int>, gradeMap: map<int, int>) {
    forall k | k in kanjiMap :: kanjiMap[k] in gradeMap && ValidGrade(gradeMap[kanjiMap[k]])
  }

  /** The effect of one verdict on the loop state. */
  function Account(s: Import, gradeMap: map<int, int>, v: Verdict): (r: Import)
    requires |s.stats| == 6 && Known(gradeMap, v)
    ensures |r.stats| == 6
  {
    match v
    case Reject(err) => s.(skipped := s.skipped + 1, errors := s.errors + [err])
    case Insert(ins) =>
      var i := gradeMap[ins.kanjiId] - 1;
      var t := s.stats[i];
      s.(inserted := s.inserted + [ins], imported := s.imported + 1,
         stats := s.stats[i := if ins.isOnyomi == 1 then t.(onyomi := t.onyomi + 1) else t.(kunyomi := t.kunyomi + 1)])
  }

  /** The loop over the verdicts of the rows, in order. */
  function ImportFold(gradeMap: map<int, int>, vs: seq<Verdict>): (s: Import)
    requires forall k | 0 <= k < |vs| :: Known(gradeMap, vs[k])
    ensures |s.stats| == 6
  {
    if vs == [] then Start()
    else Account(ImportFold(gradeMap, vs[..|vs| - 1]), gradeMap, vs[|vs| - 1])
  }

  lemma ImportFoldStep(gradeMap: map<int, int>, vs: seq<Verdict>, i: nat)
    requires i < |vs| && forall k | 0 <= k < |vs| :: Known(gradeMap, vs[k])
    ensures ImportFold(gradeMap, vs[..i + 1]) == Account(ImportFold(gradeMap, vs[..i]), gradeMap, vs[i])
  {
    assert vs[..i + 1][..i] == vs[..i];
  }

  // ----------------------------------------------------------- reference view

  function Inserted(vs: seq<Verdict>): seq<Insertion> {
    if vs == [] then []
    else Inserted(vs[..|vs| - 1]) + match vs[|vs| - 1] { case Insert(ins) => [ins] case Reject(_) => [] }
  }

  function Errors(vs: seq<Verdict>): seq<ImportError> {
    if vs == [] then []
    else Errors(vs[..|vs| - 1]) + match vs[|vs| - 1] { case Insert(_) => [] case Reject(e) => [e] }
  }

  /** The inserted rows of grade `g` with on-flag `on` (1) or not. */
  function GradeCount(gradeMap: map<int, int>, ins: seq<Insertion>, g: int, on: bool): nat {
    if ins == [] then 0
    else
      var last := ins[|ins| - 1];
      GradeCount(gradeMap, ins[..|ins| - 1], g, on)
        + if last.kanjiId in gradeMap && gradeMap[last.kanjiId] == g && (last.isOnyomi == 1) == on then 1 else 0
  }

  /** The sum of all twelve tallies. */
  function TallyTotal(stats: seq<Tally>): nat
    requires |stats| == 6
  {
    stats[0].onyomi + stats[0].kunyomi + stats[1].onyomi + stats[1].kunyomi
      + stats[2].onyomi + stats[2].kunyomi + stats[3].onyomi + stats[3].kunyomi
      + stats[4].onyomi + stats[4].kunyomi + stats[5].onyomi + stats[5].kunyomi
  }

  /** Every row is either inserted or skipped with one error, and the
      inserted rows and the errors are those of the verdicts, in order. */
  lemma {:induction false} ImportFoldRows(gradeMap: map<int, int>, vs: seq<Verdict>)
    requires forall k | 0 <= k < |vs| :: Known(gradeMap, vs[k])
    ensures var s := ImportFold(gradeMap, vs);
      && s.inserted == Inserted(vs) && s.errors == Errors(vs)
      && s.imported == |s.inserted| && s.skipped == |s.errors|
      && s.imported + s.skipped == |vs|
  {
    if vs != [] {
      ImportFoldRows(gradeMap, vs[..|vs| - 1]);
    }
  }

  /** Grade `g`'s tallies count its inserted on- and kun-readings. */
  lemma {:induction false} ImportFoldTally(gradeMap: map<int, int>, vs: seq<Verdict>, g: int)
    requires forall k | 0 <= k < |vs| :: Known(gradeMap, vs[k])
    requires ValidGrade(g)
    ensures var s := ImportFold(gradeMap, vs);
      s.stats[g - 1] == Tally(GradeCount(gradeMap, s.inserted, g, true), GradeCount(gradeMap, s.inserted, g, false))
  {
    if vs != [] {
      var init := vs[..|vs| - 1];
      ImportFoldTally(gradeMap, init, g);
      var p := ImportFold(gradeMap, init);
      var s := ImportFold(gradeMap, vs);
      match vs[|vs| - 1] {
        case Reject(e) =>
          assert s.inserted == p.inserted && s.stats == p.stats;
        case Insert(ins) =>
          assert s.inserted == p.inserted + [ins];
          assert s.inserted[..|s.inserted| - 1] == p.inserted;
      }
    }
  }

  /** One insertion adds one to exactly one of the twelve tallies. */
  lemma AccountTotal(s: Import, gradeMap: map<int, int>, v: Verdict)
    requires |s.stats| == 6 && Known(gradeMap, v)
    ensures TallyTotal(Account(s, gradeMap, v).stats) == TallyTotal(s.stats) + (if v.Insert? then 1 else 0)
  {
  }

  /** The tallies of all grades add up to the number of rows imported. */
  lemma {:induction false} ImportFoldTotal(gradeMap: map<int, int>, vs: seq<Verdict>)
    requires forall k | 0 <= k < |vs| :: Known(gradeMap, vs[k])
    ensures TallyTotal(ImportFold(gradeMap, vs).stats) == ImportFold(gradeMap, vs).imported
  {
    if vs != [] {
      ImportFoldTotal(gradeMap, vs[..|vs| - 1]);
      AccountTotal(ImportFold(gradeMap, vs[..|vs| - 1]), gradeMap, vs[|vs| - 1]);
    }
  }

  /** Every inserted row and every error comes from one verdict, and every
      verdict leaves its row or its error in the result. */
  lemma {:induction false} VerdictsAccounted(vs: seq<Verdict>)
    ensures forall k | 0 <= k < |Inserted(vs)| :: Insert(Inserted(vs)[k]) in vs
    ensures forall k | 0 <= k < |Errors(vs)| :: Reject(Errors(vs)[k]) in vs
    ensures forall j | 0 <= j < |vs| :: (vs[j].Insert? ==> vs[j].ins in Inserted(vs)) &&
                                        (vs[j].Reject? ==> vs[j].error in Errors(vs))
  {
    if vs != [] {
      var init := vs[..|vs| - 1];
      VerdictsAccounted(init);
      assert forall j | 0 <= j < |init| :: init[j] == vs[j];
      assert forall v | v in init :: v in vs;
    }
  }

  /** What every inserted row satisfies: a registered kanji's id, flag 0 or
      1, a hiragana reading, and null or hiragana okurigana. */
  predicate ValidInsertion(kanjiMap: map<string, int>, ins: Insertion) {
    && ins.kanjiId in kanjiMap.Values
    && (ins.isOnyomi == 0 || ins.isOnyomi == 1)
    && IsHiragana(ins.reading)
    && (ins.okurigana.None? || IsHiragana(ins.okurigana.value))
  }

  lemma ValidateValid(d: Dialect, kanjiMap: map<string, int>, r: Row)
    ensures Validate(d, kanjiMap, r).Insert? ==> ValidInsertion(kanjiMap, Validate(d, kanjiMap, r).ins)
  {
    if r.kanji in kanjiMap {
      assert kanjiMap[r.kanji] in kanjiMap.Values;
    }
  }

  /** The verdicts of a sequence of rows, in order. */
  function Verdicts<R>(verdictOf: R -> Verdict, rows: seq<R>): (vs: seq<Verdict>)
    ensures |vs| == |rows| && forall k | 0 <= k < |rows| :: vs[k] == verdictOf(rows[k])
  {
    seq(|rows|, k requires 0 <= k < |rows| => verdictOf(rows[k]))
  }

  lemma RegisteredKnown(kanjiMap: map<string, int>, gradeMap: map<int, int>, v: Verdict, kanji: string)
    requires Registered(kanjiMap, gradeMap)
    requires v.Insert? ==> kanji in kanjiMap && v.ins.kanjiId == kanjiMap[kanji]
    ensures Known(gradeMap, v)
  {
  }

  // -------------------------------------------------------------- JavaScript

  function JsVerdictOf(kanjiMap: map<string, int>): Row -> Verdict {
    r => JsVerdict(kanjiMap, r)
  }

  lemma JsKnown(kanjiMap: map<string, int>, gradeMap: map<int, int>, rows: seq<Row>)
    requires Registered(kanjiMap, gradeMap)
    ensures forall k | 0 <= k < |rows| :: Known(gradeMap, JsVerdictOf(kanjiMap)(rows[k]))
  {
    forall k | 0 <= k < |rows| ensures Known(gradeMap, JsVerdictOf(kanjiMap)(rows[k])) {
      RegisteredKnown(kanjiMap, gradeMap, JsVerdict(kanjiMap, rows[k]), JsNormalise(rows[k]).kanji);
    }
  }

  /** The state after `insertMany` has seen every row. */
  function JsImport(kanjiMap: map<string, int>, gradeMap: map<int, int>, rows: seq<Row>): Import
    requires Registered(kanjiMap, gradeMap)
  {
    JsKnown(kanjiMap, gradeMap, rows);
    ImportFold(gradeMap, Verdicts(JsVerdictOf(kanjiMap), rows))
  }

  /** The loop of `insertMany`, with its body's normalisation and checks
      given as `verdictOf`: each row is inserted and tallied, or reported
      and skipped. */
  method ImportRows(verdictOf: Row -> Verdict, gradeMap: map<int, int>, rows: seq<Row>)
    returns (inserted: seq<Insertion>, importedCount: nat, skippedCount: nat, errors: seq<ImportError>,
             gradeStats: seq<Tally>)
    requires forall k | 0 <= k < |rows| :: Known(gradeMap, verdictOf(rows[k]))
    ensures Import(inserted, importedCount, skippedCount, errors, gradeStats) ==
            ImportFold(gradeMap, Verdicts(verdictOf, rows))
  {
    var s := Start();
    inserted, importedCount, skippedCount, errors, gradeStats := s.inserted, s.imported, s.skipped, s.errors, s.stats;
    ghost var vs := Verdicts(verdictOf, rows);
    for i := 0 to |rows|
      invariant |gradeStats| == 6
      invariant Import(inserted, importedCount, skippedCount, errors, gradeStats) == ImportFold(gradeMap, vs[..i])
    {
      var row := rows[i];
      ImportFoldStep(gradeMap, vs, i);
      match verdictOf(row) {
        case Reject(error) =>
          errors := errors + [error];
          skippedCount := skippedCount + 1;
        case Insert(ins) =>
          inserted := inserted + [ins];
          importedCount := importedCount + 1;
          var grade := gradeMap[ins.kanjiId];
          if ins.isOnyomi == 1 {
            gradeStats := gradeStats[grade - 1 := gradeStats[grade - 1].(onyomi := gradeStats[grade - 1].onyomi + 1)];
          } else {
            gradeStats := gradeStats[grade - 1 := gradeStats[grade - 1].(kunyomi := gradeStats[grade - 1].kunyomi + 1)];
          }
      }
    }
    assert vs[..|rows|] == vs;
  }

  /** `insertMany(rows)`. */
  method InsertMany(kanjiMap: map<string, int>, gradeMap: map<int, int>, rows: seq<Row>)
    returns (inserted: seq<Insertion>, importedCount: nat, skippedCount: nat, errors: seq<ImportError>,
             gradeStats: seq<Tally>)
    requires Registered(kanjiMap, gradeMap)
    ensures Import(inserted, importedCount, skippedCount, errors, gradeStats) == JsImport(kanjiMap, gradeMap, rows)
  {
    JsKnown(kanjiMap, gradeMap, rows);
    inserted, importedCount, skippedCount, errors, gradeStats := ImportRows(JsVerdictOf(kanjiMap), gradeMap, rows);
  }

  /** Counters of `insertMany`: every parsed row is either imported or
      skipped, one error per skip, and the tallies add up to the imports. */
  lemma JsImportCounts(kanjiMap: map<string, int>, gradeMap: map<int, int>, rows: seq<Row>)
    requires Registered(kanjiMap, gradeMap)
    ensures var s := JsImport(kanjiMap, gradeMap, rows);
      && s.imported + s.skipped == |rows| && |s.errors| == s.skipped && |s.inserted| == s.imported
      && TallyTotal(s.stats) == s.imported
  {
    JsKnown(kanjiMap, gradeMap, rows);
    var vs := Verdicts(JsVerdictOf(kanjiMap), rows);
    ImportFoldRows(gradeMap, vs);
    ImportFoldTotal(gradeMap, vs);
  }

  /** The rows `insertMany` inserts are the accepted rows' insertions, in
      row order, and the errors those of the rejected rows; every inserted
      row is valid, and no error is a short row: the parser has already
      dropped those lines. */
  lemma JsImportRows(kanjiMap: map<string, int>, gradeMap: map<int, int>, rows: seq<Row>)
    requires Registered(kanjiMap, gradeMap)
    ensures var s := JsImport(kanjiMap, gradeMap, rows);
      var vs := Verdicts(JsVerdictOf(kanjiMap), rows);
      && s.inserted == Inserted(vs) && s.errors == Errors(vs)
      && (forall k | 0 <= k < |rows| :: JsVerdict(kanjiMap, rows[k]).Insert? ==> JsVerdict(kanjiMap, rows[k]).ins in s.inserted)
      && (forall k | 0 <= k < |rows| :: JsVerdict(kanjiMap, rows[k]).Reject? ==> JsVerdict(kanjiMap, rows[k]).error in s.errors)
      && (forall k | 0 <= k < |s.inserted| :: ValidInsertion(kanjiMap, s.inserted[k]))
      && (forall k | 0 <= k < |s.errors| :: s.errors[k].reason != ShortRow)
  {
    JsKnown(kanjiMap, gradeMap, rows);
    var vs := Verdicts(JsVerdictOf(kanjiMap), rows);
    ImportFoldRows(gradeMap, vs);
    VerdictsAccounted(vs);
    forall j | 0 <= j < |rows| ensures vs[j].Insert? ==> ValidInsertion(kanjiMap, vs[j].ins) {
      ValidateValid(Js, kanjiMap, JsNormalise(rows[j]));
    }
  }

  // --------------------------------------------------------------------- PHP

  function PhpVerdictOf(kanjiMap: map<string, int>): (seq<string>, nat) -> Verdict {
    (fields: seq<string>, lineNum: nat) => PhpVerdict(kanjiMap, fields, lineNum)
  }

  /** The verdicts of the data records, which PHP numbers from line 2. */
  function NumberedVerdicts(verdictOf: (seq<string>, nat) -> Verdict, records: seq<seq<string>>): (vs: seq<Verdict>)
    ensures |vs| == |records| && forall k | 0 <= k < |records| :: vs[k] == verdictOf(records[k], k + 2)
  {
    seq(|records|, k requires 0 <= k < |records| => verdictOf(records[k], k + 2))
  }

  lemma PhpKnown(kanjiMap: map<string, int>, gradeMap: map<int, int>, records: seq<seq<string>>)
    requires Registered(kanjiMap, gradeMap)
    ensures forall k | 0 <= k < |records| :: Known(gradeMap, PhpVerdictOf(kanjiMap)(records[k], k + 2))
  {
    forall k | 0 <= k < |records| ensures Known(gradeMap, PhpVerdictOf(kanjiMap)(records[k], k + 2)) {
      var f := records[k];
      if |f| >= 3 {
        RegisteredKnown(kanjiMap, gradeMap, PhpVerdict(kanjiMap, f, k + 2), Trim(Php, f[0]));
      }
    }
  }

  /** The state after the PHP loop has read every record after the header. */
  function PhpImport(kanjiMap: map<string, int>, gradeMap: map<int, int>, records: seq<seq<string>>): Import
    requires Registered(kanjiMap, gradeMap)
  {
    PhpKnown(kanjiMap, gradeMap, Csv.DataRows(records));
    ImportFold(gradeMap, NumberedVerdicts(PhpVerdictOf(kanjiMap), Csv.DataRows(records)))
  }

  /** The `while (($row = fgetcsv($handle)) !== false)` loop after the header
      record, with its body's checks given as `verdictOf`. */
  method ImportRecords(verdictOf: (seq<string>, nat) -> Verdict, gradeMap: map<int, int>, records: seq<seq<string>>)
    returns (inserted: seq<Insertion>, importedCount: nat, skippedCount: nat, errors: seq<ImportError>,
             gradeStats: seq<Tally>)
    requires forall k | 0 <= k < |Csv.DataRows(records)| :: Known(gradeMap, verdictOf(Csv.DataRows(records)[k], k + 2))
    ensures Import(inserted, importedCount, skippedCount, errors, gradeStats) ==
            ImportFold(gradeMap, NumberedVerdicts(verdictOf, Csv.DataRows(records)))
  {
    var s := Start();
    inserted, importedCount, skippedCount, errors, gradeStats := s.inserted, s.imported, s.skipped, s.errors, s.stats;
    var data := Csv.DataRows(records);
    ghost var vs := NumberedVerdicts(verdictOf, data);
    var lineNum := 1;
    var i := 0;
    while i < |data|
      invariant 0 <= i <= |data| && lineNum == i + 1
      invariant |gradeStats| == 6
      invariant Import(inserted, importedCount, skippedCount, errors, gradeStats) == ImportFold(gradeMap, vs[..i])
    {
      var row := data[i];
      lineNum := lineNum + 1;
      ImportFoldStep(gradeMap, vs, i);
      match verdictOf(row, lineNum) {
        case Reject(error) =>
          errors := errors + [error];
          skippedCount := skippedCount + 1;
        case Insert(ins) =>
          inserted := inserted + [ins];
          importedCount := importedCount + 1;
          var grade := gradeMap[ins.kanjiId];
          if ins.isOnyomi == 1 {
            gradeStats := gradeStats[grade - 1 := gradeStats[grade - 1].(onyomi := gradeStats[grade - 1].onyomi + 1)];
          } else {
            gradeStats := gradeStats[grade - 1 := gradeStats[grade - 1].(kunyomi := gradeStats[grade - 1].kunyomi + 1)];
          }
      }
      i := i + 1;
    }
    assert vs[..|data|] == vs;
  }

  /** The PHP import of the records `fgetcsv` reads, the header first. */
  method PhpImportCsv(kanjiMap: map<string, int>, gradeMap: map<int, int>, records: seq<seq<string>>)
    returns (inserted: seq<Insertion>, importedCount: nat, skippedCount: nat, errors: seq<ImportError>,
             gradeStats: seq<Tally>)
    requires Registered(kanjiMap, gradeMap)
    ensures Import(inserted, importedCount, skippedCount, errors, gradeStats) == PhpImport(kanjiMap, gradeMap, records)
  {
    PhpKnown(kanjiMap, gradeMap, Csv.DataRows(records));
    inserted, importedCount, skippedCount, errors, gradeStats := ImportRecords(PhpVerdictOf(kanjiMap), gradeMap, records);
  }

  /** Counters of the PHP loop: every record after the header is either
      imported or skipped, one error per skip, and the tallies add up to the
      imports. */
  lemma PhpImportCounts(kanjiMap: map<string, int>, gradeMap: map<int, int>, records: seq<seq<string>>)
    requires Registered(kanjiMap, gradeMap)
    ensures var s := PhpImport(kanjiMap, gradeMap, records);
      && s.imported + s.skipped == |Csv.DataRows(records)| && |s.errors| == s.skipped && |s.inserted| == s.imported
      && TallyTotal(s.stats) == s.imported
  {
    var data := Csv.DataRows(records);
    PhpKnown(kanjiMap, gradeMap, data);
    var vs := NumberedVerdicts(PhpVerdictOf(kanjiMap), data);
    ImportFoldRows(gradeMap, vs);
    ImportFoldTotal(gradeMap, vs);
  }

  /** The rows the PHP loop inserts are the accepted records' insertions, in
      record order, and the errors those of the rejected records; every
      inserted row is valid, and a record of fewer than three columns is
      reported as a short row on its line. */
  lemma PhpImportRows(kanjiMap: map<string, int>, gradeMap: map<int, int>, records: seq<seq<string>>)
    requires Registered(kanjiMap, gradeMap)
    ensures var s := PhpImport(kanjiMap, gradeMap, records);
      var data := Csv.DataRows(records);
      var vs := NumberedVerdicts(PhpVerdictOf(kanjiMap), data);
      && s.inserted == Inserted(vs) && s.errors == Errors(vs)
      && (forall k | 0 <= k < |data| :: PhpVerdict(kanjiMap, data[k], k + 2).Insert? ==> PhpVerdict(kanjiMap, data[k], k + 2).ins in s.inserted)
      && (forall k | 0 <= k < |data| :: PhpVerdict(kanjiMap, data[k], k + 2).Reject? ==> PhpVerdict(kanjiMap, data[k], k + 2).error in s.errors)
      && (forall k | 0 <= k < |s.inserted| :: ValidInsertion(kanjiMap, s.inserted[k]))
      && (forall k | 0 <= k < |data| && |data[k]| < 3 :: ImportError(k + 2, ShortRow) in s.errors)
  {
    var data := Csv.DataRows(records);
    PhpKnown(kanjiMap, gradeMap, data);
    var vs := NumberedVerdicts(PhpVerdictOf(kanjiMap), data);
    FoldKeepsVerdicts(gradeMap, vs);
    forall j | 0 <= j < |data| ensures vs[j].Insert? ==> ValidInsertion(kanjiMap, vs[j].ins) {
      if |data[j]| >= 3 {
        var f := data[j];
        ValidateValid(Php, kanjiMap, Row(Trim(Php, f[0]), Some(PhpIntCast(f[1])), Trim(Php, f[2]), PhpOkurigana(f), j + 2));
      }
    }
  }

  /** The fold keeps every verdict's row or error, in verdict order. */
  lemma FoldKeepsVerdicts(gradeMap: map<int, int>, vs: seq<Verdict>)
    requires forall k | 0 <= k < |vs| :: Known(gradeMap, vs[k])
    ensures var s := ImportFold(gradeMap, vs);
      && s.inserted == Inserted(vs) && s.errors == Errors(vs)
      && (forall k | 0 <= k < |s.inserted| :: Insert(s.inserted[k]) in vs)
      && (forall j | 0 <= j < |vs| :: (vs[j].Insert? ==> vs[j].ins in s.inserted) &&
                                      (vs[j].Reject? ==> vs[j].error in s.errors))
  {
    ImportFoldRows(gradeMap, vs);
    VerdictsAccounted(vs);
  }
}
