/**
 * The hand-over between reading extraction and reading import: the CSV text
 * extract_kanji_readings.js writes is parsed by import_kanji_readings.js
 * back into its rows, numbered from line 2, and when every kanji is
 * registered each of them is inserted unchanged.
 */
module Pipeline {
  import opened Wrappers
  import opened Text
  import opened Kana
  import Extract
  import ImportReadings

  /** The row the importer's parser yields for an extracted row on line
      `lineNum`: the flag parsed back to a number and empty okurigana as null. */
  function ReadBack(row: Extract.ExtractedRow, lineNum: nat): ImportReadings.Row {
    ImportReadings.Row(row.kanji, Some(row.isOnyomi as int), row.reading,
                       if row.okurigana == [] then None else Some(row.okurigana), lineNum)
  }

  /** The rows read back from a written file, numbered from line 2. */
  function ReadBacks(results: seq<Extract.ExtractedRow>): (rows: seq<ImportReadings.Row>)
    ensures |rows| == |results| && forall k | 0 <= k < |rows| :: rows[k] == ReadBack(results[k], k + 2)
  {
    seq(|results|, k requires 0 <= k < |results| => ReadBack(results[k], k + 2))
  }

  /** The rows the extractor can write and the importer read back: valid,
      with a kanji column that needs no quoting and has no white space. */
  predicate Writable(results: seq<Extract.ExtractedRow>) {
    forall k | 0 <= k < |results| :: Extract.ValidRow(Js, results[k]) && Extract.PlainText(results[k].kanji)
  }

  lemma JoinFour(a: string, b: string, c: string, d: string, sep: char)
    ensures Join([a, b, c, d], sep) == a + [sep] + b + [sep] + c + [sep] + d
  {
    assert [a, b, c, d][1..] == [b, c, d];
    assert [b, c, d][1..] == [c, d];
    assert [c, d][1..] == [d];
    assert Join([c, d], sep) == c + [sep] + d;
    assert Join([b, c, d], sep) == b + [sep] + (c + [sep] + d);
  }

  /** Hiragana text has no blank at either end, so `trim` keeps it. */
  lemma TrimKeepsHiragana(s: string)
    requires IsHiragana(s)
    ensures Trim(Js, s) == s
  {
    TrimKeeps(Js, s);
  }

  lemma RowLineText(row: Extract.ExtractedRow)
    requires Extract.ValidRow(Js, row) && Extract.PlainText(row.kanji)
    ensures Extract.RowLine(row) == row.kanji + "," + NatToDecimal(row.isOnyomi) + "," + row.reading + "," + row.okurigana
  {
    Extract.RowLineFields(row);
    JoinFour(row.kanji, NatToDecimal(row.isOnyomi), row.reading, row.okurigana, ',');
  }

  lemma HiraganaNoFeed(s: string)
    requires IsHiragana(s)
    ensures '\n' !in s
  {
    forall i | 0 <= i < |s| ensures s[i] != '\n' {
      assert IsHiraganaChar(s[i]);
    }
  }

  lemma RowLineNoFeed(row: Extract.ExtractedRow)
    requires Extract.ValidRow(Js, row) && Extract.PlainText(row.kanji)
    ensures '\n' !in Extract.RowLine(row)
  {
    var fields := [row.kanji, NatToDecimal(row.isOnyomi), row.reading, row.okurigana];
    Extract.RowLineFields(row);
    assert IsBlank(JsWhite, '\n');
    assert '\n' !in row.kanji;
    assert NatToDecimal(row.isOnyomi) == "0" || NatToDecimal(row.isOnyomi) == "1";
    HiraganaNoFeed(row.reading);
    if row.okurigana != [] {
      HiraganaNoFeed(row.okurigana);
    }
    JoinFree(fields, ',', '\n');
  }

  /** A written line begins with the kanji and ends with the okurigana or,
      when there is none, with a comma: it is not blank, and `trim` keeps it. */
  lemma RowLineTrimmed(row: Extract.ExtractedRow)
    requires Extract.ValidRow(Js, row) && Extract.PlainText(row.kanji)
    ensures !AllBlank(JsWhite, Extract.RowLine(row)) && Trim(Js, Extract.RowLine(row)) == Extract.RowLine(row)
  {
    var line := Extract.RowLine(row);
    RowLineText(row);
    assert line[0] == row.kanji[0];
    if row.okurigana == [] {
      assert line[|line| - 1] == ',';
    } else {
      assert line[|line| - 1] == row.okurigana[|row.okurigana| - 1];
    }
    TrimKeeps(Js, line);
  }

  /** One written line is parsed back into its row. */
  lemma ReadBackLine(row: Extract.ExtractedRow, lineNum: nat)
    requires Extract.ValidRow(Js, row) && Extract.PlainText(row.kanji)
    ensures ImportReadings.ParseLine(Extract.RowLine(row), lineNum) == Some(ReadBack(row, lineNum))
  {
    RowLineTrimmed(row);
    Extract.RowLineFields(row);
    ParseDecimal(row.isOnyomi);
  }

  lemma HeaderShape()
    ensures '\n' !in Extract.Header && !AllBlank(JsWhite, Extract.Header)
  {
    assert Extract.Header[1] == 'k';
  }

  lemma LineRowsOf(line: string, lineNum: nat, row: ImportReadings.Row)
    requires ImportReadings.ParseLine(line, lineNum) == Some(row)
    ensures ImportReadings.LineRows(line, lineNum) == [row]
  {
  }

  /** Lines that each parse to one row give those rows, in order. */
  lemma {:induction false} ParsedRowsEach(lines: seq<string>, rows: seq<ImportReadings.Row>, n: nat)
    requires 1 <= n <= |lines| && |rows| == |lines| - 1
    requires forall k | 1 <= k < |lines| :: ImportReadings.ParseLine(lines[k], k + 1) == Some(rows[k - 1])
    ensures ImportReadings.ParsedRows(lines, n) == rows[..n - 1]
  {
    if n > 1 {
      ParsedRowsEach(lines, rows, n - 1);
      LineRowsOf(lines[n - 1], n, rows[n - 2]);
      ImportReadings.ParsedRowsStep(lines, n - 1);
      TakeSnoc(rows, n - 1);
    }
  }

  lemma TakeSnoc<T>(s: seq<T>, n: nat)
    requires 1 <= n <= |s|
    ensures s[..n] == s[..n - 1] + [s[n - 1]]
  {
  }

  /** The written row on line `k + 1` parses back into its row. */
  lemma WrittenLineParses(results: seq<Extract.ExtractedRow>, k: nat)
    requires Writable(results) && 1 <= k <= |results|
    ensures ImportReadings.ParseLine(Extract.CsvLines(results)[k], k + 1) == Some(ReadBacks(results)[k - 1])
  {
    assert ReadBacks(results)[k - 1] == ReadBack(results[k - 1], k + 1);
    assert Extract.CsvLines(results)[k] == Extract.RowLine(results[k - 1]);
    ReadBackLine(results[k - 1], k + 1);
  }

  /** The written row lines parse back into their rows, numbered from line 2. */
  lemma WrittenRowsParse(results: seq<Extract.ExtractedRow>)
    requires Writable(results)
    ensures ImportReadings.ParsedRows(Extract.CsvLines(results), |results| + 1) == ReadBacks(results)
  {
    var lines := Extract.CsvLines(results);
    var rows := ReadBacks(results);
    forall k | 1 <= k < |lines|
      ensures ImportReadings.ParseLine(lines[k], k + 1) == Some(rows[k - 1])
    {
      WrittenLineParses(results, k);
    }
    ParsedRowsEach(lines, rows, |lines|);
    assert rows[..|lines| - 1] == rows;
  }

  /** No written line holds a line feed or is blank. */
  lemma WrittenLinesKept(results: seq<Extract.ExtractedRow>)
    requires Writable(results)
    ensures var lines := Extract.CsvLines(results);
      forall k | 0 <= k < |lines| :: '\n' !in lines[k] && !AllBlank(JsWhite, lines[k])
  {
    var lines := Extract.CsvLines(results);
    HeaderShape();
    forall k | 1 <= k < |lines| ensures '\n' !in lines[k] && !AllBlank(JsWhite, lines[k]) {
      RowLineNoFeed(results[k - 1]);
      RowLineTrimmed(results[k - 1]);
    }
  }

  /** The text the extractor writes parses back into its rows, in order,
      numbered from line 2. */
  lemma ExtractedCsvParses(results: seq<Extract.ExtractedRow>)
    requires Writable(results)
    ensures ImportReadings.ParseCsvSpec(Join(Extract.CsvLines(results), '\n')) ==
            Some(ReadBacks(results))
  {
    var lines := Extract.CsvLines(results);
    var content := Join(lines, '\n');
    WrittenLinesKept(results);
    SplitJoin(lines, '\n');
    ImportReadings.NonBlankLinesKeep(lines);
    assert ImportReadings.NonBlankLines(Split(content, '\n')) == lines;
    assert ImportReadings.ParseCsvSpec(content).Some?;
    ImportReadings.ParseCsvRows(content);
    WrittenRowsParse(results);
  }

  /** A read-back row whose kanji is registered passes every check and is
      inserted as it was extracted. */
  lemma ReadBackInserted(kanjiMap: map<string, int>, row: Extract.ExtractedRow, lineNum: nat)
    requires Extract.ValidRow(Js, row) && Extract.PlainText(row.kanji) && row.kanji in kanjiMap
    ensures ImportReadings.JsVerdict(kanjiMap, ReadBack(row, lineNum)) == ImportReadings.Insert(Inserted(kanjiMap, row))
  {
    TrimKeeps(Js, row.kanji);
    TrimKeepsHiragana(row.reading);
    if row.okurigana != [] {
      TrimKeepsHiragana(row.okurigana);
    }
    var r := ImportReadings.JsNormalise(ReadBack(row, lineNum));
    assert r == ReadBack(row, lineNum);
    ImportReadings.ValidateAccepts(Js, kanjiMap, r);
  }

  lemma {:induction false} AllInserted(vs: seq<ImportReadings.Verdict>, ins: seq<ImportReadings.Insertion>)
    requires |vs| == |ins| && forall k | 0 <= k < |vs| :: vs[k] == ImportReadings.Insert(ins[k])
    ensures ImportReadings.Inserted(vs) == ins
    ensures ImportReadings.Errors(vs) == []
  {
    if vs != [] {
      AllInserted(vs[..|vs| - 1], ins[..|ins| - 1]);
    }
  }

  /** When every verdict is an insertion, the import inserts them all, in
      order, and skips nothing. */
  lemma FoldAllInserted(gradeMap: map<int, int>, vs: seq<ImportReadings.Verdict>, ins: seq<ImportReadings.Insertion>)
    requires forall k | 0 <= k < |vs| :: ImportReadings.Known(gradeMap, vs[k])
    requires |vs| == |ins| && forall k | 0 <= k < |vs| :: vs[k] == ImportReadings.Insert(ins[k])
    ensures var s := ImportReadings.ImportFold(gradeMap, vs);
      s.skipped == 0 && s.imported == |vs| && s.inserted == ins
  {
    AllInserted(vs, ins);
    ImportReadings.ImportFoldRows(gradeMap, vs);
  }

  /** The verdicts on the read-back rows are all insertions of the rows
      as extracted. */
  lemma ReadBackVerdicts(kanjiMap: map<string, int>, results: seq<Extract.ExtractedRow>)
    requires Writable(results)
    requires forall k | 0 <= k < |results| :: results[k].kanji in kanjiMap
    ensures var rows := ReadBacks(results);
      forall k | 0 <= k < |rows| :: ImportReadings.JsVerdict(kanjiMap, rows[k]) == ImportReadings.Insert(Inserted(kanjiMap, results[k]))
  {
    var rows := ReadBacks(results);
    forall k | 0 <= k < |rows|
      ensures ImportReadings.JsVerdict(kanjiMap, rows[k]) == ImportReadings.Insert(Inserted(kanjiMap, results[k]))
    {
      ReadBackInserted(kanjiMap, results[k], k + 2);
    }
  }

  /** The insertion of an extracted row with a registered kanji. */
  function Inserted(kanjiMap: map<string, int>, row: Extract.ExtractedRow): ImportReadings.Insertion
    requires row.kanji in kanjiMap
  {
    ImportReadings.Insertion(kanjiMap[row.kanji], row.isOnyomi, row.reading,
                             if row.okurigana == [] then None else Some(row.okurigana))
  }

  /** Extraction followed by import: when every extracted kanji is
      registered, the importer inserts every extracted row, in order and
      unchanged, and skips nothing. */
  lemma ExtractThenImport(kanjiMap: map<string, int>, gradeMap: map<int, int>, results: seq<Extract.ExtractedRow>)
    requires ImportReadings.Registered(kanjiMap, gradeMap) && Writable(results)
    requires forall k | 0 <= k < |results| :: results[k].kanji in kanjiMap
    ensures var rows := ReadBacks(results);
      var s := ImportReadings.JsImport(kanjiMap, gradeMap, rows);
      && s.skipped == 0 && s.imported == |results|
      && s.inserted == seq(|results|, k requires 0 <= k < |results| => Inserted(kanjiMap, results[k]))
  {
    var rows := ReadBacks(results);
    var ins := seq(|results|, k requires 0 <= k < |results| => Inserted(kanjiMap, results[k]));
    ImportReadings.JsKnown(kanjiMap, gradeMap, rows);
    var vs := ImportReadings.Verdicts(ImportReadings.JsVerdictOf(kanjiMap), rows);
    ReadBackVerdicts(kanjiMap, results);
    assert forall k | 0 <= k < |vs| :: vs[k] == ImportReadings.Insert(ins[k]);
    FoldAllInserted(gradeMap, vs, ins);
  }
}
