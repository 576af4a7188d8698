/**
 * import_haitou_kanji.php: the import of the kanji allotted to each school
 * grade (配当漢字) from a CSV file into the `haitou_kanji` table. The file's
 * records after the header are filtered row by row; the accepted rows are
 * inserted in one transaction, which a repeated kanji (the table's UNIQUE
 * constraint) rolls back.
 */
module ImportHaitou {
  import opened Wrappers
  import opened Text
  import opened Grades
  import Csv

  /** One row of `haitou_kanji`: its grade and its kanji. */
  datatype HaitouRow = HaitouRow(grade: int, kanji: string)

  /** How the script ends. */
  datatype Outcome =
    | AlreadyImported(existing: nat)             // the table was not empty: nothing is read
    | Imported(rows: seq<HaitouRow>, count: nat) // committed: the rows inserted and `$count`
    | Duplicate(kanji: string)                   // an insert broke UNIQUE(kanji): rolled back

  /** The row filter: a record of at least three columns whose second column
      casts to a grade 1..6 and whose third, trimmed, is one character. The
      first column (the file's own key) is not used. */
  function AcceptRow(fields: seq<string>): (r: Option<HaitouRow>)
    ensures |fields| < 3 ==> r == None
    ensures r.Some? ==> ValidGrade(r.value.grade) && |r.value.kanji| == 1
    ensures r.Some? ==> !IsBlank(PhpTrimList, r.value.kanji[0])
    ensures |fields| >= 3 ==>
      (r.Some? <==> ValidGrade(PhpIntCast(fields[1])) && |Trim(Php, fields[2])| == 1)
  {
    if |fields| < 3 then None
    else
      var grade := PhpIntCast(fields[1]);
      var kanji := Trim(Php, fields[2]);
      if grade >= 1 && grade <= 6 && |kanji| == 1 then Some(HaitouRow(grade, kanji)) else None
  }

  lemma TrimmedKanji()
    ensures Trim(Php, " 山\n") == "山"
  {
    var s := " 山\n";
    assert LeadingBlank(PhpTrimList, s[1..]) == 0;
    assert LeadingBlank(PhpTrimList, s) == 1;
    assert !IsBlank(PhpTrimList, s[1]);
  }

  /** The kanji column is trimmed before its length is taken. */
  lemma AcceptRowTrims()
    ensures AcceptRow(["12", "3", " 山\n"]) == Some(HaitouRow(3, "山"))
  {
    TrimmedKanji();
    PhpIntCastDigit("3");
  }

  /** A grade outside 1..6 and a kanji column of two characters are refused. */
  lemma AcceptRowRefuses()
    ensures AcceptRow(["12", "7", "山"]) == None
    ensures AcceptRow(["12", "3", "山川"]) == None
  {
    PhpIntCastDigit("7");
    TrimKeeps(Php, "山川");
  }

  /** The rows `accept` keeps from `data`, in order. */
  function Filtered<T>(accept: T -> Option<HaitouRow>, data: seq<T>): (rows: seq<HaitouRow>)
    ensures |rows| <= |data|
  {
    if data == [] then []
    else
      Filtered(accept, data[..|data| - 1]) +
        match accept(data[|data| - 1]) { case Some(row) => [row] case None => [] }
  }

  /** The rows the loop inserts from `data`, in order. */
  function AcceptedRows(data: seq<seq<string>>): seq<HaitouRow> {
    Filtered(AcceptRow, data)
  }

  /** The kanji already in the table. */
  function KanjiSet(rows: seq<HaitouRow>): set<string> {
    set k | 0 <= k < |rows| :: rows[k].kanji
  }

  /** The first kanji, in insertion order, that is already in the table when
      it is inserted. */
  function FirstRepeat(rows: seq<HaitouRow>): Option<string> {
    if rows == [] then None
    else
      var init := rows[..|rows| - 1];
      match FirstRepeat(init)
      case Some(kanji) => Some(kanji)
      case None => if rows[|rows| - 1].kanji in KanjiSet(init) then Some(rows[|rows| - 1].kanji) else None
  }

  /** The transaction over the data records: every kept row inserted, or
      a rollback on the first repeated kanji. */
  function Transaction<T>(accept: T -> Option<HaitouRow>, data: seq<T>): Outcome {
    var rows := Filtered(accept, data);
    match FirstRepeat(rows)
    case Some(kanji) => Duplicate(kanji)
    case None => Imported(rows, |rows|)
  }

  /** The whole script on a table holding `existing` rows and the records
      `fgetcsv` reads from the file, the header first. */
  function HaitouSpec(existing: nat, records: seq<seq<string>>): Outcome {
    if existing > 0 then AlreadyImported(existing)
    else Transaction(AcceptRow, Csv.DataRows(records))
  }

  lemma KanjiSetSnoc(rows: seq<HaitouRow>, row: HaitouRow)
    ensures KanjiSet(rows + [row]) == KanjiSet(rows) + {row.kanji}
  {
    var both := rows + [row];
    forall s | s in KanjiSet(both) ensures s in KanjiSet(rows) + {row.kanji} {
      var k :| 0 <= k < |both| && both[k].kanji == s;
      if k < |rows| {
        assert rows[k].kanji == s;
      }
    }
    forall s | s in KanjiSet(rows) ensures s in KanjiSet(both) {
      var k :| 0 <= k < |rows| && rows[k].kanji == s;
      assert both[k].kanji == s;
    }
    assert both[|rows|].kanji == row.kanji;
  }

  lemma FilteredStep<T>(accept: T -> Option<HaitouRow>, data: seq<T>, i: nat)
    requires i < |data|
    ensures Filtered(accept, data[..i + 1]) ==
            Filtered(accept, data[..i]) + match accept(data[i]) { case Some(row) => [row] case None => [] }
  {
    assert data[..i + 1][..i] == data[..i];
  }

  /** The `while (($row = fgetcsv($handle)) !== false)` loop inside the
      transaction, with its row filter given as `accept`. `seen` holds the
      kanji the transaction has inserted; an insert of one of them throws,
      and the transaction is rolled back. */
  method InsertAccepted<T>(accept: T -> Option<HaitouRow>, data: seq<T>) returns (outcome: Outcome)
    ensures outcome == Transaction(accept, data)
  {
    var table: seq<HaitouRow> := [];
    var seen: set<string> := {};
    var count := 0;
    var i := 0;
    while i < |data|
      invariant 0 <= i <= |data|
      invariant table == Filtered(accept, data[..i]) && count == |table|
      invariant seen == KanjiSet(table) && FirstRepeat(table) == None
    {
      FilteredStep(accept, data, i);
      match accept(data[i]) {
        case None =>
        case Some(row) =>
          if row.kanji in seen {
            assert (table + [row])[..|table|] == table;
            DuplicateStays(accept, data, i + 1);
            return Duplicate(row.kanji);
          }
          KanjiSetSnoc(table, row);
          assert (table + [row])[..|table|] == table;
          table := table + [row];
          seen := seen + {row.kanji};
          count := count + 1;
      }
      i := i + 1;
    }
    assert data[..|data|] == data;
    return Imported(table, count);
  }

  /** The script: the row count check, then, with the BOM and the header
      consumed, the loop over the data records. */
  method ImportHaitou(existing: nat, records: seq<seq<string>>) returns (outcome: Outcome)
    ensures outcome == HaitouSpec(existing, records)
  {
    if existing > 0 {
      return AlreadyImported(existing);
    }
    outcome := InsertAccepted(AcceptRow, Csv.DataRows(records));
  }

  /** A repeat in the table stays the first repeat whatever is inserted after. */
  lemma FirstRepeatSnoc(rows: seq<HaitouRow>, more: seq<HaitouRow>)
    requires FirstRepeat(rows).Some? && |more| <= 1
    ensures FirstRepeat(rows + more) == FirstRepeat(rows)
  {
    if more != [] {
      assert (rows + more)[..|rows|] == rows;
    } else {
      assert rows + more == rows;
    }
  }

  /** Once a prefix of the records holds a repeat, so do the records. */
  lemma {:induction false} DuplicateStays<T>(accept: T -> Option<HaitouRow>, data: seq<T>, n: nat)
    requires n <= |data| && FirstRepeat(Filtered(accept, data[..n])).Some?
    ensures FirstRepeat(Filtered(accept, data)) == FirstRepeat(Filtered(accept, data[..n]))
  {
    if n < |data| {
      var init := data[..|data| - 1];
      assert init[..n] == data[..n];
      DuplicateStays(accept, init, n);
      FilteredStep(accept, data, |data| - 1);
      assert data[..|data|] == data;
      FirstRepeatSnoc(Filtered(accept, init), match accept(data[|data| - 1]) { case Some(row) => [row] case None => [] });
    } else {
      assert data[..n] == data;
    }
  }

  // ---------------------------------------------------------------- properties

  /** The kept rows are exactly the rows `accept` gives, in the order of the
      records: row `j` comes from some record, and every accepted record's
      row is among them. */
  lemma {:induction false} FilteredFrom<T>(accept: T -> Option<HaitouRow>, data: seq<T>)
    ensures forall j | 0 <= j < |Filtered(accept, data)| ::
      exists k | 0 <= k < |data| :: accept(data[k]) == Some(Filtered(accept, data)[j])
    ensures forall k | 0 <= k < |data| && accept(data[k]).Some? :: accept(data[k]).value in Filtered(accept, data)
  {
    if data != [] {
      var init := data[..|data| - 1];
      FilteredFrom(accept, init);
      var rows := Filtered(accept, data);
      var initRows := Filtered(accept, init);
      assert rows[..|initRows|] == initRows;
      forall j | 0 <= j < |rows| ensures exists k | 0 <= k < |data| :: accept(data[k]) == Some(rows[j]) {
        if j < |initRows| {
          var k :| 0 <= k < |init| && accept(init[k]) == Some(initRows[j]);
          assert data[k] == init[k] && rows[j] == initRows[j];
          assert accept(data[k]) == Some(rows[j]);
        } else {
          var last := data[|data| - 1];
          assert rows == initRows + match accept(last) { case Some(row) => [row] case None => [] };
          assert accept(last).Some? && accept(last).value == rows[j];
          assert accept(data[|data| - 1]) == Some(rows[j]);
        }
      }
      forall k | 0 <= k < |data| && accept(data[k]).Some? ensures accept(data[k]).value in rows {
        if k < |init| {
          assert init[k] == data[k];
        }
      }
    } else {
      assert Filtered(accept, data) == [];
    }
  }

  /** The number of records `accept` keeps, counted from the front. */
  function KeptCount<T>(accept: T -> Option<HaitouRow>, data: seq<T>): nat {
    if data == [] then 0
    else (if accept(data[0]).Some? then 1 else 0) + KeptCount(accept, data[1..])
  }

  lemma {:induction false} KeptCountSnoc<T>(accept: T -> Option<HaitouRow>, data: seq<T>, x: T)
    ensures KeptCount(accept, data + [x]) == KeptCount(accept, data) + (if accept(x).Some? then 1 else 0)
  {
    if data != [] {
      assert (data + [x])[1..] == data[1..] + [x];
      KeptCountSnoc(accept, data[1..], x);
    } else {
      assert ([] + [x])[1..] == [];
    }
  }

  /** `$count` counts the accepted records, whichever end they are counted
      from. */
  lemma {:induction false} FilteredCount<T>(accept: T -> Option<HaitouRow>, data: seq<T>)
    ensures |Filtered(accept, data)| == KeptCount(accept, data)
  {
    if data != [] {
      var init := data[..|data| - 1];
      FilteredCount(accept, init);
      KeptCountSnoc(accept, init, data[|data| - 1]);
      assert init + [data[|data| - 1]] == data;
    }
  }

  /** No repeat is found exactly when the kanji are pairwise distinct. */
  lemma {:induction false} FirstRepeatDistinct(rows: seq<HaitouRow>)
    ensures FirstRepeat(rows) == None <==>
      forall i, j | 0 <= i < j < |rows| :: rows[i].kanji != rows[j].kanji
  {
    if rows != [] {
      var init := rows[..|rows| - 1];
      var last := rows[|rows| - 1];
      FirstRepeatDistinct(init);
      if FirstRepeat(rows) == None {
        forall i, j | 0 <= i < j < |rows| ensures rows[i].kanji != rows[j].kanji {
          if j < |rows| - 1 {
            assert init[i] == rows[i] && init[j] == rows[j];
          } else {
            assert init[i].kanji in KanjiSet(init);
          }
        }
      } else {
        match FirstRepeat(init)
        case Some(_) =>
          var i, j :| 0 <= i < j < |init| && init[i].kanji == init[j].kanji;
          assert rows[i] == init[i] && rows[j] == init[j];
        case None =>
          var i :| 0 <= i < |init| && init[i].kanji == last.kanji;
          assert rows[i] == init[i];
      }
    }
  }

  /** A repeat found is a kanji that two accepted rows share. */
  lemma {:induction false} FirstRepeatShared(rows: seq<HaitouRow>)
    requires FirstRepeat(rows).Some?
    ensures exists i, j | 0 <= i < j < |rows| :: rows[i].kanji == rows[j].kanji == FirstRepeat(rows).value
  {
    var init := rows[..|rows| - 1];
    if FirstRepeat(init).Some? {
      FirstRepeatShared(init);
      var i, j :| 0 <= i < j < |init| && init[i].kanji == init[j].kanji == FirstRepeat(init).value;
      assert rows[i] == init[i] && rows[j] == init[j];
    } else {
      var i :| 0 <= i < |init| && init[i].kanji == rows[|rows| - 1].kanji;
      assert rows[i] == init[i];
    }
  }

  /** What the script leaves behind: nothing when the table was already
      filled; otherwise either every accepted row, each a valid grade and a
      single character, all kanji distinct and `$count` their number, or
      a rollback on a kanji that two accepted rows share. */
  lemma HaitouOutcome(existing: nat, records: seq<seq<string>>)
    ensures var o := HaitouSpec(existing, records);
      var rows := AcceptedRows(Csv.DataRows(records));
      && (o.AlreadyImported? <==> existing > 0)
      && (o.Imported? ==>
            && o.rows == rows && o.count == |rows| == KeptCount(AcceptRow, Csv.DataRows(records))
            && (forall k | 0 <= k < |rows| :: ValidGrade(rows[k].grade) && |rows[k].kanji| == 1)
            && (forall i, j | 0 <= i < j < |rows| :: rows[i].kanji != rows[j].kanji))
      && (o.Duplicate? ==>
            existing == 0 && exists i, j | 0 <= i < j < |rows| :: rows[i].kanji == rows[j].kanji == o.kanji)
  {
    var data := Csv.DataRows(records);
    var rows := AcceptedRows(data);
    FilteredCount(AcceptRow, data);
    FirstRepeatDistinct(rows);
    FilteredFrom(AcceptRow, data);
    forall k | 0 <= k < |rows| ensures ValidGrade(rows[k].grade) && |rows[k].kanji| == 1 {
      var m :| 0 <= m < |data| && AcceptRow(data[m]) == Some(rows[k]);
    }
    if FirstRepeat(rows).Some? {
      FirstRepeatShared(rows);
    }
  }

  /** A file whose accepted rows have distinct kanji is imported in full. */
  lemma DistinctImported(records: seq<seq<string>>)
    requires var rows := AcceptedRows(Csv.DataRows(records));
      forall i, j | 0 <= i < j < |rows| :: rows[i].kanji != rows[j].kanji
    ensures HaitouSpec(0, records) == Imported(AcceptedRows(Csv.DataRows(records)), KeptCount(AcceptRow, Csv.DataRows(records)))
  {
    FirstRepeatDistinct(AcceptedRows(Csv.DataRows(records)));
    FilteredCount(AcceptRow, Csv.DataRows(records));
  }

  // ------------------------------------------------------------ grade summary

  /** `SELECT grade, COUNT(*) ... GROUP BY grade`: the rows of grade `g`. */
  function GradeCount(rows: seq<HaitouRow>, g: int): nat {
    if rows == [] then 0
    else GradeCount(rows[..|rows| - 1], g) + (if rows[|rows| - 1].grade == g then 1 else 0)
  }

  function GradeTotal(rows: seq<HaitouRow>, g: nat): nat {
    if g == 0 then 0 else GradeTotal(rows, g - 1) + GradeCount(rows, g)
  }

  lemma {:induction false} GradeTotalSnoc(rows: seq<HaitouRow>, row: HaitouRow, g: nat)
    ensures GradeTotal(rows + [row], g) == GradeTotal(rows, g) + (if 1 <= row.grade <= g then 1 else 0)
  {
    assert (rows + [row])[..|rows|] == rows;
    if g > 0 {
      GradeTotalSnoc(rows, row, g - 1);
    }
  }

  lemma {:induction false} GradeTotalEmpty(g: nat)
    ensures GradeTotal([], g) == 0
  {
    if g > 0 {
      GradeTotalEmpty(g - 1);
    }
  }

  /** The per-grade breakdown adds up to all rows when every grade is 1..6. */
  lemma {:induction false} GradeBreakdownTotal(rows: seq<HaitouRow>)
    requires forall k | 0 <= k < |rows| :: ValidGrade(rows[k].grade)
    ensures GradeTotal(rows, 6) == |rows|
  {
    if rows != [] {
      var init := rows[..|rows| - 1];
      GradeBreakdownTotal(init);
      assert ValidGrade(rows[|rows| - 1].grade);
      GradeTotalSnoc(init, rows[|rows| - 1], 6);
      assert init + [rows[|rows| - 1]] == rows;
    } else {
      GradeTotalEmpty(6);
    }
  }
}
