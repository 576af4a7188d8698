/**
 * Reading extraction from the KANJIDIC2 dictionary
 * (extract_kanji_readings.js and extract_kanji_readings.php): grade
 * selection, the status filter, the katakana shift of on-readings, the
 * splitting of kun-readings into base and okurigana, the hiragana check, the
 * counters and per-grade statistics, and the CSV lines the JavaScript
 * version writes. The XML scan is not modelled: a character is given as the
 * texts of its grade elements, its literal and its readings in document
 * order.
 */
module Extract {
  import opened Wrappers
  import opened Text
  import opened Kana
  import opened Grades
  import Csv

  /** `r_type` of a reading: `ja_on`, `ja_kun`, or any other (pinyin, korean, ...). */
  datatype ReadingType = JaOn | JaKun | OtherType

  /** One `<reading>` element; `status` is `""` when `r_status` is absent. */
  datatype RawReading = RawReading(rType: ReadingType, status: string, value: string)

  /** One `<character>` element: the texts of its `<grade>` elements in order,
      its `<literal>` and the readings of all its `<rmgroup>`s in order. */
  datatype Character = Character(grades: seq<string>, literal: string, readings: seq<RawReading>)

  /** One extracted row: `{kanji, is_onyomi, reading, okurigana}`. */
  datatype ExtractedRow = ExtractedRow(kanji: string, isOnyomi: nat, reading: string, okurigana: string)

  /** What `parseKunyomi` returns. */
  datatype Kun = Kun(reading: string, okurigana: string)

  // ------------------------------------------------------------ kun-readings

  predicate IsMark(c: char) { c == '-' || c == '(' || c == ')' }

  /** `replace(/[-()]/g, '')`. */
  function RemoveMarks(s: string): (r: string)
    ensures |r| <= |s|
  {
    if s == [] then [] else (if IsMark(s[0]) then [] else [s[0]]) + RemoveMarks(s[1..])
  }

  /** Every hyphen and parenthesis is deleted and every other character kept. */
  lemma {:induction false} RemoveMarksDeletes(s: string)
    ensures forall c :: c in RemoveMarks(s) <==> c in s && !IsMark(c)
  {
    if s != [] {
      RemoveMarksDeletes(s[1..]);
      assert s == [s[0]] + s[1..];
    }
  }

  /** Text without marks is left as it is. */
  lemma {:induction false} RemoveMarksKeeps(s: string)
    requires forall i | 0 <= i < |s| :: !IsMark(s[i])
    ensures RemoveMarks(s) == s
  {
    if s != [] {
      RemoveMarksKeeps(s[1..]);
    }
  }

  /** `parseKunyomi`: after deleting the marks, the text before the first dot
      is the reading; the okurigana is the next dot-separated piece in
      JavaScript (`split('.', 2)`) and everything after the first dot in PHP
      (`explode('.', ..., 2)`); without a dot the okurigana is empty. */
  function ParseKunyomi(d: Dialect, s: string): Kun {
    var cleaned := RemoveMarks(s);
    match IndexOf(cleaned, '.')
    case None => Kun(cleaned, "")
    case Some(i) =>
      match d
      case Js =>
        var parts := Split(cleaned, '.');
        Kun(parts[0], parts[1])
      case Php => Kun(cleaned[..i], cleaned[i + 1..])
  }

  /** The reading is the cleaned text up to its first dot, and both dialects
      take the same reading; the PHP okurigana is the whole rest, the
      JavaScript one the rest up to the next dot. */
  lemma ParseKunyomiShape(s: string)
    ensures var cleaned := RemoveMarks(s);
      var js, php := ParseKunyomi(Js, s), ParseKunyomi(Php, s);
      && js.reading == php.reading
      && '.' !in php.reading
      && ('.' !in cleaned ==> php == Kun(cleaned, ""))
      && ('.' in cleaned ==> cleaned == php.reading + "." + php.okurigana)
      && js.okurigana == Split(php.okurigana, '.')[0]
      && '.' !in js.okurigana
  {
    var cleaned := RemoveMarks(s);
    match IndexOf(cleaned, '.')
    case None =>
      assert IndexOf([], '.').None?;
    case Some(i) =>
      assert cleaned == cleaned[..i] + "." + cleaned[i + 1..];
  }

  /** With at most one dot left after cleaning, both dialects agree. */
  lemma KunDialectsAgree(s: string)
    requires '.' !in ParseKunyomi(Php, s).okurigana
    ensures ParseKunyomi(Js, s) == ParseKunyomi(Php, s)
  {
    ParseKunyomiShape(s);
    assert IndexOf(ParseKunyomi(Php, s).okurigana, '.').None?;
  }

  /** Hiragana and dots hold no mark to delete. */
  lemma DottedHiraganaClean(a: string, b: string, c: string)
    requires IsHiragana(a) && IsHiragana(b) && IsHiragana(c)
    ensures RemoveMarks(a + "." + b + "." + c) == a + "." + b + "." + c
  {
    var s := a + "." + b + "." + c;
    assert forall i | 0 <= i < |s| :: s[i] == '.' || IsHiraganaChar(s[i]);
    RemoveMarksKeeps(s);
  }

  /** How `a.b.c` with dot-free pieces is cut: the first dot after `a`, and
      `a`, `b` as the first two pieces. */
  lemma TwoDots(a: string, b: string, c: string)
    requires '.' !in a && '.' !in b && '.' !in c
    ensures var s := a + "." + b + "." + c;
      && IndexOf(s, '.') == Some(|a|) && s[..|a|] == a && s[|a| + 1..] == b + "." + c
      && |Split(s, '.')| >= 2 && Split(s, '.')[0] == a && Split(s, '.')[1] == b
  {
    var rest := b + "." + c;
    var s := a + "." + rest;
    assert s == a + "." + b + "." + c;
    assert IndexOf(s, '.') == Some(|a|) && s[..|a|] == a && s[|a| + 1..] == rest by {
      IndexOfPrefix(a, '.', rest);
    }
    assert IndexOf(rest, '.') == Some(|b|) && rest[..|b|] == b by {
      IndexOfPrefix(b, '.', c);
    }
    assert Split(rest, '.')[0] == b;
    assert Split(s, '.') == [a] + Split(rest, '.');
  }

  /** A second dot splits the dialects: JavaScript drops the text after it,
      PHP keeps it in the okurigana. */
  lemma KunDialectsDiverge(a: string, b: string, c: string)
    requires IsHiragana(a) && IsHiragana(b) && IsHiragana(c)
    ensures ParseKunyomi(Js, a + "." + b + "." + c) == Kun(a, b)
    ensures ParseKunyomi(Php, a + "." + b + "." + c) == Kun(a, b + "." + c)
  {
    DottedHiraganaClean(a, b, c);
    assert '.' !in a && '.' !in b && '.' !in c;
    TwoDots(a, b, c);
  }

  /** So JavaScript writes such a kun-reading, while in PHP the okurigana is
      not hiragana and the reading is skipped. */
  lemma KunOutcomesDiverge(kanji: string, a: string, b: string, c: string)
    requires IsHiragana(a) && IsHiragana(b) && IsHiragana(c)
    ensures ReadingOutcome(Js, kanji, RawReading(JaKun, "", a + "." + b + "." + c)) == Emit(ExtractedRow(kanji, 0, a, b))
    ensures ReadingOutcome(Php, kanji, RawReading(JaKun, "", a + "." + b + "." + c)) == Skip
  {
    KunDialectsDiverge(a, b, c);
    assert !IsHiraganaChar((b + "." + c)[|b|]);
  }

  // ---------------------------------------------------------------- readings

  /** The statuses kept: none, or `jy`. */
  predicate CommonStatus(status: string) { status == "" || status == "jy" }

  /** What happens to one reading: a row is emitted, the skip counter is
      incremented, or the reading is passed over without a trace. */
  datatype Outcome = Emit(row: ExtractedRow) | Skip | Ignore

  /** `isHiragana` of each script: the JavaScript test, or the PHP
      `preg_match`, which also lets one final line feed through. */
  predicate HiraganaCheck(d: Dialect, s: string) {
    if d == Js then IsHiragana(s) else PcreHiragana(s)
  }

  /** An emitted row: on-rows carry flag 1 and no okurigana, kun-rows flag 0;
      the reading passes the script's hiragana check and so does any okurigana. */
  predicate ValidRow(d: Dialect, row: ExtractedRow) {
    && (row.isOnyomi == 0 || row.isOnyomi == 1)
    && HiraganaCheck(d, row.reading)
    && (row.okurigana == "" || HiraganaCheck(d, row.okurigana))
    && (row.isOnyomi == 1 ==> row.okurigana == "")
  }

  /** The body of the innermost loop for one reading of `kanji`. The
      JavaScript pattern only ever yields `ja_on`/`ja_kun` readings with a
      non-empty value; PHP sees every reading and applies the status filter
      before looking at the type. */
  function ReadingOutcome(d: Dialect, kanji: string, r: RawReading): (o: Outcome)
    ensures o.Emit? ==> ValidRow(d, o.row) && o.row.kanji == kanji
    ensures o.Emit? ==> (o.row.isOnyomi == 1 <==> r.rType == JaOn) && r.rType != OtherType
  {
    if d == Js && (r.rType == OtherType || r.value == "") then Ignore
    else if !CommonStatus(r.status) then Skip
    else
      match r.rType
      case JaOn =>
        var hiragana := KatakanaToHiragana(r.value);
        if !HiraganaCheck(d, hiragana) then Skip
        else Emit(ExtractedRow(kanji, 1, hiragana, ""))
      case JaKun =>
        var parsed := ParseKunyomi(d, r.value);
        if !HiraganaCheck(d, parsed.reading) then Skip
        else if parsed.okurigana != "" && !HiraganaCheck(d, parsed.okurigana) then Skip
        else Emit(ExtractedRow(kanji, 0, parsed.reading, parsed.okurigana))
      case OtherType => Ignore
  }

  /** An on-reading is written, as its hiragana form with empty okurigana,
      exactly when its status is common and the shifted value is hiragana;
      otherwise it is counted as skipped. */
  lemma OnReadingOutcome(d: Dialect, kanji: string, r: RawReading)
    requires r.rType == JaOn && (d == Php || r.value != "")
    ensures var o := ReadingOutcome(d, kanji, r);
      && (o.Emit? <==> CommonStatus(r.status) && HiraganaCheck(d, KatakanaToHiragana(r.value)))
      && (o.Emit? ==> o.row == ExtractedRow(kanji, 1, KatakanaToHiragana(r.value), ""))
      && (!o.Emit? ==> o == Skip)
  {
  }

  /** A kun-reading is written exactly when its status is common, its base is
      hiragana and its okurigana is empty or hiragana; otherwise it is
      counted as skipped. */
  lemma KunReadingOutcome(d: Dialect, kanji: string, r: RawReading)
    requires r.rType == JaKun && (d == Php || r.value != "")
    ensures var o := ReadingOutcome(d, kanji, r);
      var p := ParseKunyomi(d, r.value);
      && (o.Emit? <==> CommonStatus(r.status) && HiraganaCheck(d, p.reading)
                       && (p.okurigana == "" || HiraganaCheck(d, p.okurigana)))
      && (o.Emit? ==> o.row == ExtractedRow(kanji, 0, p.reading, p.okurigana))
      && (!o.Emit? ==> o == Skip)
  {
  }

  /** A reading with a rare status is always counted as skipped, and in PHP
      that includes readings of other types, which JavaScript never sees. */
  lemma RareStatusSkipped(d: Dialect, kanji: string, r: RawReading)
    requires !CommonStatus(r.status)
    ensures d == Php ==> ReadingOutcome(d, kanji, r) == Skip
    ensures d == Js ==> (ReadingOutcome(d, kanji, r) == Skip <==> r.rType != OtherType && r.value != "")
  {
  }

  /** A value ending in a line feed splits the dialects: the JavaScript
      test rejects it, while PHP's `$` matches before the feed and the row
      is written with the feed in it. */
  lemma FeedDialectsDiverge(kanji: string)
    ensures ReadingOutcome(Js, kanji, RawReading(JaOn, "", "ア\n")) == Skip
    ensures ReadingOutcome(Php, kanji, RawReading(JaOn, "", "ア\n")) == Emit(ExtractedRow(kanji, 1, "あ\n", ""))
  {
    var h := KatakanaToHiragana("ア\n");
    assert h == "あ\n";
    assert !IsHiraganaChar(h[1]);
    assert h[..1] == "あ";
  }

  // -------------------------------------------------------------- characters

  predicate IsDigitText(t: string) { |t| > 0 && AllDigits(t) }

  /** The text of the first grade element made only of digits: what
      `<grade>(\d+)<\/grade>` captures. */
  function FirstDigitGrade(grades: seq<string>): (r: Option<string>)
    ensures r.Some? ==> IsDigitText(r.value)
  {
    if grades == [] then None
    else if IsDigitText(grades[0]) then Some(grades[0])
    else FirstDigitGrade(grades[1..])
  }

  /** It is the first all-digit element, and there is one unless none is. */
  lemma {:induction false} FirstDigitGradeIsFirst(grades: seq<string>)
    ensures FirstDigitGrade(grades).None? <==> forall i | 0 <= i < |grades| :: !IsDigitText(grades[i])
    ensures FirstDigitGrade(grades).Some? ==> exists i | 0 <= i < |grades| ::
      grades[i] == FirstDigitGrade(grades).value && IsDigitText(grades[i])
      && forall j | 0 <= j < i :: !IsDigitText(grades[j])
  {
    if grades != [] && !IsDigitText(grades[0]) {
      FirstDigitGradeIsFirst(grades[1..]);
      if FirstDigitGrade(grades).Some? {
        var i :| 0 <= i < |grades[1..]| && grades[1..][i] == FirstDigitGrade(grades).value
          && IsDigitText(grades[1..][i]) && forall j | 0 <= j < i :: !IsDigitText(grades[1..][j]);
        assert grades[i + 1] == FirstDigitGrade(grades).value;
      }
    }
  }

  /** The first grade whose `(int)` cast is one of 1..6, as the PHP loop breaks on it. */
  function FirstTargetGrade(grades: seq<string>): Option<int> {
    if grades == [] then None
    else if ValidGrade(PhpIntCast(grades[0])) then Some(PhpIntCast(grades[0]))
    else FirstTargetGrade(grades[1..])
  }

  /** It is the cast of the first element in range, and there is one unless
      no element casts into 1..6. */
  lemma {:induction false} FirstTargetGradeIsFirst(grades: seq<string>)
    ensures FirstTargetGrade(grades).None? <==> forall i | 0 <= i < |grades| :: !ValidGrade(PhpIntCast(grades[i]))
    ensures FirstTargetGrade(grades).Some? ==> exists i | 0 <= i < |grades| ::
      FirstTargetGrade(grades).value == PhpIntCast(grades[i]) && ValidGrade(PhpIntCast(grades[i]))
      && forall j | 0 <= j < i :: !ValidGrade(PhpIntCast(grades[j]))
  {
    if grades != [] && !ValidGrade(PhpIntCast(grades[0])) {
      FirstTargetGradeIsFirst(grades[1..]);
      if FirstTargetGrade(grades).Some? {
        var i :| 0 <= i < |grades[1..]| && FirstTargetGrade(grades).value == PhpIntCast(grades[1..][i])
          && ValidGrade(PhpIntCast(grades[1..][i])) && forall j | 0 <= j < i :: !ValidGrade(PhpIntCast(grades[1..][j]));
        assert PhpIntCast(grades[i + 1]) == FirstTargetGrade(grades).value;
      }
    }
  }

  /** `<literal>(.)<\/literal>`: one character that is not a line terminator. */
  predicate JsLiteralMatches(literal: string) {
    |literal| == 1 && !IsLineTerminator(literal[0])
  }

  /** The grade a character is extracted under, or `None` when it is passed
      over. JavaScript reads the first all-digit grade and needs a
      one-character literal; PHP takes the first grade lying in 1..6. */
  function Selection(d: Dialect, c: Character): (g: Option<int>)
    ensures g.Some? ==> ValidGrade(g.value)
  {
    FirstTargetGradeIsFirst(c.grades);
    match d
    case Js =>
      (match FirstDigitGrade(c.grades)
       case None => None
       case Some(t) =>
         var grade := DecimalValue(t);
         if ValidGrade(grade) && JsLiteralMatches(c.literal) then Some(grade) else None)
    case Php => FirstTargetGrade(c.grades)
  }

  /** Only the first all-digit grade element counts in JavaScript, while PHP
      looks on for one in range. */
  lemma GradeSelectionDiverges()
    ensures Selection(Js, Character(["8", "3"], "字", [])) == None
    ensures Selection(Php, Character(["8", "3"], "字", [])) == Some(3)
  {
    assert DecimalValue("8") == 8;
    assert DigitPrefix("8") == 1;
    assert DigitPrefix("3") == 1;
    assert "8"[..1] == "8" && "3"[..1] == "3";
    assert PhpIntCast("8") == 8;
    assert PhpIntCast("3") == 3;
  }

  // ------------------------------------------------------------ accumulation

  /** `gradeStats[g]`. */
  datatype GradeCount = GradeCount(kanji: nat, onyomi: nat, kunyomi: nat)

  /** Everything the extraction loop accumulates. */
  datatype Extraction = Extraction(
    results: seq<ExtractedRow>, kanjiCount: nat, readingCount: nat, skipped: nat,
    stats: map<int, GradeCount>)

  /** An entry for each grade 1..6. */
  predicate StatsShape(stats: map<int, GradeCount>) {
    1 in stats && 2 in stats && 3 in stats && 4 in stats && 5 in stats && 6 in stats
  }

  lemma ShapeHasGrade(stats: map<int, GradeCount>, g: int)
    requires StatsShape(stats) && ValidGrade(g)
    ensures g in stats
  {
  }

  function ZeroStats(): (stats: map<int, GradeCount>)
    ensures StatsShape(stats)
  {
    var z := GradeCount(0, 0, 0);
    map[1 := z, 2 := z, 3 := z, 4 := z, 5 := z, 6 := z]
  }

  /** Every grade starts at zero kanji and zero readings. */
  lemma ZeroAt(g: int)
    requires ValidGrade(g)
    ensures g in ZeroStats() && ZeroStats()[g] == GradeCount(0, 0, 0)
  {
  }

  function Start(): Extraction {
    Extraction([], 0, 0, 0, ZeroStats())
  }

  /** The effect of one reading's outcome on the accumulators. */
  function ApplyOutcome(e: Extraction, grade: int, o: Outcome): Extraction
    requires grade in e.stats
  {
    match o
    case Ignore => e
    case Skip => e.(skipped := e.skipped + 1)
    case Emit(row) =>
      var s := e.stats[grade];
      e.(results := e.results + [row], readingCount := e.readingCount + 1,
         stats := e.stats[grade := if row.isOnyomi == 1 then s.(onyomi := s.onyomi + 1)
                                   else s.(kunyomi := s.kunyomi + 1)])
  }

  /** The per-reading step for the readings of `kanji`. */
  function OutcomeOf(d: Dialect, kanji: string): RawReading -> Outcome {
    r => ReadingOutcome(d, kanji, r)
  }

  /** The reading loop of one character, as a left fold of its per-reading
      step `outcome` (which is `OutcomeOf` the character's literal). */
  function ReadingsFold(outcome: RawReading -> Outcome, e: Extraction, grade: int, rs: seq<RawReading>): (r: Extraction)
    requires grade in e.stats
    ensures grade in r.stats
    ensures StatsShape(e.stats) ==> StatsShape(r.stats)
    ensures r.kanjiCount == e.kanjiCount
  {
    if rs == [] then e
    else ApplyOutcome(ReadingsFold(outcome, e, grade, rs[..|rs| - 1]), grade, outcome(rs[|rs| - 1]))
  }

  /** One more reading applies its outcome to the accumulators. */
  lemma ReadingsFoldStep(outcome: RawReading -> Outcome, e: Extraction, grade: int, rs: seq<RawReading>, j: nat)
    requires grade in e.stats && j < |rs|
    ensures ReadingsFold(outcome, e, grade, rs[..j + 1])
         == ApplyOutcome(ReadingsFold(outcome, e, grade, rs[..j]), grade, outcome(rs[j]))
  {
    assert rs[..j + 1][..j] == rs[..j];
  }

  /** The accumulators once a character of grade `g` is counted. */
  function Counted(e: Extraction, g: int): (r: Extraction)
    requires g in e.stats
    ensures r.kanjiCount == e.kanjiCount + 1 && r.stats.Keys == e.stats.Keys
    ensures r.results == e.results && r.readingCount == e.readingCount && r.skipped == e.skipped
  {
    var s := e.stats[g];
    e.(kanjiCount := e.kanjiCount + 1, stats := e.stats[g := s.(kanji := s.kanji + 1)])
  }

  /** One character whose selection is `sel`: counted under its grade and
      its readings `rs` folded in by `outcome`, or passed over. */
  function CharStepBy(sel: Option<int>, outcome: RawReading -> Outcome, e: Extraction, rs: seq<RawReading>): (r: Extraction)
    requires StatsShape(e.stats) && (sel.Some? ==> ValidGrade(sel.value))
    ensures StatsShape(r.stats)
  {
    match sel
    case None => e
    case Some(g) =>
      ShapeHasGrade(e.stats, g);
      ReadingsFold(outcome, Counted(e, g), g, rs)
  }

  /** One character: counted under its grade and its readings folded in, or
      passed over. */
  function CharStep(d: Dialect, e: Extraction, c: Character): (r: Extraction)
    requires StatsShape(e.stats)
    ensures StatsShape(r.stats)
  {
    CharStepBy(Selection(d, c), OutcomeOf(d, c.literal), e, c.readings)
  }

  /** A selected character is counted under its grade, then its readings are folded in. */
  lemma CharStepSelected(d: Dialect, e: Extraction, c: Character, g: int)
    requires StatsShape(e.stats) && Selection(d, c) == Some(g)
    ensures g in e.stats
    ensures CharStep(d, e, c) == ReadingsFold(OutcomeOf(d, c.literal), Counted(e, g), g, c.readings)
  {
    ShapeHasGrade(e.stats, g);
  }

  /** The whole extraction, as a left fold over the characters. */
  function ExtractSpec(d: Dialect, chars: seq<Character>): (e: Extraction)
    ensures StatsShape(e.stats)
  {
    if chars == [] then Start()
    else CharStep(d, ExtractSpec(d, chars[..|chars| - 1]), chars[|chars| - 1])
  }

  /** One more character applies its step to the accumulators. */
  lemma ExtractSpecStep(d: Dialect, chars: seq<Character>, i: nat)
    requires i < |chars|
    ensures ExtractSpec(d, chars[..i + 1]) == CharStep(d, ExtractSpec(d, chars[..i]), chars[i])
  {
    assert chars[..i + 1][..i] == chars[..i];
  }

  // ---------------------------------------------------------- reference view

  /** The outcomes of the readings `rs`, in order. */
  function Outcomes(outcome: RawReading -> Outcome, rs: seq<RawReading>): (os: seq<Outcome>)
    ensures |os| == |rs| && forall j | 0 <= j < |rs| :: os[j] == outcome(rs[j])
  {
    seq(|rs|, j requires 0 <= j < |rs| => outcome(rs[j]))
  }

  /** The outcomes of the readings of `c`, or none when it is passed over. */
  function CharOutcomes(d: Dialect, c: Character): seq<Outcome> {
    if Selection(d, c).Some? then Outcomes(OutcomeOf(d, c.literal), c.readings) else []
  }

  /** The outcome of every reading of every extracted character, in document order. */
  function AllOutcomes(d: Dialect, chars: seq<Character>): seq<Outcome> {
    if chars == [] then []
    else AllOutcomes(d, chars[..|chars| - 1]) + CharOutcomes(d, chars[|chars| - 1])
  }

  /** The number of extracted characters. */
  function Selected(d: Dialect, chars: seq<Character>): nat {
    if chars == [] then 0
    else Selected(d, chars[..|chars| - 1]) + (if Selection(d, chars[|chars| - 1]).Some? then 1 else 0)
  }

  /** The rows among the outcomes, in order. */
  function Emitted(os: seq<Outcome>): seq<ExtractedRow> {
    if os == [] then []
    else Emitted(os[..|os| - 1]) + (if os[|os| - 1].Emit? then [os[|os| - 1].row] else [])
  }

  function SkipCount(os: seq<Outcome>): nat {
    if os == [] then 0 else SkipCount(os[..|os| - 1]) + (if os[|os| - 1].Skip? then 1 else 0)
  }

  function IgnoreCount(os: seq<Outcome>): nat {
    if os == [] then 0 else IgnoreCount(os[..|os| - 1]) + (if os[|os| - 1].Ignore? then 1 else 0)
  }

  /** Every outcome is exactly one of a row, a skip or nothing. */
  lemma {:induction false} OutcomesPartition(os: seq<Outcome>)
    ensures |Emitted(os)| + SkipCount(os) + IgnoreCount(os) == |os|
  {
    if os != [] {
      OutcomesPartition(os[..|os| - 1]);
    }
  }

  /** A row among the outcomes is emitted by one of them. */
  lemma {:induction false} EmittedFrom(os: seq<Outcome>, k: nat)
    requires k < |Emitted(os)|
    ensures exists j | 0 <= j < |os| :: os[j] == Emit(Emitted(os)[k])
  {
    var front := os[..|os| - 1];
    if k < |Emitted(front)| {
      EmittedFrom(front, k);
      var j :| 0 <= j < |front| && front[j] == Emit(Emitted(front)[k]);
      assert os[j] == front[j];
    } else {
      assert os[|os| - 1] == Emit(Emitted(os)[k]);
    }
  }

  lemma {:induction false} OutcomesAppend(a: seq<Outcome>, b: seq<Outcome>)
    ensures Emitted(a + b) == Emitted(a) + Emitted(b)
    ensures SkipCount(a + b) == SkipCount(a) + SkipCount(b)
  {
    if b == [] {
      assert a + b == a;
    } else {
      var b' := b[..|b| - 1];
      assert (a + b)[..|a + b| - 1] == a + b';
      assert (a + b)[|a + b| - 1] == b[|b| - 1];
      OutcomesAppend(a, b');
    }
  }

  /** Kanji counted over the six grades. */
  function KanjiTotal(stats: map<int, GradeCount>): nat
    requires StatsShape(stats)
  {
    stats[1].kanji + stats[2].kanji + stats[3].kanji + stats[4].kanji + stats[5].kanji + stats[6].kanji
  }

  function Readings(c: GradeCount): nat { c.onyomi + c.kunyomi }

  /** Readings counted over the six grades. */
  function ReadingTotal(stats: map<int, GradeCount>): nat
    requires StatsShape(stats)
  {
    Readings(stats[1]) + Readings(stats[2]) + Readings(stats[3])
      + Readings(stats[4]) + Readings(stats[5]) + Readings(stats[6])
  }

  /** Replacing one grade's entry changes each total by that entry's change. */
  lemma UpdateTotals(stats: map<int, GradeCount>, g: int, c: GradeCount)
    requires StatsShape(stats) && ValidGrade(g)
    ensures StatsShape(stats[g := c])
    ensures KanjiTotal(stats[g := c]) + stats[g].kanji == KanjiTotal(stats) + c.kanji
    ensures ReadingTotal(stats[g := c]) + Readings(stats[g]) == ReadingTotal(stats) + Readings(c)
  {
  }

  lemma OutcomeAlone(o: Outcome)
    ensures Emitted([o]) == if o.Emit? then [o.row] else []
    ensures SkipCount([o]) == if o.Skip? then 1 else 0
  {
    assert [o][..0] == [];
  }

  /** One outcome appends its row, or counts a skip, and a row adds one
      reading to the statistics of the grade. */
  lemma ApplyOutcomeEffect(e: Extraction, grade: int, o: Outcome)
    requires StatsShape(e.stats) && ValidGrade(grade) && grade in e.stats
    ensures var r := ApplyOutcome(e, grade, o);
      && StatsShape(r.stats)
      && r.results == e.results + Emitted([o])
      && r.readingCount == e.readingCount + |Emitted([o])|
      && r.skipped == e.skipped + SkipCount([o])
      && r.kanjiCount == e.kanjiCount
      && KanjiTotal(r.stats) == KanjiTotal(e.stats)
      && ReadingTotal(r.stats) == ReadingTotal(e.stats) + |Emitted([o])|
  {
    OutcomeAlone(o);
    if o.Emit? {
      var s := e.stats[grade];
      var s' := if o.row.isOnyomi == 1 then s.(onyomi := s.onyomi + 1) else s.(kunyomi := s.kunyomi + 1);
      UpdateTotals(e.stats, grade, s');
    }
  }

  /** The reading loop of one character appends the rows its readings emit,
      counts the skipped ones, and adds one reading to the statistics of
      the character's grade per row. */
  lemma {:induction false} ReadingsFoldEffect(outcome: RawReading -> Outcome, e: Extraction, grade: int, rs: seq<RawReading>)
    requires StatsShape(e.stats) && ValidGrade(grade) && grade in e.stats
    ensures var r := ReadingsFold(outcome, e, grade, rs);
      var os := Outcomes(outcome, rs);
      && StatsShape(r.stats)
      && r.results == e.results + Emitted(os)
      && r.readingCount == e.readingCount + |Emitted(os)|
      && r.skipped == e.skipped + SkipCount(os)
      && KanjiTotal(r.stats) == KanjiTotal(e.stats)
      && ReadingTotal(r.stats) == ReadingTotal(e.stats) + |Emitted(os)|
  {
    if rs != [] {
      var rs' := rs[..|rs| - 1];
      ReadingsFoldEffect(outcome, e, grade, rs');
      var prev := ReadingsFold(outcome, e, grade, rs');
      var o := outcome(rs[|rs| - 1]);
      var os := Outcomes(outcome, rs);
      ShapeHasGrade(prev.stats, grade);
      assert os == Outcomes(outcome, rs') + [o];
      ApplyOutcomeEffect(prev, grade, o);
      OutcomesAppend(Outcomes(outcome, rs'), [o]);
    }
  }

  /** One extracted character adds one to the kanji counters and folds in
      its readings. */
  lemma SelectedCharEffect(d: Dialect, e: Extraction, c: Character, g: int)
    requires StatsShape(e.stats) && Selection(d, c) == Some(g)
    ensures var r := CharStep(d, e, c);
      var os := Outcomes(OutcomeOf(d, c.literal), c.readings);
      && r.results == e.results + Emitted(os)
      && r.readingCount == e.readingCount + |Emitted(os)|
      && r.skipped == e.skipped + SkipCount(os)
      && r.kanjiCount == e.kanjiCount + 1
      && KanjiTotal(r.stats) == KanjiTotal(e.stats) + 1
      && ReadingTotal(r.stats) == ReadingTotal(e.stats) + |Emitted(os)|
  {
    ShapeHasGrade(e.stats, g);
    var s := e.stats[g];
    UpdateTotals(e.stats, g, s.(kanji := s.kanji + 1));
    CharStepSelected(d, e, c, g);
    ReadingsFoldEffect(OutcomeOf(d, c.literal), Counted(e, g), g, c.readings);
  }

  /** One character, selected or passed over, seen from its outcomes. */
  lemma CharStepEffect(d: Dialect, e: Extraction, c: Character)
    requires StatsShape(e.stats)
    ensures var r := CharStep(d, e, c);
      var os := CharOutcomes(d, c);
      var n := if Selection(d, c).Some? then 1 else 0;
      && r.results == e.results + Emitted(os)
      && r.readingCount == e.readingCount + |Emitted(os)|
      && r.skipped == e.skipped + SkipCount(os)
      && r.kanjiCount == e.kanjiCount + n
      && KanjiTotal(r.stats) == KanjiTotal(e.stats) + n
      && ReadingTotal(r.stats) == ReadingTotal(e.stats) + |Emitted(os)|
  {
    if Selection(d, c).Some? {
      SelectedCharEffect(d, e, c, Selection(d, c).value);
    }
  }

  /** The accumulators `e` account for the outcomes `os` of `n` extracted characters. */
  predicate Tallies(e: Extraction, os: seq<Outcome>, n: nat)
    requires StatsShape(e.stats)
  {
    && e.results == Emitted(os)
    && e.skipped == SkipCount(os)
    && e.readingCount == |e.results|
    && e.kanjiCount == n
    && KanjiTotal(e.stats) == n
    && ReadingTotal(e.stats) == e.readingCount
  }

  /** One more character's outcomes `more`, folded into accumulators that
      account for `os`, leave accumulators that account for `os + more`. */
  lemma TalliesStep(prev: Extraction, r: Extraction, os: seq<Outcome>, more: seq<Outcome>, n: nat, m: nat)
    requires StatsShape(prev.stats) && StatsShape(r.stats) && Tallies(prev, os, n)
    requires r.results == prev.results + Emitted(more)
    requires r.readingCount == prev.readingCount + |Emitted(more)|
    requires r.skipped == prev.skipped + SkipCount(more)
    requires r.kanjiCount == prev.kanjiCount + m
    requires KanjiTotal(r.stats) == KanjiTotal(prev.stats) + m
    requires ReadingTotal(r.stats) == ReadingTotal(prev.stats) + |Emitted(more)|
    ensures Tallies(r, os + more, n + m)
  {
    OutcomesAppend(os, more);
  }

  /** The whole extraction, seen from the outcomes: the rows are those the
      readings of extracted characters emit, in document order; the skip
      counter counts the skipped ones; `readingCount` is the number of rows;
      `kanjiCount` counts the extracted characters; and the per-grade
      statistics add up to the two counters. */
  lemma {:induction false} ExtractSpecEffect(d: Dialect, chars: seq<Character>)
    ensures Tallies(ExtractSpec(d, chars), AllOutcomes(d, chars), Selected(d, chars))
  {
    if chars != [] {
      var front := chars[..|chars| - 1];
      var c := chars[|chars| - 1];
      ExtractSpecEffect(d, front);
      var prev := ExtractSpec(d, front);
      CharStepEffect(d, prev, c);
      TalliesStep(prev, CharStep(d, prev, c), AllOutcomes(d, front), CharOutcomes(d, c),
                  Selected(d, front), if Selection(d, c).Some? then 1 else 0);
    } else {
      assert ExtractSpec(d, chars) == Start() && AllOutcomes(d, chars) == [] && Selected(d, chars) == 0;
      StartTallies();
    }
  }

  lemma StartTallies()
    ensures Tallies(Start(), [], 0)
  {
    var e := Start();
    assert e.results == [] && e.skipped == 0 && e.readingCount == 0 && e.kanjiCount == 0;
    assert Emitted([]) == [];
    assert SkipCount([]) == 0;
    ZeroAt(1);
    ZeroAt(2);
    ZeroAt(3);
    ZeroAt(4);
    ZeroAt(5);
    ZeroAt(6);
    assert KanjiTotal(e.stats) == 0;
    assert ReadingTotal(e.stats) == 0;
  }

  /** Every reading of an extracted character ends as a row, a skip, or (for
      types the script does not handle) nothing; the per-grade statistics
      add up to the kanji and reading counters; and a character without a
      target grade leaves every accumulator as it was. */
  lemma ExtractConservation(d: Dialect, chars: seq<Character>)
    ensures var e := ExtractSpec(d, chars);
      && e.readingCount + e.skipped + IgnoreCount(AllOutcomes(d, chars)) == |AllOutcomes(d, chars)|
      && KanjiTotal(e.stats) == e.kanjiCount && ReadingTotal(e.stats) == e.readingCount
    ensures forall c | Selection(d, c).None? :: ExtractSpec(d, chars + [c]) == ExtractSpec(d, chars)
  {
    ExtractSpecEffect(d, chars);
    OutcomesPartition(AllOutcomes(d, chars));
    forall c | Selection(d, c).None?
      ensures ExtractSpec(d, chars + [c]) == ExtractSpec(d, chars)
    {
      assert (chars + [c])[..|chars|] == chars;
    }
  }

  /** `o` is the outcome of one of the readings of the extracted character `c`. */
  predicate OutcomeOfChar(d: Dialect, c: Character, o: Outcome) {
    Selection(d, c).Some? && exists k | 0 <= k < |c.readings| :: o == ReadingOutcome(d, c.literal, c.readings[k])
  }

  lemma CharOutcomesFrom(d: Dialect, c: Character, k: nat)
    requires k < |CharOutcomes(d, c)|
    ensures OutcomeOfChar(d, c, CharOutcomes(d, c)[k])
  {
    assert CharOutcomes(d, c)[k] == ReadingOutcome(d, c.literal, c.readings[k]);
  }

  lemma ConcatAt<T>(a: seq<T>, b: seq<T>, j: nat)
    requires j < |a| + |b|
    ensures (a + b)[j] == if j < |a| then a[j] else b[j - |a|]
  {
  }

  /** An outcome in the list belongs to a reading of an extracted character. */
  lemma {:induction false} AllOutcomesFrom(d: Dialect, chars: seq<Character>, j: nat)
    requires j < |AllOutcomes(d, chars)|
    ensures exists i | 0 <= i < |chars| :: OutcomeOfChar(d, chars[i], AllOutcomes(d, chars)[j])
  {
    var front := chars[..|chars| - 1];
    var c := chars[|chars| - 1];
    var os := AllOutcomes(d, chars);
    var before := AllOutcomes(d, front);
    assert os == before + CharOutcomes(d, c);
    if j < |before| {
      AllOutcomesFrom(d, front, j);
      var i :| 0 <= i < |front| && OutcomeOfChar(d, front[i], before[j]);
      ConcatAt(before, CharOutcomes(d, c), j);
      assert chars[i] == front[i];
      assert OutcomeOfChar(d, chars[i], os[j]);
    } else {
      var k := j - |before|;
      CharOutcomesFrom(d, c, k);
      ConcatAt(before, CharOutcomes(d, c), j);
      assert OutcomeOfChar(d, chars[|chars| - 1], os[j]);
    }
  }

  /** Every extracted row is valid and carries the literal of an extracted character. */
  lemma ExtractedRowsValid(d: Dialect, chars: seq<Character>, k: nat)
    requires k < |ExtractSpec(d, chars).results|
    ensures var row := ExtractSpec(d, chars).results[k];
      && ValidRow(d, row)
      && exists i | 0 <= i < |chars| :: Selection(d, chars[i]).Some? && row.kanji == chars[i].literal
  {
    ExtractSpecEffect(d, chars);
    var os := AllOutcomes(d, chars);
    EmittedFrom(os, k);
    var j :| 0 <= j < |os| && os[j] == Emit(Emitted(os)[k]);
    AllOutcomesFrom(d, chars, j);
  }

  /** The grade loop of the PHP script (and the first match of the
      JavaScript pattern): scans the grade elements in order and stops at
      the first that decides. */
  method SelectGrade(d: Dialect, c: Character) returns (grade: Option<int>)
    ensures grade == Selection(d, c)
  {
    grade := None;
    var i := 0;
    var digits: Option<string> := None;
    while i < |c.grades| && grade.None? && digits.None?
      invariant 0 <= i <= |c.grades|
      invariant d == Php ==> digits.None?
      invariant d == Js ==> grade.None?
      invariant d == Php && grade.None? ==> FirstTargetGrade(c.grades) == FirstTargetGrade(c.grades[i..])
      invariant d == Php && grade.Some? ==> grade == FirstTargetGrade(c.grades)
      invariant d == Js && digits.None? ==> FirstDigitGrade(c.grades) == FirstDigitGrade(c.grades[i..])
      invariant d == Js && digits.Some? ==> digits == FirstDigitGrade(c.grades)
    {
      var g := c.grades[i];
      assert c.grades[i..][1..] == c.grades[i + 1..];
      match d {
        case Js =>
          if IsDigitText(g) {
            digits := Some(g);
          }
        case Php =>
          var gradeVal := PhpIntCast(g);
          if ValidGrade(gradeVal) {
            grade := Some(gradeVal);
          }
      }
      i := i + 1;
    }
    if d == Js {
      if digits.Some? {
        var value := DecimalValue(digits.value);
        if ValidGrade(value) && JsLiteralMatches(c.literal) {
          grade := Some(value);
        }
      }
    }
  }

  /** The reading loop of one character, on the accumulators `e`, with the
      per-reading step `outcome`. */
  method ExtractCharacterReadings(outcome: RawReading -> Outcome, e: Extraction, g: int, readings: seq<RawReading>)
    returns (r: Extraction)
    requires g in e.stats
    ensures r == ReadingsFold(outcome, e, g, readings)
  {
    r := e;
    var j := 0;
    while j < |readings|
      invariant 0 <= j <= |readings|
      invariant r == ReadingsFold(outcome, e, g, readings[..j])
    {
      var reading := readings[j];
      ReadingsFoldStep(outcome, e, g, readings, j);
      match outcome(reading) {
        case Ignore =>
        case Skip =>
          r := r.(skipped := r.skipped + 1);
        case Emit(row) =>
          r := r.(results := r.results + [row], readingCount := r.readingCount + 1);
          if row.isOnyomi == 1 {
            r := r.(stats := r.stats[g := r.stats[g].(onyomi := r.stats[g].onyomi + 1)]);
          } else {
            r := r.(stats := r.stats[g := r.stats[g].(kunyomi := r.stats[g].kunyomi + 1)]);
          }
      }
      j := j + 1;
    }
    assert readings[..j] == readings;
  }

  /** `parseXML` / `main`: the character loop with its nested reading loop,
      accumulating the rows, the three counters and the per-grade statistics. */
  method ExtractReadings(d: Dialect, chars: seq<Character>)
    returns (results: seq<ExtractedRow>, kanjiCount: nat, readingCount: nat, skippedReadings: nat,
             gradeStats: map<int, GradeCount>)
    ensures Extraction(results, kanjiCount, readingCount, skippedReadings, gradeStats) == ExtractSpec(d, chars)
  {
    results, kanjiCount, readingCount, skippedReadings := [], 0, 0, 0;
    gradeStats := ZeroStats();
    var i := 0;
    while i < |chars|
      invariant 0 <= i <= |chars|
      invariant Extraction(results, kanjiCount, readingCount, skippedReadings, gradeStats) == ExtractSpec(d, chars[..i])
    {
      var character := chars[i];
      ExtractSpecStep(d, chars, i);
      ghost var before := Extraction(results, kanjiCount, readingCount, skippedReadings, gradeStats);
      var grade := SelectGrade(d, character);
      if grade.Some? {
        var g := grade.value;
        var kanji := character.literal;
        CharStepSelected(d, before, character, g);
        ShapeHasGrade(gradeStats, g);
        kanjiCount := kanjiCount + 1;
        gradeStats := gradeStats[g := gradeStats[g].(kanji := gradeStats[g].kanji + 1)];
        assert Extraction(results, kanjiCount, readingCount, skippedReadings, gradeStats) == Counted(before, g);
        var e := ExtractCharacterReadings(OutcomeOf(d, kanji),
                                          Extraction(results, kanjiCount, readingCount, skippedReadings, gradeStats),
                                          g, character.readings);
        assert e == CharStep(d, before, character);
        results, readingCount, skippedReadings, gradeStats := e.results, e.readingCount, e.skipped, e.stats;
        assert Extraction(results, kanjiCount, readingCount, skippedReadings, gradeStats) == e;
      } else {
        assert CharStep(d, before, character) == before;
      }
      i := i + 1;
    }
    assert chars[..i] == chars;
  }

  // ------------------------------------------------------------------- CSV

  /** The first line of the file: a byte-order mark and the column names. */
  const Header: string := "\U{FEFF}kanji,is_onyomi,reading,okurigana"

  /** One data line: the four columns, each through `String(v)` and the
      escaping of section 2 of RFC 4180, joined by commas. */
  function RowLine(row: ExtractedRow): string {
    Csv.CsvLine([row.kanji, NatToDecimal(row.isOnyomi), row.reading, row.okurigana])
  }

  /** The lines of the output file: the header, then one line per row. */
  function CsvLines(results: seq<ExtractedRow>): (lines: seq<string>)
    ensures |lines| == |results| + 1 && lines[0] == Header
    ensures forall k | 1 <= k < |lines| :: lines[k] == RowLine(results[k - 1])
  {
    [Header] + seq(|results|, k requires 0 <= k < |results| => RowLine(results[k]))
  }

  /** A kanji column that is written verbatim and read back intact by a plain
      split on commas after trimming: non-empty, with no comma, quote, line
      feed or white space. */
  predicate PlainText(s: string) {
    |s| > 0 && forall i | 0 <= i < |s| :: s[i] != ',' && s[i] != '"' && !IsBlank(JsWhite, s[i])
  }

  /** A valid row with a plain kanji is written without quoting: its line is
      the four columns joined by commas, and splitting at the commas gives
      them back. */
  lemma RowLineFields(row: ExtractedRow)
    requires ValidRow(Js, row) && PlainText(row.kanji)
    ensures RowLine(row) == Join([row.kanji, NatToDecimal(row.isOnyomi), row.reading, row.okurigana], ',')
    ensures Split(RowLine(row), ',') == [row.kanji, NatToDecimal(row.isOnyomi), row.reading, row.okurigana]
  {
    var fields := [row.kanji, NatToDecimal(row.isOnyomi), row.reading, row.okurigana];
    assert forall k | 0 <= k < 4 :: !Csv.NeedsQuoting(fields[k]) && ',' !in fields[k];
    var escaped := seq(|fields|, k requires 0 <= k < |fields| => Csv.EscapeField(fields[k]));
    assert escaped == fields;
    SplitJoin(fields, ',');
  }

  /** The lines `main` collects and joins with line feeds. */
  method WriteCsv(results: seq<ExtractedRow>) returns (text: string)
    ensures text == Join(CsvLines(results), '\n')
  {
    var csvLines := [Header];
    var i := 0;
    while i < |results|
      invariant 0 <= i <= |results|
      invariant csvLines == CsvLines(results[..i])
    {
      var line := RowLine(results[i]);
      assert CsvLines(results[..i + 1]) == CsvLines(results[..i]) + [line];
      csvLines := csvLines + [line];
      i := i + 1;
    }
    assert results[..i] == results;
    text := Join(csvLines, '\n');
  }
}
