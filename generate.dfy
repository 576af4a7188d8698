/**
 * Grade-constrained question generation (generate_questions.js): the
 * per-grade kanji lists, the allowed-kanji sets, the fallback-reading map,
 * template classification and selection, text conversion, and the
 * per-reading generation loop of `main`. Database reads are input
 * sequences in query order; inserted questions are the output sequence.
 */
module Generate {
  import opened Wrappers
  import opened Text
  import opened Kana
  import opened Templates
  import opened Grades

  /** A row of `SELECT kanji, grade FROM haitou_kanji ORDER BY grade`. */
  datatype KanjiRow = KanjiRow(kanji: string, grade: int)

  /** A row of the fallback query (`h.kanji, r.reading, r.is_onyomi`). */
  datatype KanjiReading = KanjiReading(kanji: string, reading: string, isOnyomi: int)

  /** A row of the generation query: a reading joined with its kanji. */
  datatype ReadingRow = ReadingRow(
    readingId: int, kanjiId: int, isOnyomi: int, reading: string,
    okurigana: Option<string>, kanji: string, grade: int)

  /** What `generateQuestion` returns. */
  datatype Question = Question(preText: string, kanjiText: string, kanjiReading: string, postText: string)

  /** One inserted row of `questions`. */
  datatype QuestionRecord = QuestionRecord(
    unitId: int, preText: string, kanjiText: string, kanjiReading: string,
    postText: string, readingId: int)

  // ------------------------------------------------ parenthesised suffix

  /** `/\(.+\)$/` matches at index i: "(" there, ")" as the last character, at
      least one character between, and none of those a line terminator. */
  predicate ParenSuffixAt(s: string, i: nat) {
    && i + 2 < |s| && s[i] == '(' && s[|s| - 1] == ')'
    && forall k | i < k < |s| - 1 :: !IsLineTerminator(s[k])
  }

  predicate HasParenSuffix(s: string) {
    exists i: nat | i < |s| :: ParenSuffixAt(s, i)
  }

  /** The leftmost index at or after `from` where the pattern matches. */
  function FirstParenSuffix(s: string, from: nat): (r: Option<nat>)
    requires from <= |s|
    ensures r.Some? ==> from <= r.value < |s|
    decreases |s| - from
  {
    if from == |s| then None
    else if ParenSuffixAt(s, from) then Some(from)
    else FirstParenSuffix(s, from + 1)
  }

  /** The search finds a match, and no match lies before it; `None` means
      there is no match at or after `from`. */
  lemma {:induction false} FirstParenSuffixLeftmost(s: string, from: nat)
    requires from <= |s|
    ensures FirstParenSuffix(s, from).Some? ==> ParenSuffixAt(s, FirstParenSuffix(s, from).value)
    ensures FirstParenSuffix(s, from).Some? ==>
      forall j: nat | from <= j < FirstParenSuffix(s, from).value :: !ParenSuffixAt(s, j)
    ensures FirstParenSuffix(s, from).None? ==> forall j: nat | from <= j :: !ParenSuffixAt(s, j)
    decreases |s| - from
  {
    if from < |s| && !ParenSuffixAt(s, from) {
      FirstParenSuffixLeftmost(s, from + 1);
    }
  }

  /** `reading.replace(/\(.+\)$/, '')`: the leftmost match is cut off, so the
      result is a prefix of the reading, and whatever was cut is a match. */
  function StripParenSuffix(s: string): string {
    match FirstParenSuffix(s, 0)
    case None => s
    case Some(i) => s[..i]
  }

  /** The result is a prefix of the reading; what is cut off is the leftmost
      match, and nothing is cut when there is no match. */
  lemma StripParenSuffixCuts(s: string)
    ensures StripParenSuffix(s) <= s
    ensures StripParenSuffix(s) != s ==>
      ParenSuffixAt(s, |StripParenSuffix(s)|) && forall j: nat | j < |StripParenSuffix(s)| :: !ParenSuffixAt(s, j)
    ensures StripParenSuffix(s) == s <==> !HasParenSuffix(s)
  {
    FirstParenSuffixLeftmost(s, 0);
  }

  /** Stripping leaves no annotation behind: the result has no parenthesised
      suffix, so stripping again changes nothing. */
  lemma StripParenSuffixClean(s: string)
    ensures !HasParenSuffix(StripParenSuffix(s))
    ensures StripParenSuffix(StripParenSuffix(s)) == StripParenSuffix(s)
  {
    var r := StripParenSuffix(s);
    StripParenSuffixCuts(s);
    StripParenSuffixCuts(r);
    if r != s {
      var i := |r|;
      var m := FirstParenSuffix(s, 0);
      assert m == Some(i);
      if j: nat :| ParenSuffixAt(r, j) {
        assert r[i - 1] == ')';
        forall k | j < k < |s| - 1
          ensures !IsLineTerminator(s[k])
        {
          if k < i - 1 {
            assert s[k] == r[k];
          } else if k == i - 1 {
            assert s[k] == ')';
          } else if k == i {
            assert s[k] == '(';
          }
        }
        assert ParenSuffixAt(s, j);
        assert false;
      }
    }
    assert !HasParenSuffix(r);
    assert FirstParenSuffix(r, 0).None?;
  }

  // ------------------------------------------------------ text conversion

  /** `kanjiToReading[c]` is truthy. */
  predicate HasFallback(c: char, fallback: map<string, string>) {
    [c] in fallback && fallback[[c]] != ""
  }

  /** What one character of template text becomes: an ideograph outside the
      allowed set turns into its fallback reading when it has one. */
  function ConvertChar(c: char, allowed: set<string>, fallback: map<string, string>): string {
    if IsIdeograph(c) && [c] !in allowed && HasFallback(c, fallback) then fallback[[c]] else [c]
  }

  /** The text with every character converted, left to right. */
  function Convert(text: string, allowed: set<string>, fallback: map<string, string>): string {
    if text == [] then []
    else Convert(text[..|text| - 1], allowed, fallback) + ConvertChar(text[|text| - 1], allowed, fallback)
  }

  /** `convertText`: builds the result one character at a time. */
  method ConvertText(text: string, allowed: set<string>, fallback: map<string, string>)
    returns (result: string)
    ensures result == Convert(text, allowed, fallback)
  {
    result := "";
    var i := 0;
    while i < |text|
      invariant 0 <= i <= |text|
      invariant result == Convert(text[..i], allowed, fallback)
    {
      var c := text[i];
      assert text[..i + 1][..i] == text[..i];
      if IsIdeograph(c) {
        if [c] in allowed {
          result := result + [c];
        } else {
          if [c] in fallback && fallback[[c]] != "" {
            result := result + fallback[[c]];
          } else {
            result := result + [c];
          }
        }
      } else {
        result := result + [c];
      }
      i := i + 1;
    }
    assert text[..i] == text;
  }

  lemma {:induction false} ConvertAppend(a: string, b: string, allowed: set<string>, fallback: map<string, string>)
    ensures Convert(a + b, allowed, fallback) == Convert(a, allowed, fallback) + Convert(b, allowed, fallback)
    decreases |b|
  {
    if b == [] {
      assert a + b == a;
    } else {
      var b' := b[..|b| - 1];
      assert (a + b)[..|a + b| - 1] == a + b';
      ConvertAppend(a, b', allowed, fallback);
    }
  }

  /** A character that conversion replaces. */
  predicate Substituted(c: char, allowed: set<string>, fallback: map<string, string>) {
    IsIdeograph(c) && [c] !in allowed && HasFallback(c, fallback)
  }

  /** Text with no character to substitute (in particular text whose
      ideographs are all allowed) comes back unchanged. */
  lemma {:induction false} ConvertIdentity(text: string, allowed: set<string>, fallback: map<string, string>)
    requires forall i | 0 <= i < |text| :: !Substituted(text[i], allowed, fallback)
    ensures Convert(text, allowed, fallback) == text
  {
    if text != [] {
      ConvertIdentity(text[..|text| - 1], allowed, fallback);
    }
  }

  predicate IdeographFree(s: string) {
    forall i | 0 <= i < |s| :: !IsIdeograph(s[i])
  }

  /** Fallback readings are kana (they come from hiragana readings). */
  predicate FallbackIdeographFree(fallback: map<string, string>) {
    forall k | k in fallback :: IdeographFree(fallback[k])
  }

  /** After conversion, every ideograph left is allowed or has no fallback. */
  lemma {:induction false} ConvertRespectsGrade(text: string, allowed: set<string>, fallback: map<string, string>)
    requires FallbackIdeographFree(fallback)
    ensures forall i | 0 <= i < |Convert(text, allowed, fallback)| ::
      !Substituted(Convert(text, allowed, fallback)[i], allowed, fallback)
  {
    if text != [] {
      var front := text[..|text| - 1];
      ConvertRespectsGrade(front, allowed, fallback);
      var c := text[|text| - 1];
      var tail := ConvertChar(c, allowed, fallback);
      if Substituted(c, allowed, fallback) {
        assert IdeographFree(fallback[[c]]);
      }
      assert forall i | 0 <= i < |tail| :: !Substituted(tail[i], allowed, fallback);
    }
  }

  /** Substitution is idempotent when fallback readings hold no ideograph. */
  lemma ConvertIdempotent(text: string, allowed: set<string>, fallback: map<string, string>)
    requires FallbackIdeographFree(fallback)
    ensures Convert(Convert(text, allowed, fallback), allowed, fallback) == Convert(text, allowed, fallback)
  {
    ConvertRespectsGrade(text, allowed, fallback);
    ConvertIdentity(Convert(text, allowed, fallback), allowed, fallback);
  }

  // ------------------------------------------------ question generation

  /** `reading.okurigana && reading.okurigana.length > 0`. */
  predicate HasOkurigana(okurigana: Option<string>) {
    okurigana.Some? && |okurigana.value| > 0
  }

  /** The template class: `is_onyomi === 1` gives an on-reading, otherwise
      non-empty okurigana a verb, otherwise a noun; exactly one holds. */
  function Classify(isOnyomi: int, okurigana: Option<string>): Kind {
    if isOnyomi == 1 then Onyomi
    else if HasOkurigana(okurigana) then Verb
    else Noun
  }

  lemma ClassifyCases(isOnyomi: int, okurigana: Option<string>)
    ensures Classify(isOnyomi, okurigana) == Onyomi <==> isOnyomi == 1
    ensures Classify(isOnyomi, okurigana) == Verb <==> isOnyomi != 1 && HasOkurigana(okurigana)
    ensures Classify(isOnyomi, okurigana) == Noun <==> isOnyomi != 1 && !HasOkurigana(okurigana)
  {
  }

  /** The template `generateQuestion` picks for a reading at a grade and index. */
  function ChosenTemplate(table: Table, r: ReadingRow, grade: int, index: nat): Template
    requires WellFormed(table) && ValidGrade(grade)
  {
    Pick(TemplatesFor(table, Classify(r.isOnyomi, r.okurigana), grade), index)
  }

  /** The trailing text before conversion: okurigana, when present, in front
      of the template's trailing fragment. */
  function RawPost(r: ReadingRow, t: Template): string {
    if HasOkurigana(r.okurigana) then r.okurigana.value + t.post else t.post
  }

  /** `generateQuestion`: the target span is the kanji unchanged, the answer
      is the reading without its parenthesised suffix, and the text around
      the blank is the chosen template, okurigana first, after conversion. */
  function GenerateQuestion(table: Table, r: ReadingRow, grade: int, allowed: set<string>,
                            fallback: map<string, string>, index: nat): (q: Question)
    requires WellFormed(table) && ValidGrade(grade)
    ensures q.kanjiText == r.kanji
    ensures q.kanjiReading == StripParenSuffix(r.reading)
    ensures q.preText == Convert(ChosenTemplate(table, r, grade, index).pre, allowed, fallback)
    ensures q.postText == Convert(RawPost(r, ChosenTemplate(table, r, grade, index)), allowed, fallback)
  {
    var t := ChosenTemplate(table, r, grade, index);
    Question(Convert(t.pre, allowed, fallback), r.kanji, StripParenSuffix(r.reading),
             Convert(RawPost(r, t), allowed, fallback))
  }

  /** With hiragana okurigana the final trailing text starts with it; this
      keys on okurigana being present, not on the class, so it also holds
      for an on-reading that carries okurigana. */
  lemma PostStartsWithOkurigana(table: Table, r: ReadingRow, grade: int, allowed: set<string>,
                                fallback: map<string, string>, index: nat)
    requires WellFormed(table) && ValidGrade(grade)
    requires HasOkurigana(r.okurigana) && IsHiragana(r.okurigana.value)
    ensures r.okurigana.value <= GenerateQuestion(table, r, grade, allowed, fallback, index).postText
  {
    var ok := r.okurigana.value;
    var t := ChosenTemplate(table, r, grade, index);
    ConvertAppend(ok, t.post, allowed, fallback);
    HiraganaHasNoIdeograph(ok);
    ConvertIdentity(ok, allowed, fallback);
  }

  // ------------------------------------------------ per-grade kanji lists

  /** The kanji of grade `g`, in query order. */
  function KanjiOfGrade(rows: seq<KanjiRow>, g: int): seq<string> {
    if rows == [] then []
    else
      var last := rows[|rows| - 1];
      KanjiOfGrade(rows[..|rows| - 1], g) + (if last.grade == g then [last.kanji] else [])
  }

  lemma {:induction false} KanjiOfGradeMembers(rows: seq<KanjiRow>, g: int, k: string)
    ensures k in KanjiOfGrade(rows, g) <==> exists i | 0 <= i < |rows| :: rows[i].kanji == k && rows[i].grade == g
  {
    if rows != [] {
      var front := rows[..|rows| - 1];
      KanjiOfGradeMembers(front, g, k);
      if k in KanjiOfGrade(rows, g) && k !in KanjiOfGrade(front, g) {
        assert rows[|rows| - 1].kanji == k;
      }
      if i :| 0 <= i < |rows| && rows[i].kanji == k && rows[i].grade == g {
        if i < |rows| - 1 {
          assert front[i] == rows[i];
        }
      }
    }
  }

  /** `buildKanjiByGrade`: for each grade 1..6, the list of its kanji in row order. */
  method BuildKanjiByGrade(rows: seq<KanjiRow>) returns (byGrade: map<int, seq<string>>)
    requires forall i | 0 <= i < |rows| :: ValidGrade(rows[i].grade)
    ensures forall g | ValidGrade(g) :: g in byGrade && byGrade[g] == KanjiOfGrade(rows, g)
  {
    byGrade := map[1 := [], 2 := [], 3 := [], 4 := [], 5 := [], 6 := []];
    var i := 0;
    while i < |rows|
      invariant 0 <= i <= |rows|
      invariant forall g | ValidGrade(g) :: g in byGrade && byGrade[g] == KanjiOfGrade(rows[..i], g)
    {
      var row := rows[i];
      assert rows[..i + 1][..i] == rows[..i];
      byGrade := byGrade[row.grade := byGrade[row.grade] + [row.kanji]];
      i := i + 1;
    }
    assert rows[..i] == rows;
  }

  // ------------------------------------------------------ allowed sets

  function Elems(ks: seq<string>): set<string> {
    set i | 0 <= i < |ks| :: ks[i]
  }

  /** The kanji of all grades strictly below `g`. */
  function Earlier(byGrade: map<int, seq<string>>, g: int): set<string>
    requires forall h | ValidGrade(h) :: h in byGrade
    decreases g
  {
    if g <= 1 || g > 7 then {} else Earlier(byGrade, g - 1) + Elems(byGrade[g - 1])
  }

  /** A kanji is allowed at grade g exactly when some earlier grade lists it. */
  lemma {:induction false} EarlierMembers(byGrade: map<int, seq<string>>, g: int, k: string)
    requires forall h | ValidGrade(h) :: h in byGrade
    requires ValidGrade(g)
    ensures k in Earlier(byGrade, g) <==> exists h | 1 <= h < g :: k in byGrade[h]
    decreases g
  {
    if g > 1 {
      EarlierMembers(byGrade, g - 1, k);
      if k in Elems(byGrade[g - 1]) {
        var i :| 0 <= i < |byGrade[g - 1]| && byGrade[g - 1][i] == k;
        assert k in byGrade[g - 1];
      }
      if k in byGrade[g - 1] {
        var i :| 0 <= i < |byGrade[g - 1]| && byGrade[g - 1][i] == k;
        assert k in Elems(byGrade[g - 1]);
      }
    }
  }

  /** Allowed sets only grow with the grade. */
  lemma {:induction false} EarlierMonotone(byGrade: map<int, seq<string>>, g: int, g': int)
    requires forall h | ValidGrade(h) :: h in byGrade
    requires ValidGrade(g) && ValidGrade(g') && g <= g'
    ensures Earlier(byGrade, g) <= Earlier(byGrade, g')
    decreases g' - g
  {
    if g < g' {
      EarlierMonotone(byGrade, g, g' - 1);
    }
  }

  /** `buildAllowedKanjiMap`: for each grade 1..6, the union of the kanji of
      the grades before it; grade 1 gets the empty set. */
  method BuildAllowedKanjiMap(byGrade: map<int, seq<string>>) returns (allowedByGrade: map<int, set<string>>)
    requires forall h | ValidGrade(h) :: h in byGrade
    ensures forall g | ValidGrade(g) :: g in allowedByGrade && allowedByGrade[g] == Earlier(byGrade, g)
    ensures 1 in allowedByGrade && allowedByGrade[1] == {}
  {
    allowedByGrade := map[];
    var grade := 1;
    while grade <= 6
      invariant 1 <= grade <= 7
      invariant forall g | 1 <= g < grade :: g in allowedByGrade && allowedByGrade[g] == Earlier(byGrade, g)
    {
      var allowed: set<string> := {};
      var g := 1;
      while g < grade
        invariant 1 <= g <= grade
        invariant allowed == Earlier(byGrade, g)
      {
        var ks := byGrade[g];
        var j := 0;
        while j < |ks|
          invariant 0 <= j <= |ks|
          invariant allowed == Earlier(byGrade, g) + Elems(ks[..j])
        {
          assert Elems(ks[..j + 1]) == Elems(ks[..j]) + {ks[j]} by {
            assert forall i | 0 <= i < j :: ks[..j + 1][i] == ks[..j][i];
          }
          allowed := allowed + {ks[j]};
          j := j + 1;
        }
        assert ks[..j] == ks;
        g := g + 1;
      }
      allowedByGrade := allowedByGrade[grade := allowed];
      grade := grade + 1;
    }
  }

  /** End to end from the kanji table: a kanji is allowed at grade g exactly
      when the table lists it at a lower grade. */
  lemma AllowedFromRows(rows: seq<KanjiRow>, byGrade: map<int, seq<string>>, g: int, k: string)
    requires forall h | ValidGrade(h) :: h in byGrade && byGrade[h] == KanjiOfGrade(rows, h)
    requires ValidGrade(g)
    ensures k in Earlier(byGrade, g) <==> exists i | 0 <= i < |rows| :: rows[i].kanji == k && 1 <= rows[i].grade < g
  {
    EarlierMembers(byGrade, g, k);
    if k in Earlier(byGrade, g) {
      var h :| 1 <= h < g && k in byGrade[h];
      KanjiOfGradeMembers(rows, h, k);
    }
    if i :| 0 <= i < |rows| && rows[i].kanji == k && 1 <= rows[i].grade < g {
      KanjiOfGradeMembers(rows, rows[i].grade, k);
    }
  }

  /** The kanji the table lists below grade `g`: what the per-grade allowed set
      holds, stated on the rows themselves. */
  function AllowedIn(rows: seq<KanjiRow>, g: int): set<string> {
    set i | 0 <= i < |rows| && 1 <= rows[i].grade < g :: rows[i].kanji
  }

  /** The map built by `buildKanjiByGrade` and `buildAllowedKanjiMap` gives,
      for every grade, exactly the kanji of the lower grades. */
  lemma {:induction false} EarlierIsAllowedIn(rows: seq<KanjiRow>, byGrade: map<int, seq<string>>, g: int)
    requires forall h | ValidGrade(h) :: h in byGrade && byGrade[h] == KanjiOfGrade(rows, h)
    requires ValidGrade(g)
    ensures Earlier(byGrade, g) == AllowedIn(rows, g)
  {
    forall k ensures k in Earlier(byGrade, g) <==> k in AllowedIn(rows, g) {
      AllowedFromRows(rows, byGrade, g, k);
    }
  }

  // -------------------------------------------------- fallback readings

  /** One step of `buildKanjiToReadingMap`: a kanji gets the stripped reading
      unless it already holds a truthy (non-empty) one. */
  function FallbackStep(m: map<string, string>, row: KanjiReading): map<string, string> {
    if row.kanji !in m || m[row.kanji] == "" then m[row.kanji := StripParenSuffix(row.reading)] else m
  }

  /** The map after processing the rows in order. */
  function FallbackSpec(rows: seq<KanjiReading>): map<string, string> {
    if rows == [] then map[] else FallbackStep(FallbackSpec(rows[..|rows| - 1]), rows[|rows| - 1])
  }

  /** Reference reading of "first wins", searching from the front: the first
      row of kanji k whose stripped reading is non-empty decides; if there is
      none, the value is the empty string. */
  function FirstReading(rows: seq<KanjiReading>, k: string): string {
    if rows == [] then ""
    else if rows[0].kanji == k && StripParenSuffix(rows[0].reading) != "" then StripParenSuffix(rows[0].reading)
    else FirstReading(rows[1..], k)
  }

  predicate Mentions(rows: seq<KanjiReading>, k: string) {
    exists i | 0 <= i < |rows| :: rows[i].kanji == k
  }

  lemma {:induction false} FirstReadingUnmentioned(rows: seq<KanjiReading>, k: string)
    requires !Mentions(rows, k)
    ensures FirstReading(rows, k) == ""
  {
    if rows != [] {
      assert rows[0].kanji != k;
      assert forall i | 0 <= i < |rows| - 1 :: rows[1..][i] == rows[i + 1];
      FirstReadingUnmentioned(rows[1..], k);
    }
  }

  lemma {:induction false} FirstReadingSnoc(rows: seq<KanjiReading>, row: KanjiReading, k: string)
    ensures FirstReading(rows + [row], k) ==
      if FirstReading(rows, k) != "" then FirstReading(rows, k)
      else if row.kanji == k then StripParenSuffix(row.reading) else ""
  {
    if rows != [] {
      assert (rows + [row])[1..] == rows[1..] + [row];
      FirstReadingSnoc(rows[1..], row, k);
    } else {
      assert [row][1..] == [];
    }
  }

  /** The map has a key for every kanji that has a row, and its value is the
      first non-empty stripped reading: later rows never overwrite it. */
  lemma {:induction false} FallbackFirstWins(rows: seq<KanjiReading>, k: string)
    ensures k in FallbackSpec(rows) <==> Mentions(rows, k)
    ensures k in FallbackSpec(rows) ==> FallbackSpec(rows)[k] == FirstReading(rows, k)
  {
    if rows != [] {
      var front := rows[..|rows| - 1];
      var row := rows[|rows| - 1];
      assert rows == front + [row];
      FallbackFirstWins(front, k);
      FirstReadingSnoc(front, row, k);
      if Mentions(front, k) {
        var i :| 0 <= i < |front| && front[i].kanji == k;
        assert rows[i].kanji == k;
      } else {
        FirstReadingUnmentioned(front, k);
      }
      if Mentions(rows, k) && row.kanji != k {
        var i :| 0 <= i < |rows| && rows[i].kanji == k;
        assert front[i].kanji == k;
      }
    }
  }

  lemma {:induction false} FirstReadingClean(rows: seq<KanjiReading>, k: string)
    ensures !HasParenSuffix(FirstReading(rows, k))
  {
    if rows != [] {
      StripParenSuffixClean(rows[0].reading);
      FirstReadingClean(rows[1..], k);
    }
  }

  /** No stored fallback keeps a parenthesised annotation. */
  lemma FallbackClean(rows: seq<KanjiReading>)
    ensures forall k | k in FallbackSpec(rows) :: !HasParenSuffix(FallbackSpec(rows)[k])
  {
    forall k | k in FallbackSpec(rows)
      ensures !HasParenSuffix(FallbackSpec(rows)[k])
    {
      FallbackFirstWins(rows, k);
      FirstReadingClean(rows, k);
    }
  }

  /** `ORDER BY h.kanji, r.is_onyomi ASC`, as far as the map depends on it:
      within one kanji, kun-readings (0) come before on-readings (1). */
  predicate KunFirst(rows: seq<KanjiReading>) {
    && (forall i | 0 <= i < |rows| :: rows[i].isOnyomi == 0 || rows[i].isOnyomi == 1)
    && forall i, j | 0 <= i < j < |rows| && rows[i].kanji == rows[j].kanji :: rows[i].isOnyomi <= rows[j].isOnyomi
  }

  lemma {:induction false} FirstReadingIsKun(rows: seq<KanjiReading>, k: string, j: nat)
    requires KunFirst(rows)
    requires j < |rows| && rows[j].kanji == k && rows[j].isOnyomi == 0 && StripParenSuffix(rows[j].reading) != ""
    ensures exists i | 0 <= i < |rows| :: rows[i].kanji == k && rows[i].isOnyomi == 0
                                          && StripParenSuffix(rows[i].reading) == FirstReading(rows, k)
  {
    if rows[0].kanji == k && StripParenSuffix(rows[0].reading) != "" {
      assert rows[0].isOnyomi <= rows[j].isOnyomi || j == 0;
    } else {
      assert j > 0;
      var rest := rows[1..];
      assert rest[j - 1] == rows[j];
      FirstReadingIsKun(rest, k, j - 1);
      var i :| 0 <= i < |rest| && rest[i].kanji == k && rest[i].isOnyomi == 0
               && StripParenSuffix(rest[i].reading) == FirstReading(rest, k);
      assert rows[i + 1] == rest[i];
    }
  }

  /** Kun-readings are preferred: under the query order, a kanji that has a
      kun-reading with a non-empty stripped text gets a kun-reading as fallback. */
  lemma FallbackPrefersKun(rows: seq<KanjiReading>, k: string, j: nat)
    requires KunFirst(rows)
    requires j < |rows| && rows[j].kanji == k && rows[j].isOnyomi == 0 && StripParenSuffix(rows[j].reading) != ""
    ensures k in FallbackSpec(rows)
    ensures exists i | 0 <= i < |rows| :: rows[i].kanji == k && rows[i].isOnyomi == 0
                                          && StripParenSuffix(rows[i].reading) == FallbackSpec(rows)[k]
  {
    FallbackFirstWins(rows, k);
    FirstReadingIsKun(rows, k, j);
  }

  /** `buildKanjiToReadingMap`: the first-wins loop over the rows. */
  method BuildKanjiToReadingMap(rows: seq<KanjiReading>) returns (result: map<string, string>)
    ensures result == FallbackSpec(rows)
  {
    result := map[];
    var i := 0;
    while i < |rows|
      invariant 0 <= i <= |rows|
      invariant result == FallbackSpec(rows[..i])
    {
      var row := rows[i];
      assert rows[..i + 1][..i] == rows[..i];
      if !(row.kanji in result) || result[row.kanji] == "" {
        var reading := StripParenSuffix(row.reading);
        result := result[row.kanji := reading];
      }
      i := i + 1;
    }
    assert rows[..i] == rows;
  }

  // ---------------------------------------------------- generation loop

  /** `ORDER BY h.grade, h.kanji_id, r.is_onyomi DESC`. */
  predicate GenerationOrder(readings: seq<ReadingRow>) {
    forall i, j | 0 <= i < j < |readings| ::
      || readings[i].grade < readings[j].grade
      || (readings[i].grade == readings[j].grade && readings[i].kanjiId < readings[j].kanjiId)
      || (readings[i].grade == readings[j].grade && readings[i].kanjiId == readings[j].kanjiId
          && readings[i].isOnyomi >= readings[j].isOnyomi)
  }

  /** The row `insertStmt.run` writes for a reading and its question. */
  function Row(r: ReadingRow, unitId: int, q: Question): QuestionRecord {
    QuestionRecord(unitId, q.preText, q.kanjiText, q.kanjiReading, q.postText, r.readingId)
  }

  /** Number of readings of grade g. */
  function CountOfGrade(readings: seq<ReadingRow>, g: int): nat {
    if readings == [] then 0
    else CountOfGrade(readings[..|readings| - 1], g) + (if readings[|readings| - 1].grade == g then 1 else 0)
  }

  /** The statistics map after the readings: one key per grade 1..6. */
  function Tally(readings: seq<ReadingRow>): (stats: map<int, nat>)
    ensures forall g :: g in stats <==> ValidGrade(g)
  {
    if readings == [] then map[1 := 0, 2 := 0, 3 := 0, 4 := 0, 5 := 0, 6 := 0]
    else
      var m := Tally(readings[..|readings| - 1]);
      var g := readings[|readings| - 1].grade;
      if g in m then m[g := m[g] + 1] else m
  }

  /** Each grade's statistic is the number of readings of that grade. */
  lemma {:induction false} TallyCounts(readings: seq<ReadingRow>)
    ensures forall g | ValidGrade(g) :: Tally(readings)[g] == CountOfGrade(readings, g)
  {
    if readings != [] {
      TallyCounts(readings[..|readings| - 1]);
    }
  }

  /** The per-grade statistics add up to the number of readings. */
  lemma {:induction false} StatsTotal(readings: seq<ReadingRow>)
    requires forall i | 0 <= i < |readings| :: ValidGrade(readings[i].grade)
    ensures CountOfGrade(readings, 1) + CountOfGrade(readings, 2) + CountOfGrade(readings, 3)
          + CountOfGrade(readings, 4) + CountOfGrade(readings, 5) + CountOfGrade(readings, 6) == |readings|
  {
    if readings != [] {
      StatsTotal(readings[..|readings| - 1]);
    }
  }

  /** One more reading adds one to the count of its grade. */
  lemma TallyStep(readings: seq<ReadingRow>, i: nat)
    requires i < |readings| && ValidGrade(readings[i].grade)
    ensures Tally(readings[..i + 1]) == Tally(readings[..i])[readings[i].grade := Tally(readings[..i])[readings[i].grade] + 1]
  {
    assert readings[..i + 1][..i] == readings[..i];
  }

  /** The loop of `main`: one row per reading in query order, built from the
      question generated with template index equal to the reading's position
      (the index is incremented once per reading), and per-grade counts in
      `stats`. `generate` is `generateQuestion` with the template table and
      the fallback map fixed, as `Run` passes it. */
  method GenerateQuestions(readings: seq<ReadingRow>, allowedByGrade: map<int, set<string>>,
                           unitIds: map<int, int>, generate: (ReadingRow, int, set<string>, nat) --> Question)
    returns (questions: seq<QuestionRecord>, insertedCount: nat, stats: map<int, nat>)
    requires forall i | 0 <= i < |readings| :: ValidGrade(readings[i].grade)
    requires forall g | ValidGrade(g) :: g in allowedByGrade && g in unitIds
    requires forall r, g, allowed, index | ValidGrade(g) :: generate.requires(r, g, allowed, index)
    ensures |questions| == |readings| == insertedCount
    ensures forall i {:trigger questions[i]} | 0 <= i < |readings| ::
      var g := readings[i].grade;
      questions[i] == Row(readings[i], unitIds[g], generate(readings[i], g, allowedByGrade[g], i))
    ensures stats == Tally(readings)
  {
    questions := [];
    insertedCount := 0;
    stats := map[1 := 0, 2 := 0, 3 := 0, 4 := 0, 5 := 0, 6 := 0];
    var templateIndex: nat := 0;
    var i := 0;
    while i < |readings|
      invariant 0 <= i <= |readings|
      invariant templateIndex == i && insertedCount == i && |questions| == i
      invariant forall j {:trigger questions[j]} | 0 <= j < i ::
        var g := readings[j].grade;
        questions[j] == Row(readings[j], unitIds[g], generate(readings[j], g, allowedByGrade[g], j))
      invariant stats == Tally(readings[..i])
    {
      var r := readings[i];
      var grade := r.grade;
      var unitId := unitIds[grade];
      var allowedKanji := allowedByGrade[grade];
      var question := generate(r, grade, allowedKanji, templateIndex);
      templateIndex := templateIndex + 1;
      TallyStep(readings, i);
      questions := questions + [QuestionRecord(unitId, question.preText, question.kanjiText,
                                               question.kanjiReading, question.postText, r.readingId)];
      insertedCount := insertedCount + 1;
      stats := stats[grade := stats[grade] + 1];
      i := i + 1;
    }
    assert readings[..i] == readings;
  }

  /** Every ideograph left in a generated question's text around the blank
      is allowed at its grade or has no fallback reading. */
  lemma QuestionRespectsGrade(table: Table, r: ReadingRow, grade: int, allowed: set<string>,
                              fallback: map<string, string>, index: nat)
    requires WellFormed(table) && ValidGrade(grade)
    requires FallbackIdeographFree(fallback)
    ensures var q := GenerateQuestion(table, r, grade, allowed, fallback, index);
      && (forall n | 0 <= n < |q.preText| :: !Substituted(q.preText[n], allowed, fallback))
      && (forall n | 0 <= n < |q.postText| :: !Substituted(q.postText[n], allowed, fallback))
  {
    var t := ChosenTemplate(table, r, grade, index);
    ConvertRespectsGrade(t.pre, allowed, fallback);
    ConvertRespectsGrade(RawPost(r, t), allowed, fallback);
  }

  /** An ideograph that is not substituted at grade g is listed at a lower
      grade, or has no fallback reading. */
  predicate GradeSafe(c: char, kanjiRows: seq<KanjiRow>, grade: int, fallback: map<string, string>) {
    IsIdeograph(c) ==>
      (exists j | 0 <= j < |kanjiRows| :: kanjiRows[j].kanji == [c] && 1 <= kanjiRows[j].grade < grade)
      || !HasFallback(c, fallback)
  }

  lemma TextGradeSafe(text: string, kanjiRows: seq<KanjiRow>, byGrade: map<int, seq<string>>, grade: int,
                      fallback: map<string, string>)
    requires forall h | ValidGrade(h) :: h in byGrade && byGrade[h] == KanjiOfGrade(kanjiRows, h)
    requires ValidGrade(grade)
    requires forall n | 0 <= n < |text| :: !Substituted(text[n], Earlier(byGrade, grade), fallback)
    ensures forall n | 0 <= n < |text| :: GradeSafe(text[n], kanjiRows, grade, fallback)
  {
    forall n | 0 <= n < |text|
      ensures GradeSafe(text[n], kanjiRows, grade, fallback)
    {
      AllowedFromRows(kanjiRows, byGrade, grade, [text[n]]);
    }
  }

  /** The whole run: maps built from the kanji and fallback queries, then one
      row per reading. Each row keeps the reading's id, unit, kanji and
      stripped reading, and every ideograph left in the text around the
      blank belongs to an earlier grade or has no fallback reading. */
  method Run(kanjiRows: seq<KanjiRow>, fallbackRows: seq<KanjiReading>, readings: seq<ReadingRow>,
             unitIds: map<int, int>)
    returns (questions: seq<QuestionRecord>, insertedCount: nat, stats: map<int, nat>)
    requires forall i | 0 <= i < |kanjiRows| :: ValidGrade(kanjiRows[i].grade)
    requires GenerationOrder(readings)
    requires forall i | 0 <= i < |readings| :: ValidGrade(readings[i].grade)
    requires forall g | ValidGrade(g) :: g in unitIds
    requires forall i | 0 <= i < |fallbackRows| :: IdeographFree(fallbackRows[i].reading)
    ensures |questions| == |readings| == insertedCount
    ensures stats == Tally(readings)
    ensures WellFormed(Standard())
    ensures forall i | 0 <= i < |readings| ::
      questions[i] == Row(readings[i], unitIds[readings[i].grade],
        GenerateQuestion(Standard(), readings[i], readings[i].grade,
          AllowedIn(kanjiRows, readings[i].grade), FallbackSpec(fallbackRows), i))
    ensures forall i | 0 <= i < |readings| ::
      && questions[i].readingId == readings[i].readingId
      && questions[i].unitId == unitIds[readings[i].grade]
      && questions[i].kanjiText == readings[i].kanji
      && questions[i].kanjiReading == StripParenSuffix(readings[i].reading)
    ensures forall i, n | 0 <= i < |readings| && 0 <= n < |questions[i].preText| ::
      GradeSafe(questions[i].preText[n], kanjiRows, readings[i].grade, FallbackSpec(fallbackRows))
    ensures forall i, n | 0 <= i < |readings| && 0 <= n < |questions[i].postText| ::
      GradeSafe(questions[i].postText[n], kanjiRows, readings[i].grade, FallbackSpec(fallbackRows))
  {
    var byGrade := BuildKanjiByGrade(kanjiRows);
    var allowedByGrade := BuildAllowedKanjiMap(byGrade);
    var fallback := BuildKanjiToReadingMap(fallbackRows);
    FallbackReadingsIdeographFree(fallbackRows);
    var table := Standard();
    StandardWellFormed();
    var generate := (r: ReadingRow, g: int, allowed: set<string>, index: nat)
      requires WellFormed(table) && ValidGrade(g) =>
      GenerateQuestion(table, r, g, allowed, fallback, index);
    questions, insertedCount, stats := GenerateQuestions(readings, allowedByGrade, unitIds, generate);
    forall i | 0 <= i < |readings|
      ensures questions[i] == Row(readings[i], unitIds[readings[i].grade],
        GenerateQuestion(table, readings[i], readings[i].grade,
          AllowedIn(kanjiRows, readings[i].grade), fallback, i))
      ensures questions[i].readingId == readings[i].readingId
      ensures questions[i].unitId == unitIds[readings[i].grade]
      ensures questions[i].kanjiText == readings[i].kanji
      ensures questions[i].kanjiReading == StripParenSuffix(readings[i].reading)
      ensures forall n | 0 <= n < |questions[i].preText| ::
        GradeSafe(questions[i].preText[n], kanjiRows, readings[i].grade, fallback)
      ensures forall n | 0 <= n < |questions[i].postText| ::
        GradeSafe(questions[i].postText[n], kanjiRows, readings[i].grade, fallback)
    {
      var r := readings[i];
      var allowed := allowedByGrade[r.grade];
      var q := GenerateQuestion(table, r, r.grade, allowed, fallback, i);
      assert questions[i] == Row(r, unitIds[r.grade], q);
      EarlierIsAllowedIn(kanjiRows, byGrade, r.grade);
      QuestionRespectsGrade(table, r, r.grade, allowed, fallback, i);
      TextGradeSafe(q.preText, kanjiRows, byGrade, r.grade, fallback);
      TextGradeSafe(q.postText, kanjiRows, byGrade, r.grade, fallback);
    }
  }

  /** Fallback values are prefixes of readings, so they inherit ideograph-freedom. */
  lemma FallbackReadingsIdeographFree(rows: seq<KanjiReading>)
    requires forall i | 0 <= i < |rows| :: IdeographFree(rows[i].reading)
    ensures FallbackIdeographFree(FallbackSpec(rows))
  {
    forall k | k in FallbackSpec(rows)
      ensures IdeographFree(FallbackSpec(rows)[k])
    {
      FallbackFirstWins(rows, k);
      FirstReadingFree(rows, k);
    }
  }

  lemma {:induction false} FirstReadingFree(rows: seq<KanjiReading>, k: string)
    requires forall i | 0 <= i < |rows| :: IdeographFree(rows[i].reading)
    ensures IdeographFree(FirstReading(rows, k))
  {
    if rows != [] {
      FirstReadingFree(rows[1..], k);
    }
  }
}
