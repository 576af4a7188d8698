/**
 * migrate_units.js and migrate_units.php: the regrouping of every grade's
 * kanji into units of twenty (第N回). The old units are deleted, each
 * grade's kanji, in kanji_id order, are cut into groups of twenty with a
 * short last group merged into the one before, a unit is created per group
 * and its kanji are pointed at it; then every question is pointed at the
 * unit of its reading's kanji or, without a reading, of the first kanji of
 * its text that has a unit.
 */
module MigrateUnits {
  import opened Wrappers
  import opened Text

  /** `GROUP_SIZE`. */
  const GroupSize: nat := 20
  /** `MIN_LAST_GROUP`: a last group this small or smaller is merged. */
  const MinLastGroup: nat := 5

  // ----------------------------------------------------------------- grouping

  /** `array_chunk($allKanji, 20)`, and the JavaScript loop of
      `slice(i, i + 20)`: consecutive groups of twenty, the last one shorter. */
  function Chunks<T>(xs: seq<T>): seq<seq<T>>
    decreases |xs|
  {
    if xs == [] then []
    else if |xs| <= GroupSize then [xs]
    else [xs[..GroupSize]] + Chunks(xs[GroupSize..])
  }

  /** The groups written one after the other. */
  function Flatten<T>(groups: seq<seq<T>>): seq<T> {
    if groups == [] then [] else groups[0] + Flatten(groups[1..])
  }

  /** With more than one group and a last group of at most five, the last
      group is popped and appended to the new last group. */
  function MergeLast<T>(groups: seq<seq<T>>): seq<seq<T>> {
    var n := |groups|;
    if n > 1 && |groups[n - 1]| <= MinLastGroup then groups[..n - 2] + [groups[n - 2] + groups[n - 1]]
    else groups
  }

  /** A grade's units: its kanji chunked, then the short tail merged. */
  function Regroup<T>(xs: seq<T>): seq<seq<T>> {
    MergeLast(Chunks(xs))
  }

  /** Appending a full-length prefix's worth of chunks and one more group. */
  lemma {:induction false} ChunksSnoc<T>(a: seq<T>, b: seq<T>)
    requires |a| % GroupSize == 0 && 0 < |b| <= GroupSize
    ensures Chunks(a + b) == Chunks(a) + [b]
    decreases |a|
  {
    if a == [] {
      assert a + b == b;
    } else {
      assert (a + b)[..GroupSize] == a[..GroupSize];
      assert (a + b)[GroupSize..] == a[GroupSize..] + b;
      ChunksSnoc(a[GroupSize..], b);
      if |a| == GroupSize {
        assert a[..GroupSize] == a && a[GroupSize..] == [];
      }
    }
  }

  /** The grouping of the JavaScript script: the `for (i = 0; i < length;
      i += GROUP_SIZE)` loop of slices, then the pop and merge of a short
      last group. */
  method GroupKanji<T>(all: seq<T>) returns (groups: seq<seq<T>>)
    ensures groups == Regroup(all)
  {
    groups := [];
    var i := 0;
    while i < |all|
      invariant 0 <= i && i % GroupSize == 0
      invariant groups == Chunks(all[..if i <= |all| then i else |all|])
      decreases |all| - i
    {
      var end := if i + GroupSize <= |all| then i + GroupSize else |all|;
      ChunksSnoc(all[..i], all[i..end]);
      assert all[..i] + all[i..end] == all[..end];
      groups := groups + [all[i..end]];
      i := i + GroupSize;
    }
    assert all[..|all|] == all;
    ghost var chunks := groups;
    if |groups| > 1 && |groups[|groups| - 1]| <= MinLastGroup {
      var lastGroup := groups[|groups| - 1];
      groups := groups[..|groups| - 1];
      groups := groups[|groups| - 1 := groups[|groups| - 1] + lastGroup];
      assert groups == chunks[..|chunks| - 2] + [chunks[|chunks| - 2] + chunks[|chunks| - 1]];
    }
  }

  lemma {:induction false} FlattenConcat<T>(a: seq<seq<T>>, b: seq<seq<T>>)
    ensures Flatten(a + b) == Flatten(a) + Flatten(b)
  {
    if a == [] {
      assert a + b == b;
    } else {
      assert (a + b)[0] == a[0] && (a + b)[1..] == a[1..] + b;
      FlattenConcat(a[1..], b);
    }
  }

  /** Chunking loses, repeats and reorders nothing; every chunk but the last
      holds exactly twenty, the last one to twenty. */
  lemma {:induction false} ChunksShape<T>(xs: seq<T>)
    ensures Flatten(Chunks(xs)) == xs
    ensures xs == [] <==> Chunks(xs) == []
    ensures forall k | 0 <= k < |Chunks(xs)| - 1 :: |Chunks(xs)[k]| == GroupSize
    ensures xs != [] ==> 0 < |Chunks(xs)[|Chunks(xs)| - 1]| <= GroupSize
    ensures |Chunks(xs)| == 1 <==> 0 < |xs| <= GroupSize
    decreases |xs|
  {
    if |xs| > GroupSize {
      var rest := xs[GroupSize..];
      ChunksShape(rest);
      assert Chunks(xs)[1..] == Chunks(rest);
      assert xs[..GroupSize] + rest == xs;
      forall k | 0 <= k < |Chunks(xs)| - 1 ensures |Chunks(xs)[k]| == GroupSize {
        if k > 0 {
          assert Chunks(xs)[k] == Chunks(rest)[k - 1];
        }
      }
    } else if xs != [] {
      assert Chunks(xs)[1..] == [];
    }
  }

  lemma RegroupFlatten<T>(xs: seq<T>)
    ensures Flatten(Regroup(xs)) == xs
  {
    RegroupShape(xs);
  }

  /** The units of a grade partition its kanji in order: writing the groups
      one after the other gives the kanji back, there is no group when there
      is no kanji, every group but the last holds twenty, and the last holds
      one to twenty-five when it is the only group and six to twenty-five
      otherwise. */
  lemma RegroupShape<T>(xs: seq<T>)
    ensures var groups := Regroup(xs);
      && Flatten(groups) == xs
      && (xs == [] <==> groups == [])
      && (forall k | 0 <= k < |groups| - 1 :: |groups[k]| == GroupSize)
      && (|groups| == 1 ==> 0 < |groups[0]| <= GroupSize + MinLastGroup)
      && (|groups| > 1 ==> MinLastGroup < |groups[|groups| - 1]| <= GroupSize + MinLastGroup)
      && (forall k | 0 <= k < |groups| :: groups[k] != [])
  {
    ChunksShape(xs);
    MergeLastFlatten(Chunks(xs));
    MergeLastShape(Chunks(xs));
  }

  /** Merging the last two groups keeps what they hold, in order. */
  lemma MergeLastFlatten<T>(chunks: seq<seq<T>>)
    ensures Flatten(MergeLast(chunks)) == Flatten(chunks)
  {
    var n := |chunks|;
    if n > 1 && |chunks[n - 1]| <= MinLastGroup {
      assert chunks == chunks[..n - 2] + [chunks[n - 2], chunks[n - 1]];
      FlattenConcat(chunks[..n - 2], [chunks[n - 2], chunks[n - 1]]);
      FlattenConcat(chunks[..n - 2], [chunks[n - 2] + chunks[n - 1]]);
      assert Flatten([chunks[n - 2], chunks[n - 1]]) == chunks[n - 2] + chunks[n - 1] by {
        assert [chunks[n - 2], chunks[n - 1]][1..] == [chunks[n - 1]];
        assert [chunks[n - 1]][1..] == [];
      }
      assert Flatten([chunks[n - 2] + chunks[n - 1]]) == chunks[n - 2] + chunks[n - 1] by {
        assert [chunks[n - 2] + chunks[n - 1]][1..] == [];
      }
    }
  }

  /** Chunks of twenty with a last one of one to twenty become groups of
      twenty with a last one of six to twenty-five, or a single group. */
  lemma MergeLastShape<T>(chunks: seq<seq<T>>)
    requires forall k | 0 <= k < |chunks| - 1 :: |chunks[k]| == GroupSize
    requires chunks != [] ==> 0 < |chunks[|chunks| - 1]| <= GroupSize
    ensures var groups := MergeLast(chunks);
      && (chunks == [] <==> groups == [])
      && (forall k | 0 <= k < |groups| - 1 :: |groups[k]| == GroupSize)
      && (|groups| == 1 ==> 0 < |groups[0]| <= GroupSize + MinLastGroup)
      && (|groups| > 1 ==> MinLastGroup < |groups[|groups| - 1]| <= GroupSize + MinLastGroup)
      && (forall k | 0 <= k < |groups| :: groups[k] != [])
  {
    var n := |chunks|;
    var groups := MergeLast(chunks);
    if n > 1 && |chunks[n - 1]| <= MinLastGroup {
      assert |groups| == n - 1;
      forall k | 0 <= k < |groups| ensures groups[k] != [] && (k < |groups| - 1 ==> |groups[k]| == GroupSize) {
        if k < n - 2 {
          assert groups[k] == chunks[k];
        }
      }
    } else {
      forall k | 0 <= k < |groups| ensures groups[k] != [] {
        if k < n - 1 {
          assert |chunks[k]| == GroupSize;
        }
      }
    }
  }

  // -------------------------------------------------------------------- units

  /** A row of `haitou_kanji`. */
  datatype KanjiRow = KanjiRow(kanjiId: int, grade: int, kanji: string, unitId: Option<int>)

  /** A row of `units`. */
  datatype Unit = Unit(unitId: int, gradeId: int, unitNumber: nat, unitName: string)

  /** The table in `kanji_id` order, its primary key. */
  predicate Sorted(table: seq<KanjiRow>) {
    forall i, j | 0 <= i < j < |table| :: table[i].kanjiId < table[j].kanjiId
  }

  function IdSet(rows: seq<KanjiRow>): set<int> {
    set k | 0 <= k < |rows| :: rows[k].kanjiId
  }

  /** `第${unitNumber}回`. */
  function UnitName(n: nat): string {
    "第" + NatToDecimal(n) + "回"
  }

  /** `SELECT kanji_id, kanji FROM haitou_kanji WHERE grade = ? ORDER BY
      kanji_id` on a table kept in `kanji_id` order. */
  function GradeKanji(table: seq<KanjiRow>, gradeId: int): (rows: seq<KanjiRow>)
    ensures forall k | 0 <= k < |rows| :: rows[k].grade == gradeId && rows[k] in table
  {
    if table == [] then []
    else
      var init := table[..|table| - 1];
      assert forall k | 0 <= k < |init| :: init[k] in table;
      GradeKanji(init, gradeId) + (if table[|table| - 1].grade == gradeId then [table[|table| - 1]] else [])
  }

  /** The units the loop over a grade's groups inserts: unit numbers 1..n,
      row ids from `firstId` on. */
  function NewUnits(gradeId: int, firstId: int, n: nat): (units: seq<Unit>)
    ensures |units| == n
  {
    if n == 0 then [] else NewUnits(gradeId, firstId, n - 1) + [Unit(firstId + n - 1, gradeId, n, UnitName(n))]
  }

  /** `UPDATE haitou_kanji SET unit_id = ? WHERE kanji_id = ?` for every
      kanji of a group: the kanji's unit, by kanji id. */
  function AssignGroup(assign: map<int, int>, unitId: int, group: seq<KanjiRow>): map<int, int> {
    if group == [] then assign
    else AssignGroup(assign, unitId, group[..|group| - 1])[group[|group| - 1].kanjiId := unitId]
  }

  /** The assignment of every group of a grade, group `i` to unit `firstId + i`. */
  function AssignGroups(assign: map<int, int>, firstId: int, groups: seq<seq<KanjiRow>>): map<int, int> {
    if groups == [] then assign
    else
      var n := |groups|;
      AssignGroup(AssignGroups(assign, firstId, groups[..n - 1]), firstId + n - 1, groups[n - 1])
  }

  /** What step 2 has built: the new `units` rows and each kanji's unit. */
  datatype Units = Units(units: seq<Unit>, assign: map<int, int>)

  /** One grade of step 2: nothing for a grade without kanji, otherwise a
      unit per group, with the ids the reset `units` table hands out next. */
  function GradeStep(s: Units, gradeId: int, kanji: seq<KanjiRow>): Units {
    if kanji == [] then s
    else
      var groups := Regroup(kanji);
      var first := |s.units| + 1;
      Units(s.units + NewUnits(gradeId, first, |groups|), AssignGroups(s.assign, first, groups))
  }

  /** Step 2 over the grades in `grade_id` order, from an emptied `units`. */
  function CreateUnits(table: seq<KanjiRow>, grades: seq<int>): Units {
    if grades == [] then Units([], map[])
    else
      var n := |grades|;
      GradeStep(CreateUnits(table, grades[..n - 1]), grades[n - 1], GradeKanji(table, grades[n - 1]))
  }

  /** `for (const kanji of group) updateKanji.run(unitId, kanji.kanji_id)`. */
  method AssignKanji(assign0: map<int, int>, unitId: int, group: seq<KanjiRow>) returns (assign: map<int, int>)
    ensures assign == AssignGroup(assign0, unitId, group)
  {
    assign := assign0;
    for j := 0 to |group|
      invariant assign == AssignGroup(assign0, unitId, group[..j])
    {
      assert group[..j + 1][..j] == group[..j];
      assign := assign[group[j].kanjiId := unitId];
    }
    assert group[..|group|] == group;
  }

  lemma AssignGroupsSnoc(assign: map<int, int>, firstId: int, groups: seq<seq<KanjiRow>>, i: nat)
    requires i < |groups|
    ensures AssignGroups(assign, firstId, groups[..i + 1])
         == AssignGroup(AssignGroups(assign, firstId, groups[..i]), firstId + i, groups[i])
  {
    assert groups[..i + 1][..i] == groups[..i];
  }

  /** The loop over a grade's groups: insert unit `i + 1` named `第{i + 1}回`,
      take the row id it was given, point the group's kanji at it. */
  method CreateGradeUnits(gradeId: int, groups: seq<seq<KanjiRow>>, units0: seq<Unit>, assign0: map<int, int>)
    returns (units: seq<Unit>, assign: map<int, int>)
    ensures units == units0 + NewUnits(gradeId, |units0| + 1, |groups|)
    ensures assign == AssignGroups(assign0, |units0| + 1, groups)
  {
    units, assign := units0, assign0;
    for i := 0 to |groups|
      invariant units == units0 + NewUnits(gradeId, |units0| + 1, i)
      invariant assign == AssignGroups(assign0, |units0| + 1, groups[..i])
    {
      var unitNumber := i + 1;
      var unitName := UnitName(unitNumber);
      var unitId := |units| + 1;
      assert unitId == |units0| + 1 + i;
      units := units + [Unit(unitId, gradeId, unitNumber, unitName)];
      AssignGroupsSnoc(assign0, |units0| + 1, groups, i);
      assign := AssignKanji(assign, unitId, groups[i]);
    }
    assert groups[..|groups|] == groups;
  }

  /** Steps 1 and 2: the `units` table emptied and its sequence reset, then
      for each grade its kanji grouped and a unit created per group. */
  method MigrateGrades(table: seq<KanjiRow>, grades: seq<int>) returns (units: seq<Unit>, assign: map<int, int>)
    ensures Units(units, assign) == CreateUnits(table, grades)
  {
    units, assign := [], map[];
    for g := 0 to |grades|
      invariant Units(units, assign) == CreateUnits(table, grades[..g])
    {
      assert grades[..g + 1][..g] == grades[..g];
      var gradeId := grades[g];
      var allKanji := GradeKanji(table, gradeId);
      if |allKanji| > 0 {
        var groups := GroupKanji(allKanji);
        units, assign := CreateGradeUnits(gradeId, groups, units, assign);
      }
    }
    assert grades[..|grades|] == grades;
  }

  // ------------------------------------------------------- unit properties

  /** A grade's units are numbered 1..n in order, each named `第N回` after
      its number, with consecutive row ids. */
  lemma {:induction false} NewUnitsNumbered(gradeId: int, firstId: int, n: nat)
    ensures forall i | 0 <= i < n :: NewUnits(gradeId, firstId, n)[i] == Unit(firstId + i, gradeId, i + 1, UnitName(i + 1))
  {
    if n > 0 {
      NewUnitsNumbered(gradeId, firstId, n - 1);
    }
  }

  /** The name gives the number back: `第`, the decimal number, `回`; no two
      numbers share a name. */
  lemma UnitNameParses(n: nat, m: nat)
    ensures var name := UnitName(n);
      && name[0] == '第' && name[|name| - 1] == '回'
      && JsParseInt(name[1..|name| - 1]) == Some(n)
    ensures UnitName(n) == UnitName(m) ==> n == m
  {
    var name := UnitName(n);
    assert name[1..|name| - 1] == NatToDecimal(n);
    ParseDecimal(n);
    ParseDecimal(m);
    if UnitName(n) == UnitName(m) {
      assert UnitName(m)[1..|UnitName(m)| - 1] == NatToDecimal(m);
    }
  }

  lemma IdSetConcat(a: seq<KanjiRow>, b: seq<KanjiRow>)
    ensures IdSet(a + b) == IdSet(a) + IdSet(b)
  {
    var ab := a + b;
    forall id | id in IdSet(ab) ensures id in IdSet(a) + IdSet(b) {
      var k :| 0 <= k < |ab| && ab[k].kanjiId == id;
      if k < |a| {
        assert a[k].kanjiId == id;
      } else {
        assert b[k - |a|].kanjiId == id;
      }
    }
    forall id | id in IdSet(a) + IdSet(b) ensures id in IdSet(ab) {
      if id in IdSet(a) {
        var k :| 0 <= k < |a| && a[k].kanjiId == id;
        assert ab[k].kanjiId == id;
      } else {
        var k :| 0 <= k < |b| && b[k].kanjiId == id;
        assert ab[|a| + k].kanjiId == id;
      }
    }
  }

  /** Every kanji of the group, and no other, is pointed at the unit. */
  lemma {:induction false} AssignGroupEffect(assign: map<int, int>, unitId: int, group: seq<KanjiRow>)
    ensures var r := AssignGroup(assign, unitId, group);
      && r.Keys == assign.Keys + IdSet(group)
      && (forall id | id in IdSet(group) :: r[id] == unitId)
      && (forall id | id in assign && id !in IdSet(group) :: r[id] == assign[id])
  {
    if group != [] {
      var init := group[..|group| - 1];
      AssignGroupEffect(assign, unitId, init);
      IdSetConcat(init, [group[|group| - 1]]);
      assert init + [group[|group| - 1]] == group;
      assert IdSet([group[|group| - 1]]) == {group[|group| - 1].kanjiId};
    }
  }

  lemma FlattenSnoc<T>(groups: seq<seq<T>>)
    requires groups != []
    ensures Flatten(groups) == Flatten(groups[..|groups| - 1]) + groups[|groups| - 1]
  {
    var n := |groups|;
    LastSplit(groups);
    FlattenConcat(groups[..n - 1], [groups[n - 1]]);
    FlattenOne(groups[n - 1]);
  }

  lemma LastSplit<T>(s: seq<T>)
    requires s != []
    ensures s == s[..|s| - 1] + [s[|s| - 1]]
  {
  }

  lemma FlattenOne<T>(group: seq<T>)
    ensures Flatten([group]) == group
  {
    assert [group][1..] == [];
  }

  /** Every kanji of a grade's groups, and no other, is pointed at one of
      the grade's units. */
  lemma {:induction false} AssignGroupsEffect(assign: map<int, int>, firstId: int, groups: seq<seq<KanjiRow>>)
    ensures var r := AssignGroups(assign, firstId, groups);
      && r.Keys == assign.Keys + IdSet(Flatten(groups))
      && (forall id | id in IdSet(Flatten(groups)) :: firstId <= r[id] < firstId + |groups|)
      && (forall id | id in assign && id !in IdSet(Flatten(groups)) :: r[id] == assign[id])
  {
    if groups != [] {
      var n := |groups|;
      var init := groups[..n - 1];
      var mid := AssignGroups(assign, firstId, init);
      AssignGroupsEffect(assign, firstId, init);
      AssignGroupEffect(mid, firstId + n - 1, groups[n - 1]);
      FlattenSnoc(groups);
      IdSetConcat(Flatten(init), groups[n - 1]);
      AssignStepCombine(assign, mid, AssignGroups(assign, firstId, groups),
                        IdSet(Flatten(init)), IdSet(groups[n - 1]), firstId, n);
    }
  }

  /** The kanji of the groups before and of one more group, pointed at units
      `firstId ..` and at unit `firstId + n - 1`: together, at units
      `firstId ..` below `firstId + n`. */
  lemma AssignStepCombine(assign: map<int, int>, mid: map<int, int>, r: map<int, int>,
                          before: set<int>, added: set<int>, firstId: int, n: nat)
    requires 1 <= n
    requires mid.Keys == assign.Keys + before
    requires forall id | id in before :: firstId <= mid[id] < firstId + n - 1
    requires forall id | id in assign && id !in before :: mid[id] == assign[id]
    requires r.Keys == mid.Keys + added
    requires forall id | id in added :: r[id] == firstId + n - 1
    requires forall id | id in mid && id !in added :: r[id] == mid[id]
    ensures r.Keys == assign.Keys + (before + added)
    ensures forall id | id in before + added :: firstId <= r[id] < firstId + n
    ensures forall id | id in assign && id !in before + added :: r[id] == assign[id]
  {
  }

  lemma {:induction false} FlattenHas<T>(groups: seq<seq<T>>, i: nat, j: nat)
    requires i < |groups| && j < |groups[i]|
    ensures groups[i][j] in Flatten(groups)
  {
    if i == 0 {
      assert Flatten(groups) == groups[0] + Flatten(groups[1..]);
      assert Flatten(groups)[j] == groups[0][j];
    } else {
      FlattenHas(groups[1..], i - 1, j);
    }
  }

  /** With kanji ids in increasing order, kanji `j` of group `i` is pointed
      at unit `firstId + i`: each kanji at the unit of its own group. */
  lemma {:induction false} AssignGroupsPlaces(assign: map<int, int>, firstId: int, groups: seq<seq<KanjiRow>>)
    requires Sorted(Flatten(groups))
    ensures var r := AssignGroups(assign, firstId, groups);
      forall i, j | 0 <= i < |groups| && 0 <= j < |groups[i]| ::
        groups[i][j].kanjiId in r && r[groups[i][j].kanjiId] == firstId + i
  {
    if groups != [] {
      var n := |groups|;
      var init := groups[..n - 1];
      var last := groups[n - 1];
      FlattenSnoc(groups);
      var front := Flatten(init);
      assert Sorted(front) by {
        assert forall k | 0 <= k < |front| :: front[k] == Flatten(groups)[k];
      }
      AssignGroupsPlaces(assign, firstId, init);
      var r0 := AssignGroups(assign, firstId, init);
      AssignGroupEffect(r0, firstId + n - 1, last);
      forall i, j | 0 <= i < n && 0 <= j < |groups[i]|
        ensures groups[i][j].kanjiId in AssignGroups(assign, firstId, groups)
        ensures AssignGroups(assign, firstId, groups)[groups[i][j].kanjiId] == firstId + i
      {
        if i == n - 1 {
          assert groups[i][j].kanjiId in IdSet(last);
        } else {
          assert init[i] == groups[i];
          FlattenHas(init, i, j);
          var p :| 0 <= p < |front| && front[p] == groups[i][j];
          forall q | 0 <= q < |last| ensures last[q].kanjiId != groups[i][j].kanjiId {
            assert Flatten(groups)[p] == front[p] && Flatten(groups)[|front| + q] == last[q];
          }
          assert groups[i][j].kanjiId !in IdSet(last);
        }
      }
    }
  }

  /** The grade query finds every kanji of the grade. */
  lemma {:induction false} GradeKanjiComplete(table: seq<KanjiRow>, gradeId: int)
    ensures forall k | 0 <= k < |table| && table[k].grade == gradeId :: table[k] in GradeKanji(table, gradeId)
  {
    if table != [] {
      var init := table[..|table| - 1];
      GradeKanjiComplete(init, gradeId);
      forall k | 0 <= k < |table| && table[k].grade == gradeId ensures table[k] in GradeKanji(table, gradeId) {
        if k < |init| {
          assert init[k] == table[k];
        }
      }
    }
  }

  /** On a table in `kanji_id` order the grade's kanji come in `kanji_id`
      order too, so no kanji id repeats in a grade. */
  lemma {:induction false} GradeKanjiSorted(table: seq<KanjiRow>, gradeId: int)
    requires Sorted(table)
    ensures Sorted(GradeKanji(table, gradeId))
  {
    if table != [] {
      var init := table[..|table| - 1];
      GradeKanjiSorted(init, gradeId);
      var rows := GradeKanji(table, gradeId);
      var initRows := GradeKanji(init, gradeId);
      var last := table[|table| - 1];
      forall i, j | 0 <= i < j < |rows| ensures rows[i].kanjiId < rows[j].kanjiId {
        if j >= |initRows| {
          assert rows[j] == last;
          assert rows[i] == initRows[i] && initRows[i] in init;
          var m :| 0 <= m < |init| && init[m] == initRows[i];
          assert table[m] == rows[i];
        } else {
          assert rows[i] == initRows[i] && rows[j] == initRows[j];
        }
      }
    }
  }

  /** The grades the table records for kanji id `id`: one, or none, since
      `kanji_id` is the primary key. */
  function GradesOf(table: seq<KanjiRow>, id: int): set<int> {
    set k | 0 <= k < |table| && table[k].kanjiId == id :: table[k].grade
  }

  /** The new units have ids 1, 2, ... in order, positive numbers and the
      names of their numbers. */
  predicate UnitsNumbered(units: seq<Unit>) {
    forall k | 0 <= k < |units| ::
      units[k].unitId == k + 1 && units[k].unitNumber >= 1 && units[k].unitName == UnitName(units[k].unitNumber)
  }

  /** Every assigned kanji points at an existing unit of its own grade. */
  predicate AssignedInGrade(table: seq<KanjiRow>, s: Units) {
    forall id | id in s.assign ::
      1 <= s.assign[id] <= |s.units| && s.units[s.assign[id] - 1].gradeId in GradesOf(table, id)
  }

  /** What step 2 keeps true. */
  predicate Consistent(table: seq<KanjiRow>, s: Units) {
    UnitsNumbered(s.units) && AssignedInGrade(table, s)
  }

  /** A grade's units, inserted after the existing ones, keep the numbering. */
  lemma NewUnitsAppend(units: seq<Unit>, gradeId: int, n: nat)
    requires UnitsNumbered(units)
    ensures UnitsNumbered(units + NewUnits(gradeId, |units| + 1, n))
  {
    var added := NewUnits(gradeId, |units| + 1, n);
    var all := units + added;
    NewUnitsNumbered(gradeId, |units| + 1, n);
    forall k | 0 <= k < |all|
      ensures all[k].unitId == k + 1 && all[k].unitNumber >= 1 && all[k].unitName == UnitName(all[k].unitNumber)
    {
      if k >= |units| {
        assert all[k] == added[k - |units|];
      } else {
        assert all[k] == units[k];
      }
    }
  }

  /** One grade's step appends units of that grade, points the grade's
      kanji at them and leaves every other kanji where it was. */
  lemma GradeStepShape(s: Units, gradeId: int, kanji: seq<KanjiRow>)
    ensures var t := GradeStep(s, gradeId, kanji);
      && |t.units| == |s.units| + (if kanji == [] then 0 else |Regroup(kanji)|)
      && (kanji == [] ==> t == s)
      && |s.units| <= |t.units| && t.units[..|s.units|] == s.units
      && (forall k | |s.units| <= k < |t.units| :: t.units[k].gradeId == gradeId)
      && t.assign.Keys == s.assign.Keys + IdSet(kanji)
      && (forall id | id in IdSet(kanji) :: |s.units| < t.assign[id] <= |t.units|)
      && (forall id | id in s.assign && id !in IdSet(kanji) :: t.assign[id] == s.assign[id])
  {
    if kanji != [] {
      var groups := Regroup(kanji);
      var first := |s.units| + 1;
      var t := GradeStep(s, gradeId, kanji);
      var added := NewUnits(gradeId, first, |groups|);
      RegroupFlatten(kanji);
      AssignGroupsEffect(s.assign, first, groups);
      NewUnitsNumbered(gradeId, first, |groups|);
      assert t.units == s.units + added;
      assert t.units[..|s.units|] == s.units;
      forall k | |s.units| <= k < |t.units| ensures t.units[k].gradeId == gradeId {
        assert t.units[k] == added[k - |s.units|];
      }
    }
  }

  /** The kanji of the grade query are recorded with that grade. */
  lemma GradeKanjiGrades(table: seq<KanjiRow>, gradeId: int, id: int)
    requires id in IdSet(GradeKanji(table, gradeId))
    ensures gradeId in GradesOf(table, id)
  {
    var kanji := GradeKanji(table, gradeId);
    var q :| 0 <= q < |kanji| && kanji[q].kanjiId == id;
    var m :| 0 <= m < |table| && table[m] == kanji[q];
  }

  /** A kanji pointed at a unit appended for grade `g`, one of its own grades. */
  lemma NewUnitInGrade(table: seq<KanjiRow>, s: Units, t: Units, g: int, id: int)
    requires |s.units| <= |t.units| && (forall k | |s.units| <= k < |t.units| :: t.units[k].gradeId == g)
    requires id in t.assign && |s.units| < t.assign[id] <= |t.units| && g in GradesOf(table, id)
    ensures 1 <= t.assign[id] <= |t.units| && t.units[t.assign[id] - 1].gradeId in GradesOf(table, id)
  {
  }

  /** A kanji that keeps its unit, among units kept in front, stays in grade. */
  lemma KeptUnitInGrade(table: seq<KanjiRow>, s: Units, t: Units, id: int)
    requires AssignedInGrade(table, s) && id in s.assign
    requires |s.units| <= |t.units| && t.units[..|s.units|] == s.units
    requires id in t.assign && t.assign[id] == s.assign[id]
    ensures 1 <= t.assign[id] <= |t.units| && t.units[t.assign[id] - 1].gradeId in GradesOf(table, id)
  {
    var u := s.assign[id];
    assert t.units[u - 1] == t.units[..|s.units|][u - 1];
  }

  /** A grade's kanji go to the grade's new units; the others keep theirs. */
  lemma GradeStepInGrade(table: seq<KanjiRow>, s: Units, gradeId: int)
    requires AssignedInGrade(table, s)
    ensures AssignedInGrade(table, GradeStep(s, gradeId, GradeKanji(table, gradeId)))
  {
    var kanji := GradeKanji(table, gradeId);
    var t := GradeStep(s, gradeId, kanji);
    GradeStepShape(s, gradeId, kanji);
    forall id | id in t.assign
      ensures 1 <= t.assign[id] <= |t.units| && t.units[t.assign[id] - 1].gradeId in GradesOf(table, id)
    {
      if id in IdSet(kanji) {
        GradeKanjiGrades(table, gradeId, id);
        NewUnitInGrade(table, s, t, gradeId, id);
      } else {
        KeptUnitInGrade(table, s, t, id);
      }
    }
  }

  lemma GradeStepConsistent(table: seq<KanjiRow>, s: Units, gradeId: int)
    requires Consistent(table, s)
    ensures Consistent(table, GradeStep(s, gradeId, GradeKanji(table, gradeId)))
  {
    var kanji := GradeKanji(table, gradeId);
    if kanji != [] {
      NewUnitsAppend(s.units, gradeId, |Regroup(kanji)|);
    }
    GradeStepInGrade(table, s, gradeId);
  }

  /** Step 2 keeps its units and assignment consistent. */
  lemma {:induction false} CreateUnitsConsistent(table: seq<KanjiRow>, grades: seq<int>)
    ensures Consistent(table, CreateUnits(table, grades))
  {
    if grades != [] {
      var n := |grades|;
      CreateUnitsConsistent(table, grades[..n - 1]);
      GradeStepConsistent(table, CreateUnits(table, grades[..n - 1]), grades[n - 1]);
    }
  }

  lemma GradeStepKeys(table: seq<KanjiRow>, s: Units, gradeId: int)
    ensures GradeStep(s, gradeId, GradeKanji(table, gradeId)).assign.Keys == s.assign.Keys + IdSet(GradeKanji(table, gradeId))
  {
    GradeStepShape(s, gradeId, GradeKanji(table, gradeId));
  }

  /** The grade query finds the id of each kanji of the grade. */
  lemma GradeKanjiIds(table: seq<KanjiRow>, k: nat)
    requires k < |table|
    ensures table[k].kanjiId in IdSet(GradeKanji(table, table[k].grade))
  {
    var kanji := GradeKanji(table, table[k].grade);
    GradeKanjiComplete(table, table[k].grade);
    var q :| 0 <= q < |kanji| && kanji[q] == table[k];
  }

  /** Step 2 points every kanji of a listed grade at some unit. */
  lemma {:induction false} CreateUnitsCovers(table: seq<KanjiRow>, grades: seq<int>)
    ensures forall k | 0 <= k < |table| && table[k].grade in grades :: table[k].kanjiId in CreateUnits(table, grades).assign
  {
    if grades != [] {
      var n := |grades|;
      var init := grades[..n - 1];
      var s := CreateUnits(table, init);
      var t := CreateUnits(table, grades);
      CreateUnitsCovers(table, init);
      GradeStepKeys(table, s, grades[n - 1]);
      assert t.assign.Keys == s.assign.Keys + IdSet(GradeKanji(table, grades[n - 1]));
      LastSplit(grades);
      forall k | 0 <= k < |table| && table[k].grade in grades ensures table[k].kanjiId in t.assign {
        if table[k].grade == grades[n - 1] {
          GradeKanjiIds(table, k);
        } else {
          assert table[k].grade in init;
        }
      }
    }
  }

  lemma GradesOfUnique(table: seq<KanjiRow>, k: nat)
    requires Sorted(table) && k < |table|
    ensures GradesOf(table, table[k].kanjiId) == {table[k].grade}
  {
    forall g | g in GradesOf(table, table[k].kanjiId) ensures g == table[k].grade {
      var m :| 0 <= m < |table| && table[m].kanjiId == table[k].kanjiId && table[m].grade == g;
    }
  }

  /** `unit` names one of the new units, and that unit belongs to `gradeId`. */
  predicate UnitOfGrade(units: seq<Unit>, unit: Option<int>, gradeId: int) {
    unit.Some? && 1 <= unit.value <= |units| && units[unit.value - 1].gradeId == gradeId
  }

  /** With `kanji_id` the primary key, each kanji of a listed grade ends up
      in one of the new units, of that same grade. */
  lemma KanjiInOwnGrade(table: seq<KanjiRow>, grades: seq<int>, k: nat)
    requires Sorted(table) && k < |table| && table[k].grade in grades
    ensures var s := CreateUnits(table, grades);
      var id := table[k].kanjiId;
      id in s.assign && UnitOfGrade(s.units, Some(s.assign[id]), table[k].grade)
  {
    var s := CreateUnits(table, grades);
    var id := table[k].kanjiId;
    CreateUnitsCovers(table, grades);
    CreateUnitsConsistent(table, grades);
    assert 1 <= s.assign[id] <= |s.units| && s.units[s.assign[id] - 1].gradeId in GradesOf(table, id);
    GradesOfUnique(table, k);
  }

  // ---------------------------------------------------- step 3: questions

  /** A row of `kanji_readings`, by what the migration reads of it. */
  datatype Reading = Reading(readingId: int, kanjiId: int)

  /** A row of `questions`, by what the migration reads and writes of it. */
  datatype Question = Question(questionId: int, readingId: Option<int>, kanjiText: string, unitId: Option<int>)

  function ReadingKey(r: Reading): int { r.readingId }
  function KanjiIdKey(row: KanjiRow): int { row.kanjiId }
  function KanjiKey(row: KanjiRow): string { row.kanji }

  /** A single-row lookup by key: the position of the first row whose key is
      `k`, or `None` when no row has it. */
  function FirstIndex<T, K(==)>(rows: seq<T>, key: T -> K, k: K): (r: Option<nat>)
    ensures r.None? <==> forall i | 0 <= i < |rows| :: key(rows[i]) != k
    ensures r.Some? ==>
      && r.value < |rows| && key(rows[r.value]) == k
      && forall m | 0 <= m < r.value :: key(rows[m]) != k
  {
    if rows == [] then None
    else if key(rows[0]) == k then Some(0)
    else match FirstIndex(rows[1..], key, k)
      case None => None
      case Some(i) => Some(i + 1)
  }

  /** The table after step 2: a kanji placed in a group carries its new
      unit, every other row keeps its `unit_id`. */
  function Placed(table: seq<KanjiRow>, assign: map<int, int>): (t: seq<KanjiRow>)
    ensures |t| == |table|
  {
    if table == [] then []
    else
      var row := table[0];
      [if row.kanjiId in assign then row.(unitId := Some(assign[row.kanjiId])) else row] + Placed(table[1..], assign)
  }

  /** Row `k` after step 2: the same kanji, with its new unit when step 2
      placed it and its old `unit_id` otherwise. */
  lemma {:induction false} PlacedAt(table: seq<KanjiRow>, assign: map<int, int>, k: nat)
    requires k < |table|
    ensures var row := Placed(table, assign)[k];
      && row.kanjiId == table[k].kanjiId && row.grade == table[k].grade && row.kanji == table[k].kanji
      && row.unitId == if table[k].kanjiId in assign then Some(assign[table[k].kanjiId]) else table[k].unitId
  {
    if k > 0 {
      PlacedAt(table[1..], assign, k - 1);
    }
  }

  /** The subquery of the reading path: the `unit_id` of the kanji the
      reading belongs to; `None` stands for the NULL the subquery yields when
      the reading or its kanji has no row, or the kanji has no unit. */
  function ReadingUnit(readings: seq<Reading>, table: seq<KanjiRow>, readingId: int): Option<int> {
    match FirstIndex(readings, ReadingKey, readingId)
    case None => None
    case Some(i) =>
      match FirstIndex(table, KanjiIdKey, readings[i].kanjiId)
      case None => None
      case Some(j) => table[j].unitId
  }

  /** `SELECT unit_id FROM haitou_kanji WHERE kanji = ? LIMIT 1` and the test
      `result && result.unit_id`: the unit of the character's row when there
      is a row and its unit is neither NULL nor 0. */
  function CharUnit(table: seq<KanjiRow>, c: char): Option<int> {
    match FirstIndex(table, KanjiKey, [c])
    case None => None
    case Some(j) => if table[j].unitId.Some? && table[j].unitId.value != 0 then table[j].unitId else None
  }

  /** The unit of the first character of the text that has one. */
  function FirstUnit(table: seq<KanjiRow>, text: string): Option<int> {
    if text == [] then None
    else if CharUnit(table, text[0]).Some? then CharUnit(table, text[0])
    else FirstUnit(table, text[1..])
  }

  /** No character has a unit exactly when the loop finds none. */
  lemma {:induction false} FirstUnitNone(table: seq<KanjiRow>, text: string)
    ensures FirstUnit(table, text).None? <==> forall i | 0 <= i < |text| :: CharUnit(table, text[i]).None?
  {
    if text != [] {
      var rest := text[1..];
      FirstUnitNone(table, rest);
      if FirstUnit(table, text).None? {
        forall i | 0 <= i < |text| ensures CharUnit(table, text[i]).None? {
          if i > 0 {
            assert text[i] == rest[i - 1];
          }
        }
      } else if CharUnit(table, text[0]).None? {
        var i :| 0 <= i < |rest| && CharUnit(table, rest[i]).Some?;
        assert text[i + 1] == rest[i];
      }
    }
  }

  /** A unit the loop finds is nonzero and belongs to the first character
      that has one. */
  lemma {:induction false} FirstUnitFound(table: seq<KanjiRow>, text: string)
    requires FirstUnit(table, text).Some?
    ensures FirstUnit(table, text).value != 0
    ensures exists i | 0 <= i < |text| ::
      && CharUnit(table, text[i]) == FirstUnit(table, text)
      && forall m | 0 <= m < i :: CharUnit(table, text[m]).None?
  {
    var rest := text[1..];
    if CharUnit(table, text[0]).None? {
      FirstUnitFound(table, rest);
      var i :| 0 <= i < |rest| && CharUnit(table, rest[i]) == FirstUnit(table, rest)
        && forall m | 0 <= m < i :: CharUnit(table, rest[m]).None?;
      forall m | 0 <= m < i + 1 ensures CharUnit(table, text[m]).None? {
        if m > 0 {
          assert text[m] == rest[m - 1];
        }
      }
      assert text[i + 1] == rest[i];
    }
  }

  /** The character loop finds the first character with a unit, and only
      a nonzero unit: none at all exactly when no character has one. */
  lemma FirstUnitSpec(table: seq<KanjiRow>, text: string)
    ensures FirstUnit(table, text).None? <==> forall i | 0 <= i < |text| :: CharUnit(table, text[i]).None?
    ensures FirstUnit(table, text).Some? ==>
      && FirstUnit(table, text).value != 0
      && exists i | 0 <= i < |text| ::
        && CharUnit(table, text[i]) == FirstUnit(table, text)
        && forall m | 0 <= m < i :: CharUnit(table, text[m]).None?
  {
    FirstUnitNone(table, text);
    if FirstUnit(table, text).Some? {
      FirstUnitFound(table, text);
    }
  }

  /** Step 3 on one question: through its reading when it has one,
      otherwise through the first character of its text whose kanji has a
      unit, and left as it was when none has. Only the unit changes. When
      the reading's subquery finds nothing, the value here is `None`, which
      `questions.unit_id NOT NULL` refuses: `ReadingPathResolves` says when
      that happens, and `Migrate` then rolls everything back. */
  function Repoint(readings: seq<Reading>, table: seq<KanjiRow>, q: Question): (r: Question)
    ensures r.questionId == q.questionId && r.readingId == q.readingId && r.kanjiText == q.kanjiText
    ensures q.readingId.Some? ==> r.unitId == ReadingUnit(readings, table, q.readingId.value)
    ensures q.readingId.None? ==> r.unitId == if FirstUnit(table, q.kanjiText).Some? then FirstUnit(table, q.kanjiText) else q.unitId
  {
    match q.readingId
    case Some(id) => q.(unitId := ReadingUnit(readings, table, id))
    case None => if FirstUnit(table, q.kanjiText).Some? then q.(unitId := FirstUnit(table, q.kanjiText)) else q
  }

  /** The number of questions with a reading: the rows the reading-path
      UPDATE changes. */
  function WithReading(qs: seq<Question>): (n: nat)
    ensures n <= |qs|
    ensures n == 0 <==> forall k | 0 <= k < |qs| :: qs[k].readingId.None?
    ensures n == |qs| <==> forall k | 0 <= k < |qs| :: qs[k].readingId.Some?
  {
    if qs == [] then 0
    else WithReading(qs[..|qs| - 1]) + (if qs[|qs| - 1].readingId.Some? then 1 else 0)
  }

  /** The loop over a question's characters, stopping at the first whose
      kanji has a unit. */
  method MatchUnit(table: seq<KanjiRow>, text: string) returns (unit: Option<int>)
    ensures unit == FirstUnit(table, text)
  {
    unit := None;
    for i := 0 to |text|
      invariant FirstUnit(table, text) == FirstUnit(table, text[i..])
      invariant unit == None
    {
      assert text[i..][0] == text[i] && text[i..][1..] == text[i + 1..];
      var result := CharUnit(table, text[i]);
      if result.Some? {
        unit := result;
        break;
      }
    }
  }

  /** The UPDATE of the reading path can write a unit into every question
      with a reading: `questions.unit_id` is NOT NULL, so one NULL from the
      subquery fails the statement. */
  predicate ReadingPathResolves(readings: seq<Reading>, table: seq<KanjiRow>, qs: seq<Question>) {
    forall k | 0 <= k < |qs| :: qs[k].readingId.Some? ==> ReadingUnit(readings, table, qs[k].readingId.value).Some?
  }

  /** One more question for the reading path: it resolves when the prefix
      did and the new question, if it has a reading, finds a unit. */
  lemma ResolvesStep(readings: seq<Reading>, table: seq<KanjiRow>, qs: seq<Question>, k: nat)
    requires k < |qs|
    ensures ReadingPathResolves(readings, table, qs[..k + 1]) <==>
      && ReadingPathResolves(readings, table, qs[..k])
      && (qs[k].readingId.Some? ==> ReadingUnit(readings, table, qs[k].readingId.value).Some?)
  {
    assert forall m | 0 <= m < k :: qs[..k + 1][m] == qs[..k][m];
    assert qs[..k + 1][k] == qs[k];
  }

  /** Step 3: the UPDATE of every question with a reading, then the loop
      over the questions without one. `resolved` is false when the UPDATE
      meets a NULL, which fails it. */
  method RepointQuestions(readings: seq<Reading>, table: seq<KanjiRow>, qs: seq<Question>)
    returns (questions: seq<Question>, updated: nat, resolved: bool)
    ensures |questions| == |qs|
    ensures forall k | 0 <= k < |qs| :: questions[k] == Repoint(readings, table, qs[k])
    ensures updated == WithReading(qs)
    ensures resolved <==> ReadingPathResolves(readings, table, qs)
  {
    questions, updated, resolved := qs, 0, true;
    for k := 0 to |qs|
      invariant |questions| == |qs|
      invariant forall m | 0 <= m < |qs| ::
        questions[m] == if m < k && qs[m].readingId.Some? then Repoint(readings, table, qs[m]) else qs[m]
      invariant updated == WithReading(qs[..k])
      invariant resolved <==> ReadingPathResolves(readings, table, qs[..k])
    {
      assert qs[..k + 1][..k] == qs[..k];
      ResolvesStep(readings, table, qs, k);
      if questions[k].readingId.Some? {
        var unit := ReadingUnit(readings, table, questions[k].readingId.value);
        if unit.None? {
          resolved := false;
        }
        questions := questions[k := questions[k].(unitId := unit)];
        updated := updated + 1;
      }
    }
    assert qs[..|qs|] == qs;
    for k := 0 to |qs|
      invariant |questions| == |qs|
      invariant forall m | 0 <= m < |qs| ::
        questions[m] == if m < k || qs[m].readingId.Some? then Repoint(readings, table, qs[m]) else qs[m]
    {
      if questions[k].readingId.None? {
        var unit := MatchUnit(table, questions[k].kanjiText);
        if unit.Some? {
          questions := questions[k := questions[k].(unitId := unit)];
        }
      }
    }
  }

  /** Steps 1 to 3 in one transaction: the units rebuilt, the kanji placed
      in them, then the questions pointed at the new units. When the
      reading path meets a NULL the transaction rolls back, and the tables
      are as they were (`current` is the `units` table before the run). */
  method Migrate(table: seq<KanjiRow>, grades: seq<int>, readings: seq<Reading>, qs: seq<Question>, current: seq<Unit>)
    returns (committed: bool, units: seq<Unit>, kanji: seq<KanjiRow>, questions: seq<Question>, updated: nat)
    ensures var s := CreateUnits(table, grades);
      committed <==> ReadingPathResolves(readings, Placed(table, s.assign), qs)
    ensures committed ==> var s := CreateUnits(table, grades);
      && units == s.units && kanji == Placed(table, s.assign)
      && |questions| == |qs|
      && (forall k | 0 <= k < |qs| :: questions[k] == Repoint(readings, kanji, qs[k]))
      && updated == WithReading(qs)
    ensures !committed ==> units == current && kanji == table && questions == qs && updated == 0
  {
    var assign;
    units, assign := MigrateGrades(table, grades);
    kanji := Placed(table, assign);
    questions, updated, committed := RepointQuestions(readings, kanji, qs);
    if !committed {
      units, kanji, questions, updated := current, table, qs, 0;
    }
  }

  // ------------------------------------------------ question properties

  /** Step 2 keeps the table in `kanji_id` order. */
  lemma PlacedSorted(table: seq<KanjiRow>, assign: map<int, int>)
    requires Sorted(table)
    ensures Sorted(Placed(table, assign))
  {
    forall i, j | 0 <= i < j < |table| ensures Placed(table, assign)[i].kanjiId < Placed(table, assign)[j].kanjiId {
      PlacedAt(table, assign, i);
      PlacedAt(table, assign, j);
    }
  }

  /** In a table in `kanji_id` order, the reading's kanji is found at the
      one row with its id. */
  lemma ReadingUnitAt(readings: seq<Reading>, t: seq<KanjiRow>, readingId: int, k: nat)
    requires Sorted(t) && k < |t|
    requires var i := FirstIndex(readings, ReadingKey, readingId);
      i.Some? && readings[i.value].kanjiId == t[k].kanjiId
    ensures ReadingUnit(readings, t, readingId) == t[k].unitId
  {
    var j := FirstIndex(t, KanjiIdKey, t[k].kanjiId);
    assert KanjiIdKey(t[k]) == t[k].kanjiId;
    assert j.Some? && t[j.value].kanjiId == t[k].kanjiId;
  }

  /** A character with a unit has it from a row holding that character. */
  lemma CharUnitRow(t: seq<KanjiRow>, c: char)
    requires CharUnit(t, c).Some?
    ensures exists m | 0 <= m < |t| :: t[m].kanji == [c] && t[m].unitId == CharUnit(t, c)
  {
    var m := FirstIndex(t, KanjiKey, [c]).value;
    assert t[m].kanji == [c] && t[m].unitId == CharUnit(t, c);
  }

  /** After step 2, a kanji of a migrated grade carries a unit that exists
      and belongs to the kanji's own grade. */
  lemma PlacedInOwnGrade(table: seq<KanjiRow>, grades: seq<int>, m: nat)
    requires Sorted(table) && m < |table| && table[m].grade in grades
    ensures var s := CreateUnits(table, grades);
      UnitOfGrade(s.units, Placed(table, s.assign)[m].unitId, table[m].grade)
  {
    KanjiInOwnGrade(table, grades, m);
    PlacedAt(table, CreateUnits(table, grades).assign, m);
  }

  /** In a table in `kanji_id` order, a question whose reading belongs to
      row `k`'s kanji is pointed at row `k`'s unit. */
  lemma ReadingRepoint(readings: seq<Reading>, t: seq<KanjiRow>, q: Question, k: nat)
    requires Sorted(t) && k < |t| && q.readingId.Some?
    requires var i := FirstIndex(readings, ReadingKey, q.readingId.value);
      i.Some? && readings[i.value].kanjiId == t[k].kanjiId
    ensures Repoint(readings, t, q).unitId == t[k].unitId
  {
    ReadingUnitAt(readings, t, q.readingId.value, k);
  }

  /** A question whose reading belongs to a kanji of a migrated grade is
      pointed at that kanji's unit: one of the new units, of the kanji's
      grade. */
  lemma ReadingQuestionPlaced(table: seq<KanjiRow>, grades: seq<int>, readings: seq<Reading>, q: Question, k: nat)
    requires Sorted(table) && k < |table| && table[k].grade in grades
    requires q.readingId.Some?
    requires var i := FirstIndex(readings, ReadingKey, q.readingId.value);
      i.Some? && readings[i.value].kanjiId == table[k].kanjiId
    ensures var s := CreateUnits(table, grades);
      UnitOfGrade(s.units, Repoint(readings, Placed(table, s.assign), q).unitId, table[k].grade)
  {
    var assign := CreateUnits(table, grades).assign;
    PlacedSorted(table, assign);
    PlacedAt(table, assign, k);
    ReadingRepoint(readings, Placed(table, assign), q, k);
    PlacedInOwnGrade(table, grades, k);
  }

  /** When every kanji belongs to a migrated grade, a character that has a
      unit after step 2 has one of the new units, that of its kanji's
      grade. */
  lemma CharUnitPlaced(table: seq<KanjiRow>, grades: seq<int>, c: char)
    requires Sorted(table) && forall m | 0 <= m < |table| :: table[m].grade in grades
    requires CharUnit(Placed(table, CreateUnits(table, grades).assign), c).Some?
    ensures var s := CreateUnits(table, grades);
      exists m | 0 <= m < |table| ::
        table[m].kanji == [c] && UnitOfGrade(s.units, CharUnit(Placed(table, s.assign), c), table[m].grade)
  {
    var s := CreateUnits(table, grades);
    var t := Placed(table, s.assign);
    CharUnitRow(t, c);
    var m :| 0 <= m < |t| && t[m].kanji == [c] && t[m].unitId == CharUnit(t, c);
    PlacedInOwnGrade(table, grades, m);
    PlacedAt(table, s.assign, m);
    assert table[m].kanji == [c];
  }

  /** A question without a reading that finds a unit through its text, when
      every kanji belongs to a migrated grade, finds one of the new units:
      that of a kanji of its text, of that kanji's grade. */
  lemma NullQuestionPlaced(table: seq<KanjiRow>, grades: seq<int>, readings: seq<Reading>, q: Question)
    requires Sorted(table) && forall m | 0 <= m < |table| :: table[m].grade in grades
    requires q.readingId.None? && FirstUnit(Placed(table, CreateUnits(table, grades).assign), q.kanjiText).Some?
    ensures var s := CreateUnits(table, grades);
      exists i, m | 0 <= i < |q.kanjiText| && 0 <= m < |table| ::
        && table[m].kanji == [q.kanjiText[i]]
        && UnitOfGrade(s.units, Repoint(readings, Placed(table, s.assign), q).unitId, table[m].grade)
  {
    var t := Placed(table, CreateUnits(table, grades).assign);
    var text := q.kanjiText;
    FirstUnitSpec(t, text);
    var i :| 0 <= i < |text| && CharUnit(t, text[i]) == FirstUnit(t, text);
    CharUnitPlaced(table, grades, text[i]);
    assert Repoint(readings, t, q).unitId == CharUnit(t, text[i]);
  }

  /** When every question with a reading names an existing reading of a
      kanji in a migrated grade, the reading path finds a unit for each of
      them and the migration commits. */
  lemma ReadingPathResolvesPlaced(table: seq<KanjiRow>, grades: seq<int>, readings: seq<Reading>, qs: seq<Question>)
    requires Sorted(table)
    requires forall q | q in qs && q.readingId.Some? ::
      var i := FirstIndex(readings, ReadingKey, q.readingId.value);
      i.Some? && exists k | 0 <= k < |table| :: table[k].grade in grades && readings[i.value].kanjiId == table[k].kanjiId
    ensures ReadingPathResolves(readings, Placed(table, CreateUnits(table, grades).assign), qs)
  {
    var s := CreateUnits(table, grades);
    forall n | 0 <= n < |qs| && qs[n].readingId.Some?
      ensures ReadingUnit(readings, Placed(table, s.assign), qs[n].readingId.value).Some?
    {
      var q := qs[n];
      var i := FirstIndex(readings, ReadingKey, q.readingId.value);
      var k :| 0 <= k < |table| && table[k].grade in grades && readings[i.value].kanjiId == table[k].kanjiId;
      ReadingQuestionPlaced(table, grades, readings, q, k);
    }
  }
}
