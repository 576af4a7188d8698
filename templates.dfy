/**
 * The static sentence-template table of the question generator (`TEMPLATES`
 * in generate_questions.js) and its round-robin selection.
 */
module Templates {

  /** The three template classes: on-reading, kun-reading with okurigana
      (verb), kun-reading without (noun). */
  datatype Kind = Noun | Verb | Onyomi

  /** The text before (`pre`) and after (`post`) the blank. */
  datatype Template = Template(pre: string, post: string)

  function NounTemplates(grade: int): seq<Template>
    requires 1 <= grade <= 6
  {
    match grade
    case 1 => [
      Template("", "がみえる。"),
      Template("", "をみた。"),
      Template("", "がある。"),
      Template("きょうは", "にいく。"),
      Template("あの", "はおおきい。")]
    case 2 => [
      Template("", "が見える。"),
      Template("大きな", "がある。"),
      Template("今日は", "に行く。"),
      Template("あの", "は大きい。"),
      Template("", "の中に入る。")]
    case 3 => [
      Template("遠くに", "が見えた。"),
      Template("大きな", "の上に立つ。"),
      Template("今日は友だちと", "に行った。"),
      Template("あの", "はとても高い。"),
      Template("", "の中で遊んだ。")]
    case 4 => [
      Template("遠くの", "がかすんで見える。"),
      Template("大きな", "の前で写真をとった。"),
      Template("今日は家族と", "に出かけた。"),
      Template("あの", "は昔から有名だ。"),
      Template("", "の近くに住んでいる。")]
    case 5 => [
      Template("遠くの", "がかすんで見える。"),
      Template("立派な", "の前に立った。"),
      Template("今日は家族と", "をおとずれた。"),
      Template("あの", "は古くから有名だ。"),
      Template("", "のまわりは自然がゆたかだ。")]
    case 6 => [
      Template("遠くの", "がかすんで見える。"),
      Template("れきしある", "の前に立った。"),
      Template("今日は家族で", "をおとずれた。"),
      Template("あの", "は古くから有名である。"),
      Template("", "のまわりは自然がゆたかだ。")]
  }

  function VerbTemplates(grade: int): seq<Template>
    requires 1 <= grade <= 6
  {
    match grade
    case 1 => [
      Template("", "。"),
      Template("きょう", "。"),
      Template("いま", "。")]
    case 2 => [
      Template("今日", "。"),
      Template("あした", "。"),
      Template("ゆっくり", "。")]
    case 3 => [
      Template("今日は早く", "ことにした。"),
      Template("明日も", "つもりだ。"),
      Template("みんなで", "ことになった。")]
    case 4 => [
      Template("今日は早めに", "ことにした。"),
      Template("明日も同じように", "よていだ。"),
      Template("みんなで力を合わせて", "ことになった。")]
    case 5 => [
      Template("今日はよていより早く", "ことにした。"),
      Template("明日も同じように", "よていである。"),
      Template("ぜんいんできょうりょくして", "ことが決まった。")]
    case 6 => [
      Template("本日はよていより早く", "ことに決定した。"),
      Template("明日も同じように", "よていである。"),
      Template("ぜんいんできょうりょくして", "ことが決まった。")]
  }

  function OnyomiTemplates(grade: int): seq<Template>
    requires 1 <= grade <= 6
  {
    match grade
    case 1 => [
      Template("", "のじかんだ。"),
      Template("", "がある。"),
      Template("", "をならう。")]
    case 2 => [
      Template("", "のじかんだ。"),
      Template("", "がある。"),
      Template("", "をまなぶ。")]
    case 3 => [
      Template("学校で", "を習った。"),
      Template("今日の", "は楽しかった。"),
      Template("", "について話し合う。")]
    case 4 => [
      Template("学校で", "を学んだ。"),
      Template("今日の", "の時間は楽しかった。"),
      Template("", "について話し合いをする。")]
    case 5 => [
      Template("学校で", "について学んだ。"),
      Template("今日の", "のじゅぎょうはおもしろかった。"),
      Template("", "についてぎろんする。")]
    case 6 => [
      Template("学校で", "について学んだ。"),
      Template("今日の", "のじゅぎょうはおもしろかった。"),
      Template("", "についてぎろんを行う。")]
  }

  /** `TEMPLATES`: for each class, the template lists of grades 1..6 in order. */
  datatype Table = Table(noun: seq<seq<Template>>, verb: seq<seq<Template>>, onyomi: seq<seq<Template>>)

  /** Every class has a non-empty list for every grade 1..6. */
  predicate WellFormed(table: Table) {
    && |table.noun| == 6 && |table.verb| == 6 && |table.onyomi| == 6
    && forall g | 0 <= g < 6 :: |table.noun[g]| > 0 && |table.verb[g]| > 0 && |table.onyomi[g]| > 0
  }

  /** The table the generator uses. */
  function Standard(): Table {
    Table(
      [NounTemplates(1), NounTemplates(2), NounTemplates(3), NounTemplates(4), NounTemplates(5), NounTemplates(6)],
      [VerbTemplates(1), VerbTemplates(2), VerbTemplates(3), VerbTemplates(4), VerbTemplates(5), VerbTemplates(6)],
      [OnyomiTemplates(1), OnyomiTemplates(2), OnyomiTemplates(3), OnyomiTemplates(4), OnyomiTemplates(5), OnyomiTemplates(6)])
  }

  /** The lookup `TEMPLATES[kind][grade]` never fails: five noun frames and
      three frames of each other class at every grade. */
  lemma StandardWellFormed()
    ensures WellFormed(Standard())
    ensures forall g | 0 <= g < 6 ::
      |Standard().noun[g]| == 5 && |Standard().verb[g]| == 3 && |Standard().onyomi[g]| == 3
  {
  }

  /** `TEMPLATES[kind][grade]`: the list for a class and a grade. */
  function TemplatesFor(table: Table, kind: Kind, grade: int): (ts: seq<Template>)
    requires WellFormed(table) && 1 <= grade <= 6
    ensures |ts| > 0
  {
    match kind
    case Noun => table.noun[grade - 1]
    case Verb => table.verb[grade - 1]
    case Onyomi => table.onyomi[grade - 1]
  }

  /** The remainder of `index` divided by `n`, by repeated subtraction. */
  function Wrap(index: nat, n: nat): (k: nat)
    requires n > 0
    ensures k < n
  {
    if index < n then index else Wrap(index - n, n)
  }

  lemma {:induction false} MulAtLeast(x: int, n: int)
    requires x >= 1 && n > 0
    ensures x * n >= n
  {
    if x > 1 {
      MulAtLeast(x - 1, n);
      assert x * n == (x - 1) * n + n;
    }
  }

  /** The remainder is determined by any decomposition `a == q * n + r`. */
  lemma ModUnique(a: int, n: int, q: int, r: int)
    requires n > 0 && 0 <= r < n && a == q * n + r
    ensures a % n == r
  {
    var q', r' := a / n, a % n;
    assert a == q' * n + r';
    if q > q' {
      MulAtLeast(q - q', n);
    } else if q < q' {
      MulAtLeast(q' - q, n);
    }
  }

  /** `Wrap` is the `%` of the source. */
  lemma {:induction false} WrapIsMod(index: nat, n: nat)
    requires n > 0
    ensures Wrap(index, n) == index % n
  {
    if index >= n {
      WrapIsMod(index - n, n);
      var q := (index - n) / n;
      assert index - n == q * n + (index - n) % n;
      assert index == (q + 1) * n + (index - n) % n;
      ModUnique(index, n, q + 1, (index - n) % n);
    } else {
      ModUnique(index, n, 0, index);
    }
  }

  /** `templates[index % templates.length]`: round-robin selection. */
  function Pick(ts: seq<Template>, index: nat): Template
    requires |ts| > 0
  {
    ts[Wrap(index, |ts|)]
  }

  /** Selection is the `%` of the source, starts at the first entry and
      repeats with period `|ts|`. */
  lemma PickRoundRobin(ts: seq<Template>, index: nat)
    requires |ts| > 0
    ensures Pick(ts, index) in ts
    ensures Pick(ts, index) == ts[index % |ts|]
    ensures index < |ts| ==> Pick(ts, index) == ts[index]
    ensures Pick(ts, index + |ts|) == Pick(ts, index)
  {
    WrapIsMod(index, |ts|);
  }
}
