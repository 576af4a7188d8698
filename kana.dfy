/**
 * Character classes of the pipeline: the hiragana check `^[ぁ-んー]+$`
 * shared by the extraction and import scripts, the katakana-to-hiragana shift
 * applied to on-readings, and the CJK ideograph range that question text
 * conversion rewrites.
 */
module Kana {

  /** One character of `[ぁ-んー]`: U+3041 to U+3093, or the long-vowel mark U+30FC. */
  predicate IsHiraganaChar(c: char) {
    ('\U{3041}' <= c <= '\U{3093}') || c == '\U{30FC}'
  }

  /** `isHiragana(s)`: `^[ぁ-んー]+$` matches, that is `s` is non-empty and
      every character is hiragana or the long-vowel mark. */
  predicate IsHiragana(s: string) {
    |s| > 0 && forall i | 0 <= i < |s| :: IsHiraganaChar(s[i])
  }

  /** PHP's `preg_match('/^[ぁ-んー]+$/u', s)`: without the `D` modifier,
      `$` also matches just before a final line feed, so hiragana followed
      by one `\n` passes too. */
  predicate PcreHiragana(s: string) {
    IsHiragana(s) || (|s| >= 2 && s[|s| - 1] == '\n' && IsHiragana(s[..|s| - 1]))
  }

  /** The range `[ァ-ヶ]` that `katakanaToHiragana` shifts. */
  predicate IsShiftedKatakana(c: char) {
    '\U{30A1}' <= c <= '\U{30F6}'
  }

  /** `[一-龯]`: the characters question text conversion inspects. */
  predicate IsIdeograph(c: char) {
    '\U{4E00}' <= c <= '\U{9FAF}'
  }

  function ShiftChar(c: char): char {
    if IsShiftedKatakana(c) then (c as int - 0x60) as char else c
  }

  /** `katakanaToHiragana`: every character of U+30A1..U+30F6 moves down by
      0x60, every other character is kept, and the length is unchanged. */
  function KatakanaToHiragana(s: string): (r: string)
    ensures |r| == |s|
    ensures forall i | 0 <= i < |s| ::
      if IsShiftedKatakana(s[i]) then r[i] as int == s[i] as int - 0x60 else r[i] == s[i]
  {
    if s == [] then [] else [ShiftChar(s[0])] + KatakanaToHiragana(s[1..])
  }

  /** The shift lands outside its own source range, so a second pass changes nothing. */
  lemma KatakanaToHiraganaIdempotent(s: string)
    ensures KatakanaToHiragana(KatakanaToHiragana(s)) == KatakanaToHiragana(s)
  {
    var r := KatakanaToHiragana(s);
    assert forall i | 0 <= i < |r| :: !IsShiftedKatakana(r[i]);
  }

  /** Which on-readings survive the shift and the hiragana check: exactly the
      non-empty ones written in hiragana, the long-vowel mark and katakana
      ァ..ン (U+30A1..U+30F3). ヴ, ヵ and ヶ shift to ゔ, ゕ and ゖ, which
      lie above ん, so a reading containing them is rejected. */
  lemma OnReadingAccepted(v: string)
    ensures IsHiragana(KatakanaToHiragana(v)) <==>
      |v| > 0 && forall i | 0 <= i < |v| ::
        IsHiraganaChar(v[i]) || ('\U{30A1}' <= v[i] <= '\U{30F3}')
  {
    var r := KatakanaToHiragana(v);
    if IsHiragana(r) {
      forall i | 0 <= i < |v|
        ensures IsHiraganaChar(v[i]) || ('\U{30A1}' <= v[i] <= '\U{30F3}')
      {
        assert IsHiraganaChar(r[i]);
      }
    }
  }

  /** Hiragana text holds no ideograph, so text conversion never touches it. */
  lemma HiraganaHasNoIdeograph(s: string)
    requires IsHiragana(s)
    ensures forall i | 0 <= i < |s| :: !IsIdeograph(s[i])
  {
  }
}
