/**
 * The string primitives the scripts lean on: `trim`, `split`/`explode`,
 * JavaScript's `parseInt`, PHP's `(int)` cast and decimal rendering.
 * Strings are sequences of Unicode code points, as `for (const c of s)`,
 * `[...s]` and PHP's `mb_*` functions see them.
 */
module Text {
  import opened Wrappers

  /** The JavaScript and PHP versions of each script share one model; where
      their primitives differ, the dialect says which one is meant. */
  datatype Dialect = Js | Php

  /** The three sets of white space that the scripts strip. */
  datatype Blank =
    | JsWhite          // WhiteSpace and LineTerminator: `trim`, `parseInt`
    | PhpTrimList      // PHP `trim` default list " \t\n\r\0\x0B"
    | PhpNumericWhite  // white space PHP accepts before a leading-numeric string

  /** LineTerminator of ECMAScript: what a regular-expression `.` never matches. */
  predicate IsLineTerminator(c: char) {
    c == '\n' || c == '\r' || c == '\U{2028}' || c == '\U{2029}'
  }

  predicate IsBlank(b: Blank, c: char) {
    match b
    case JsWhite =>
      || c == '\t' || c == '\U{B}' || c == '\U{C}' || c == ' ' || c == '\U{A0}' || c == '\U{FEFF}'
      || c == '\U{1680}' || ('\U{2000}' <= c <= '\U{200A}') || c == '\U{202F}' || c == '\U{205F}'
      || c == '\U{3000}' || IsLineTerminator(c)
    case PhpTrimList =>
      c == ' ' || c == '\t' || c == '\n' || c == '\r' || c == '\0' || c == '\U{B}'
    case PhpNumericWhite =>
      c == ' ' || c == '\t' || c == '\n' || c == '\r' || c == '\U{B}' || c == '\U{C}'
  }

  /** The set `trim` uses in each dialect. */
  function TrimSet(d: Dialect): Blank {
    match d
    case Js => JsWhite
    case Php => PhpTrimList
  }

  predicate AllBlank(b: Blank, s: string) {
    forall i | 0 <= i < |s| :: IsBlank(b, s[i])
  }

  /** Number of leading blanks. */
  function LeadingBlank(b: Blank, s: string): (n: nat)
    ensures n <= |s| && forall k | 0 <= k < n :: IsBlank(b, s[k])
    ensures n < |s| ==> !IsBlank(b, s[n])
  {
    if s != [] && IsBlank(b, s[0]) then 1 + LeadingBlank(b, s[1..]) else 0
  }

  /** Number of trailing blanks. */
  function TrailingBlank(b: Blank, s: string): (n: nat)
    ensures n <= |s| && forall k | |s| - n <= k < |s| :: IsBlank(b, s[k])
    ensures n < |s| ==> !IsBlank(b, s[|s| - n - 1])
  {
    if s != [] && IsBlank(b, s[|s| - 1]) then 1 + TrailingBlank(b, s[..|s| - 1]) else 0
  }

  /** The infix of `s` left after dropping the leading blanks, then the
      trailing blanks of the rest. */
  function Cut(b: Blank, s: string): string {
    var t := s[LeadingBlank(b, s)..];
    t[..|t| - TrailingBlank(b, t)]
  }

  /** What `Cut` leaves starts and ends with a non-blank. */
  lemma CutEnds(b: Blank, s: string)
    ensures var r := Cut(b, s);
      r == [] || (!IsBlank(b, r[0]) && !IsBlank(b, r[|r| - 1]))
  {
    var a := LeadingBlank(b, s);
    var t := s[a..];
    var e := TrailingBlank(b, t);
    var r := t[..|t| - e];
    assert r == Cut(b, s);
    if r != [] {
      assert r[0] == s[a] && r[|r| - 1] == t[|t| - e - 1];
    }
  }

  /** What `Cut` leaves is the infix of `s` after its leading blanks. */
  lemma CutSlice(b: Blank, s: string)
    ensures var r := Cut(b, s);
      var i := LeadingBlank(b, s);
      i + |r| <= |s| && s[i..i + |r|] == r
  {
    var a := LeadingBlank(b, s);
    DropBothEnds(s, a, TrailingBlank(b, s[a..]));
  }

  /** Dropping `a` elements in front, then `e` at the back, leaves an infix. */
  lemma DropBothEnds<T>(s: seq<T>, a: nat, e: nat)
    requires a <= |s| && e <= |s| - a
    ensures var t := s[a..]; var r := t[..|t| - e];
      a + |r| <= |s| && s[a..a + |r|] == r
  {
  }

  /** All that `Cut` drops after what it leaves is blank. */
  lemma CutTail(b: Blank, s: string)
    ensures forall k | LeadingBlank(b, s) + |Cut(b, s)| <= k < |s| :: IsBlank(b, s[k])
  {
    var a := LeadingBlank(b, s);
    var t := s[a..];
    var e := TrailingBlank(b, t);
    assert |Cut(b, s)| == |t| - e;
    forall k | a + |t| - e <= k < |s| ensures IsBlank(b, s[k]) {
      assert s[k] == t[k - a];
    }
  }

  /** What `Cut` leaves is the infix of `s` after its leading blanks, and
      all it dropped on either side is blank. */
  lemma CutInfix(b: Blank, s: string)
    ensures var r := Cut(b, s);
      var i := LeadingBlank(b, s);
      && i + |r| <= |s| && s[i..i + |r|] == r
      && (forall k | 0 <= k < i :: IsBlank(b, s[k]))
      && (forall k | i + |r| <= k < |s| :: IsBlank(b, s[k]))
  {
    CutSlice(b, s);
    CutTail(b, s);
  }

  /** `trim`: the infix of `s` left after dropping blanks at both ends; the
      result starts and ends with a non-blank, and all that was dropped is blank. */
  function Trim(d: Dialect, s: string): (r: string)
    ensures r == [] || (!IsBlank(TrimSet(d), r[0]) && !IsBlank(TrimSet(d), r[|r| - 1]))
    ensures var i := LeadingBlank(TrimSet(d), s);
      && i + |r| <= |s| && s[i..i + |r|] == r
      && (forall k | 0 <= k < i :: IsBlank(TrimSet(d), s[k]))
      && (forall k | i + |r| <= k < |s| :: IsBlank(TrimSet(d), s[k]))
  {
    CutEnds(TrimSet(d), s);
    CutInfix(TrimSet(d), s);
    Cut(TrimSet(d), s)
  }

  /** A string with no blank at either end is its own trim. */
  lemma TrimKeeps(d: Dialect, s: string)
    requires s == [] || (!IsBlank(TrimSet(d), s[0]) && !IsBlank(TrimSet(d), s[|s| - 1]))
    ensures Trim(d, s) == s
  {
    if s != [] {
      assert LeadingBlank(TrimSet(d), s) == 0;
      assert s[0..] == s;
    }
  }

  /** `trim` leaves nothing exactly when every character is blank: a
      non-blank line is one with a non-blank character. */
  lemma TrimEmpty(d: Dialect, s: string)
    ensures Trim(d, s) == [] <==> AllBlank(TrimSet(d), s)
  {
    if AllBlank(TrimSet(d), s) {
      assert LeadingBlank(TrimSet(d), s) == |s|;
    }
  }

  /** A trimmed string is its own trim. */
  lemma TrimIdempotent(d: Dialect, s: string)
    ensures Trim(d, Trim(d, s)) == Trim(d, s)
  {
    TrimKeeps(d, Trim(d, s));
  }

  // ---------------------------------------------------------------- split

  /** Index of the first occurrence of `c` in `s`. */
  function IndexOf(s: string, c: char): (r: Option<nat>)
    ensures r.Some? ==> r.value < |s| && s[r.value] == c && c !in s[..r.value]
    ensures r.None? <==> c !in s
  {
    if s == [] then None
    else if s[0] == c then Some(0)
    else match IndexOf(s[1..], c)
      case None => None
      case Some(k) => assert s[..k + 1] == [s[0]] + s[1..][..k]; Some(k + 1)
  }

  lemma {:induction false} IndexOfPrefix(a: string, c: char, b: string)
    requires c !in a
    ensures IndexOf(a + [c] + b, c) == Some(|a|)
  {
    if a != [] {
      assert (a + [c] + b)[1..] == a[1..] + [c] + b;
      IndexOfPrefix(a[1..], c, b);
    }
  }

  /** The pieces joined back with the separator (`Array.prototype.join`, `implode`). */
  function Join(parts: seq<string>, sep: char): string {
    if parts == [] then []
    else if |parts| == 1 then parts[0]
    else parts[0] + [sep] + Join(parts[1..], sep)
  }

  /** Joining pieces that lack a character other than the separator gives
      text that lacks it too. */
  lemma {:induction false} JoinFree(parts: seq<string>, sep: char, c: char)
    requires c != sep
    requires forall k | 0 <= k < |parts| :: c !in parts[k]
    ensures c !in Join(parts, sep)
  {
    if |parts| > 1 {
      JoinFree(parts[1..], sep, c);
    }
  }

  /** `s.split(sep)` in JavaScript and `explode(sep, s)` in PHP, for a
      one-character separator: pieces free of the separator that join back to `s`. */
  function Split(s: string, sep: char): (parts: seq<string>)
    ensures |parts| >= 1
    ensures forall k | 0 <= k < |parts| :: sep !in parts[k]
    ensures Join(parts, sep) == s
    decreases |s|
  {
    match IndexOf(s, sep)
    case None => [s]
    case Some(i) =>
      var rest := Split(s[i + 1..], sep);
      assert s == s[..i] + [sep] + s[i + 1..];
      [s[..i]] + rest
  }

  /** Splitting undoes joining, when no piece holds the separator. */
  lemma {:induction false} SplitJoin(parts: seq<string>, sep: char)
    requires |parts| >= 1
    requires forall k | 0 <= k < |parts| :: sep !in parts[k]
    ensures Split(Join(parts, sep), sep) == parts
  {
    if |parts| == 1 {
      assert IndexOf(parts[0], sep).None?;
    } else {
      var s := Join(parts, sep);
      IndexOfPrefix(parts[0], sep, Join(parts[1..], sep));
      assert s[|parts[0]| + 1..] == Join(parts[1..], sep);
      assert s[..|parts[0]|] == parts[0];
      SplitJoin(parts[1..], sep);
    }
  }

  // ------------------------------------------------------------- numbers

  predicate IsDigit(c: char) { '0' <= c <= '9' }

  predicate AllDigits(s: string) { forall i | 0 <= i < |s| :: IsDigit(s[i]) }

  /** Length of the longest prefix made of decimal digits. */
  function DigitPrefix(s: string): (n: nat)
    ensures n <= |s| && AllDigits(s[..n])
    ensures n < |s| ==> !IsDigit(s[n])
  {
    if s != [] && IsDigit(s[0]) then 1 + DigitPrefix(s[1..]) else 0
  }

  /** Value of a string of decimal digits, most significant first. */
  function DecimalValue(s: string): nat
    requires AllDigits(s)
  {
    if s == [] then 0 else DecimalValue(s[..|s| - 1]) * 10 + (s[|s| - 1] as int - '0' as int)
  }

  /** Value of an optional sign followed by the longest digit prefix of `t`;
      `None` when no digit follows the sign. */
  function SignedDigits(t: string): Option<int> {
    var neg := t != [] && t[0] == '-';
    var u := if t != [] && (t[0] == '-' || t[0] == '+') then t[1..] else t;
    var n := DigitPrefix(u);
    if n == 0 then None
    else
      var v: int := DecimalValue(u[..n]);
      Some(if neg then -v else v)
  }

  /** `parseInt(s, 10)`: leading white space, a sign, then digits; `None` is NaN. */
  function JsParseInt(s: string): Option<int> {
    SignedDigits(s[LeadingBlank(JsWhite, s)..])
  }

  /** `(int)$s` on a string: its leading integer, or 0 when there is none. */
  function PhpIntCast(s: string): int {
    match SignedDigits(s[LeadingBlank(PhpNumericWhite, s)..])
    case None => 0
    case Some(v) => v
  }

  /** `(int)` of a single digit is its value. */
  lemma PhpIntCastDigit(s: string)
    requires |s| == 1 && IsDigit(s[0])
    ensures PhpIntCast(s) == s[0] as int - '0' as int
  {
    assert LeadingBlank(PhpNumericWhite, s) == 0;
    assert s[0..] == s && s[1..] == [];
    assert DigitPrefix(s) == 1;
    assert s[..1] == s;
    assert DecimalValue(s) == DecimalValue([]) * 10 + (s[0] as int - '0' as int);
  }

  function DigitChar(d: nat): (c: char)
    requires d < 10
    ensures IsDigit(c) && c as int - '0' as int == d
  {
    ('0' as int + d) as char
  }

  /** Decimal rendering of a natural number, as template literals and PHP
      string interpolation produce it: all digits, and their value is `n`. */
  function NatToDecimal(n: nat): (s: string)
    ensures |s| >= 1 && AllDigits(s)
    ensures DecimalValue(s) == n
  {
    if n < 10 then [DigitChar(n)]
    else
      var s := NatToDecimal(n / 10) + [DigitChar(n % 10)];
      assert s[..|s| - 1] == NatToDecimal(n / 10);
      s
  }

  /** `parseInt` reads back what decimal rendering wrote. */
  lemma ParseDecimal(n: nat)
    ensures JsParseInt(NatToDecimal(n)) == Some(n)
    ensures PhpIntCast(NatToDecimal(n)) == n
  {
    var s := NatToDecimal(n);
    assert LeadingBlank(JsWhite, s) == 0;
    assert LeadingBlank(PhpNumericWhite, s) == 0;
    assert s[0..] == s;
    DigitPrefixAll(s);
    assert s[..|s|] == s;
  }

  lemma {:induction false} DigitPrefixAll(s: string)
    requires AllDigits(s)
    ensures DigitPrefix(s) == |s|
  {
    if s != [] {
      DigitPrefixAll(s[1..]);
    }
  }
}
