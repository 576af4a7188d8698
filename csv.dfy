/**
 * CSV field escaping as the extraction script writes it (section 2 of
 * RFC 4180, rules 6 and 7), the RFC's reading of a field as its inverse,
 * and the byte-order-mark handling of the PHP importers.
 */
module Csv {
  import opened Wrappers
  import Text

  newtype byte = x: int | 0 <= x < 256

  /** The UTF-8 byte-order mark EF BB BF. */
  const Bom: seq<byte> := [0xEF, 0xBB, 0xBF]

  /** `str.replace(/"/g, '""')`. */
  function DoubleQuotes(s: string): string {
    if s == [] then [] else (if s[0] == '"' then "\"\"" else [s[0]]) + DoubleQuotes(s[1..])
  }

  /** The condition the script quotes on: a comma, a double quote or a line feed. */
  predicate NeedsQuoting(s: string) {
    ',' in s || '"' in s || '\n' in s
  }

  /** One field as written: wrapped in double quotes with inner quotes doubled
      when it needs quoting, otherwise verbatim. */
  function EscapeField(s: string): (r: string)
    ensures NeedsQuoting(s) ==> |r| >= 2 && r[0] == '"' && r[|r| - 1] == '"'
    ensures !NeedsQuoting(s) ==> r == s
  {
    if NeedsQuoting(s) then "\"" + DoubleQuotes(s) + "\"" else s
  }

  /** Inside an escaped field, `""` stands for one quote; a lone quote is malformed. */
  function UndoubleQuotes(s: string): Option<string> {
    if s == [] then Some([])
    else if s[0] != '"' then
      match UndoubleQuotes(s[1..])
      case None => None
      case Some(t) => Some([s[0]] + t)
    else if |s| >= 2 && s[1] == '"' then
      match UndoubleQuotes(s[2..])
      case None => None
      case Some(t) => Some("\"" + t)
    else None
  }

  /** Reading one field per section 2 of RFC 4180: an escaped field is
      enclosed in quotes with inner quotes doubled; a non-escaped field holds
      no quote, comma, CR or LF. `None` for text the grammar rejects. */
  function UnescapeField(r: string): Option<string> {
    if |r| >= 2 && r[0] == '"' && r[|r| - 1] == '"' then UndoubleQuotes(r[1..|r| - 1])
    else if '"' in r || ',' in r || '\r' in r || '\n' in r then None
    else Some(r)
  }

  lemma {:induction false} UndoubleDouble(s: string)
    ensures UndoubleQuotes(DoubleQuotes(s)) == Some(s)
  {
    if s != [] {
      UndoubleDouble(s[1..]);
      var d := DoubleQuotes(s);
      if s[0] == '"' {
        assert d[2..] == DoubleQuotes(s[1..]);
        assert "\"" + s[1..] == s;
      } else {
        assert d[1..] == DoubleQuotes(s[1..]);
        assert [s[0]] + s[1..] == s;
      }
    }
  }

  /** What the script writes, the RFC reads back, for any field without a
      carriage return (the script writes a bare CR unquoted, which the RFC
      grammar does not allow; see FieldWithCr). */
  lemma EscapeRoundTrip(s: string)
    requires '\r' !in s
    ensures UnescapeField(EscapeField(s)) == Some(s)
  {
    if NeedsQuoting(s) {
      var r := EscapeField(s);
      assert r[1..|r| - 1] == DoubleQuotes(s);
      UndoubleDouble(s);
    }
  }

  /** A field holding a carriage return but no comma, quote or line feed is
      written bare, and the RFC grammar rejects it. */
  lemma FieldWithCr()
    ensures EscapeField("\r") == "\r" && UnescapeField("\r").None?
  {
  }

  /** One output line: the escaped fields joined by commas. */
  function CsvLine(fields: seq<string>): string {
    Text.Join(seq(|fields|, k requires 0 <= k < |fields| => EscapeField(fields[k])), ',')
  }

  /** `fread($handle, 3)` followed by `rewind` unless the three bytes are the
      byte-order mark: the mark is dropped when present and only then. */
  function SkipBom(content: seq<byte>): (r: seq<byte>)
    ensures content == Bom + r || (r == content && (|content| < 3 || content[..3] != Bom))
  {
    if |content| >= 3 && content[..3] == Bom then content[3..] else content
  }

  lemma SkipBomRemovesMark(rest: seq<byte>)
    ensures SkipBom(Bom + rest) == rest
  {
    assert (Bom + rest)[..3] == Bom;
    assert (Bom + rest)[3..] == rest;
  }

  /** The rows after the first, which `fgetcsv` consumes as the header. */
  function DataRows<T>(rows: seq<T>): (r: seq<T>)
    ensures rows == [] ==> r == []
    ensures rows != [] ==> rows == rows[..1] + r
  {
    if rows == [] then [] else rows[1..]
  }
}
