/** Decoded spreadsheet cells and api.php's `normalizeString` (api.php:42-46). */
module Cells {
  import opened Wrappers
  import opened Text

  /** One cell as the spreadsheet decoder hands it over: an empty cell
      (`null`), a string, or a number together with its PHP `(string)` form. */
  datatype Cell = Null | Str(s: string) | Number(repr: string)

  type Row = seq<Cell>
  type Grid = seq<Row>

  /** PHP `is_numeric` on a string, PHP 8 rules for decimal notation:
      optional whitespace, an optional sign, digits with an optional
      fraction (at least one digit in all), an optional exponent, optional
      whitespace. */
  predicate IsNumeric(s: string)
    ensures IsNumeric(s) ==> exists k :: 0 <= k < |s| && IsDigit(s[k])
    ensures |s| > 0 && (forall k :: 0 <= k < |s| ==> IsDigit(s[k])) ==> IsNumeric(s)
  {
    var a := Span(s, 0, IsRegexSpace);
    var b := if a < |s| && (s[a] == '+' || s[a] == '-') then a + 1 else a;
    var intDigits := Span(s, b, IsDigit);
    var c := b + intDigits;
    var hasDot := c < |s| && s[c] == '.';
    var fracDigits := if hasDot then Span(s, c + 1, IsDigit) else 0;
    var e := if hasDot then c + 1 + fracDigits else c;
    assert intDigits > 0 ==> IsDigit(s[b]);
    assert fracDigits > 0 ==> IsDigit(s[c + 1]);
    (intDigits > 0 || fracDigits > 0) && AllSpace(s, ExponentEnd(s, e), |s|)
  }

  /** Where an optional exponent `[eE][+-]?\d+` starting at `e` ends; `e`
      itself when there is none. */
  function ExponentEnd(s: string, e: nat): (r: nat)
    requires e <= |s|
    ensures e <= r <= |s|
  {
    if e < |s| && (s[e] == 'e' || s[e] == 'E') then
      var f := if e + 1 < |s| && (s[e + 1] == '+' || s[e + 1] == '-') then e + 2 else e + 1;
      var d := Span(s, f, IsDigit);
      if d > 0 then f + d else e
    else e
  }

  /** `normalizeString`: null becomes "", a numeric value keeps its string
      form untrimmed, anything else is trimmed. */
  function NormalizeString(c: Cell): (r: string)
    ensures c.Null? ==> r == ""
    ensures c.Number? ==> r == c.repr
    ensures c.Str? ==> exists a :: TrimmedAt(c.s, r, a)
    ensures c.Str? && IsNumeric(c.s) ==> r == c.s
    ensures c.Str? && !IsNumeric(c.s) ==> r == [] || (!IsTrimChar(r[0]) && !IsTrimChar(r[|r| - 1]))
  {
    match c
    case Null => ""
    case Number(repr) => repr
    case Str(s) =>
      if IsNumeric(s) then
        assert TrimmedAt(s, s, 0);
        s
      else Trim(s)
  }

  /** The text of cell `col` of `row`; "" when the column is unresolved or
      the row is too short (PHP `isset` is false for both, and for null). */
  function Field(row: Row, col: Option<nat>): (r: string)
    ensures col.None? || col.value >= |row| ==> r == ""
    ensures col.Some? && col.value < |row| ==> r == NormalizeString(row[col.value])
  {
    if col.Some? && col.value < |row| then NormalizeString(row[col.value]) else ""
  }
}
