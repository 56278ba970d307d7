/** Characters and strings as the PHP and JavaScript code sees them.
    Multibyte case folding (`mb_strtolower`, `mb_stripos`, the regex `/i`
    flag, JavaScript `toLowerCase`) is modelled on a fixed alphabet: ASCII
    and the basic Cyrillic block. */
module Text {

  /** PCRE and JavaScript `\d`: the ASCII digits. */
  predicate IsDigit(c: char) { '0' <= c <= '9' }

  predicate IsAsciiUpper(c: char) { 'A' <= c <= 'Z' }

  predicate IsAsciiLetter(c: char) { 'A' <= c <= 'Z' || 'a' <= c <= 'z' }

  /** The regex class `[А-Яа-я]`: U+0410..U+044F, which leaves out Ё and ё. */
  predicate IsCyrillicLetter(c: char) { 'А' <= c <= 'я' }

  predicate IsCyrillicUpper(c: char) { 'А' <= c <= 'Я' }

  /** PCRE `\s`: space, tab, line feed, vertical tab, form feed, carriage return. */
  predicate IsRegexSpace(c: char) {
    c == ' ' || c == '\t' || c == '\n' || c == '\U{000B}' || c == '\U{000C}' || c == '\r'
  }

  /** The characters PHP `trim` strips by default: " \t\n\r\0\x0B". */
  predicate IsTrimChar(c: char) {
    c == ' ' || c == '\t' || c == '\n' || c == '\r' || c == '\0' || c == '\U{000B}'
  }

  /** Lower-case folding of one character: A-Z, А-Я and Ѐ-Џ (U+0400..U+040F,
      which holds Ё) are mapped to their small forms; all else is unchanged. */
  function LowerChar(c: char): (r: char)
    ensures IsDigit(c) || IsRegexSpace(c) || IsTrimChar(c) ==> r == c
    ensures IsCyrillicLetter(c) ==> IsCyrillicLetter(r)
  {
    if IsAsciiUpper(c) then (c as int + 32) as char
    else if IsCyrillicUpper(c) then (c as int + 32) as char
    else if '\U{0400}' <= c <= '\U{040F}' then (c as int + 80) as char
    else c
  }

  function Lower(s: string): (r: string)
    ensures |r| == |s|
    ensures forall k :: 0 <= k < |s| ==> r[k] == LowerChar(s[k])
  {
    seq(|s|, k requires 0 <= k < |s| => LowerChar(s[k]))
  }

  lemma LowerCharIdempotent(c: char)
    ensures LowerChar(LowerChar(c)) == LowerChar(c)
  {
  }

  /** Folding twice is folding once, so `mb_stripos` on an already lowered
      string agrees with `mb_stripos` on the original. */
  lemma LowerIdempotent(s: string)
    ensures Lower(Lower(s)) == Lower(s)
  {
    forall k | 0 <= k < |s| ensures Lower(Lower(s))[k] == Lower(s)[k] {
      LowerCharIdempotent(s[k]);
    }
  }

  lemma LowerConcat(a: string, b: string)
    ensures Lower(a + b) == Lower(a) + Lower(b)
  {
  }

  predicate OccursAt(s: string, sub: string, i: nat) {
    i + |sub| <= |s| && s[i..i + |sub|] == sub
  }

  predicate StartsWith(s: string, prefix: string) { OccursAt(s, prefix, 0) }

  /** PHP `mb_strpos($s, $sub) !== false`. */
  predicate Contains(s: string, sub: string) {
    exists i :: 0 <= i <= |s| - |sub| && OccursAt(s, sub, i)
  }

  /** PHP `mb_stripos($s, $sub) !== false`: a case-insensitive search. */
  predicate ContainsCI(s: string, sub: string) {
    Contains(Lower(s), Lower(sub))
  }

  lemma ContainsAt(s: string, sub: string, i: nat)
    requires OccursAt(s, sub, i)
    ensures Contains(s, sub)
  {
  }

  /** Every character in `s[a..b]` is a regex space. */
  predicate AllSpace(s: string, a: nat, b: nat)
    requires a <= b <= |s|
  {
    forall k :: a <= k < b ==> IsRegexSpace(s[k])
  }

  /** The length of the longest run of characters satisfying `p` that starts
      at `i`: the greedy `p*` of a regular expression. */
  function Span(s: string, i: nat, p: char -> bool): (n: nat)
    requires i <= |s|
    ensures i + n <= |s|
    ensures forall k :: i <= k < i + n ==> p(s[k])
    ensures i + n == |s| || !p(s[i + n])
    decreases |s| - i
  {
    if i < |s| && p(s[i]) then 1 + Span(s, i + 1, p) else 0
  }

  /** The length of the longest run of characters satisfying `p` that ends
      just before `j`. */
  function SpanBack(s: string, j: nat, p: char -> bool): (n: nat)
    requires j <= |s|
    ensures n <= j
    ensures forall k :: j - n <= k < j ==> p(s[k])
    ensures n == j || !p(s[j - n - 1])
    decreases j
  {
    if 0 < j && p(s[j - 1]) then 1 + SpanBack(s, j - 1, p) else 0
  }

  /** Any run of `p` that starts at `i` lies within the greedy run. */
  lemma SpanMaximal(s: string, i: nat, p: char -> bool, j: nat)
    requires i <= j <= |s|
    requires forall k :: i <= k < j ==> p(s[k])
    ensures j <= i + Span(s, i, p)
  {
  }

  /** Every character in `s[a..b]` is one PHP `trim` strips. */
  predicate AllTrim(s: string, a: nat, b: nat)
    requires a <= b <= |s|
  {
    forall k :: a <= k < b ==> IsTrimChar(s[k])
  }

  /** `r` is `s` with the trim characters `s[..a]` and `s[a + |r|..]` cut off. */
  predicate TrimmedAt(s: string, r: string, a: nat) {
    a + |r| <= |s| && s[a..a + |r|] == r && AllTrim(s, 0, a) && AllTrim(s, a + |r|, |s|)
  }

  /** PHP `trim`: `s` without its leading and trailing trim characters. */
  function Trim(s: string): (r: string)
    ensures |r| <= |s|
    ensures r == [] || (!IsTrimChar(r[0]) && !IsTrimChar(r[|r| - 1]))
    ensures exists a :: TrimmedAt(s, r, a)
  {
    var a := Span(s, 0, IsTrimChar);
    var rest := s[a..];
    var b := |rest| - SpanBack(rest, |rest|, IsTrimChar);
    assert forall k :: b <= k < |rest| ==> IsTrimChar(rest[k]);
    assert TrimmedAt(s, rest[..b], a);
    rest[..b]
  }
}
