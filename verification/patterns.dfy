/** The regular expressions `parseExcelToRooms` applies to the object text
    (api.php:136, 144, 154, 164-168).

    Each is modelled as "the leftmost start position from which a greedy scan
    succeeds". That is exact for these patterns: `\s*`, `\d+` and
    `[А-Яа-я]?` are each followed by something their own characters cannot
    match, so giving back a character never lets a failed match succeed. */
module Patterns {
  import opened Wrappers
  import opened Seqs
  import opened Text

  const NumberSign: char := '№'
  const BuildingWord: string := "строение"
  const BasementStem: string := "подв"
  const FloorWord: string := "этаж"
  /** The building a room belongs to when its text names none (api.php:143). */
  const DefaultBuilding: string := "19"

  predicate AllDigits(s: string) {
    forall k :: 0 <= k < |s| ==> IsDigit(s[k])
  }

  /** The shape of a captured room number: digits, then at most one
      letter of `[А-Яа-я]`. */
  predicate IsRoomNumber(n: string) {
    && |n| > 0
    && IsDigit(n[0])
    && AllDigits(n[..|n| - 1])
    && (IsDigit(n[|n| - 1]) || IsCyrillicLetter(n[|n| - 1]))
  }

  /** A building id: digits, or digits, a hyphen and digits. */
  predicate IsBuildingId(b: string) {
    || (|b| > 0 && AllDigits(b))
    || exists k :: 0 < k < |b| - 1 && b[k] == '-' && AllDigits(b[..k]) && AllDigits(b[k + 1..])
  }

  // ---------------------------------------------------------------------
  // Room number: /№\s*(\d+[А-Яа-я]?)/u   (api.php:136)

  /** Where the digits begin in a match of `№\s*` starting at `p`. */
  function DigitsStart(s: string, p: nat): (j: nat)
    requires p < |s|
    ensures p < j <= |s| && AllSpace(s, p + 1, j)
    ensures j == |s| || !IsRegexSpace(s[j])
  {
    p + 1 + Span(s, p + 1, IsRegexSpace)
  }

  /** `№\s*\d` matches at `p`. */
  predicate NumberMatchAt(s: string, p: nat) {
    p < |s| && s[p] == NumberSign && DigitsStart(s, p) < |s| && IsDigit(s[DigitsStart(s, p)])
  }

  /** The regex read directly: `№`, then any run of spaces, then a digit. */
  lemma NumberMatchAtIff(s: string, p: nat)
    requires p < |s|
    ensures NumberMatchAt(s, p) <==>
              s[p] == NumberSign && exists j :: p < j < |s| && AllSpace(s, p + 1, j) && IsDigit(s[j])
  {
    if s[p] == NumberSign && exists j :: p < j < |s| && AllSpace(s, p + 1, j) && IsDigit(s[j]) {
      var j :| p < j < |s| && AllSpace(s, p + 1, j) && IsDigit(s[j]);
      SpanMaximal(s, p + 1, IsRegexSpace, j);
      assert !IsRegexSpace(s[j]);
      assert DigitsStart(s, p) == j;
    }
  }

  /** The group `(\d+[А-Яа-я]?)` of a match at `p`: the whole digit run
      and the letter right after it, if there is one. */
  function NumberCapture(s: string, p: nat): (n: string)
    requires NumberMatchAt(s, p)
    ensures IsRoomNumber(n)
    ensures OccursAt(s, n, DigitsStart(s, p))
    ensures var e := DigitsStart(s, p) + |n|;
            e == |s| || IsCyrillicLetter(n[|n| - 1]) || !(IsDigit(s[e]) || IsCyrillicLetter(s[e]))
  {
    var j := DigitsStart(s, p);
    var e := j + Span(s, j, IsDigit);
    var digits := s[j..e];
    assert |digits| > 0 && AllDigits(digits) by {
      assert forall k :: 0 <= k < |digits| ==> digits[k] == s[j + k];
    }
    assert AllDigits(digits[..|digits| - 1]);
    if e < |s| && IsCyrillicLetter(s[e]) then
      var n := s[j..e + 1];
      assert n[..|n| - 1] == digits;
      n
    else digits
  }

  /** The room number of an object text: the capture of the leftmost match,
      or None when `№\s*\d` occurs nowhere. */
  function RoomNumber(s: string): (r: Option<string>)
    ensures r.Some? <==> exists p :: 0 <= p < |s| && NumberMatchAt(s, p)
    ensures r.Some? ==> IsRoomNumber(r.value) && Contains(s, r.value)
    ensures r.Some? ==> exists p :: && 0 <= p < |s| && NumberMatchAt(s, p)
                                    && (forall q :: 0 <= q < p ==> !NumberMatchAt(s, q))
                                    && r.value == NumberCapture(s, p)
  {
    var matchAt := (p: nat) => NumberMatchAt(s, p);
    assert forall p: nat :: matchAt(p) == NumberMatchAt(s, p);
    match FirstPosition(0, |s|, matchAt)
    case None => None
    case Some(p) =>
      var n := NumberCapture(s, p);
      ContainsAt(s, n, DigitsStart(s, p));
      Some(n)
  }

  // ---------------------------------------------------------------------
  // Building: /строение\s+(\d+)(?:\/(\d+))?/iu   (api.php:144-150)

  /** Where the digits begin after `строение\s+` at `p` (no spaces: no match). */
  function BuildingDigitsStart(s: string, p: nat): (j: nat)
    requires p + |BuildingWord| <= |s|
    ensures p + |BuildingWord| <= j <= |s|
  {
    p + |BuildingWord| + Span(s, p + |BuildingWord|, IsRegexSpace)
  }

  /** `строение\s+\d` matches at `p`, the word compared case-insensitively. */
  predicate BuildingMatchAt(s: string, p: nat) {
    && OccursAt(Lower(s), BuildingWord, p)
    && var j := BuildingDigitsStart(s, p);
       p + |BuildingWord| < j < |s| && IsDigit(s[j])
  }

  /** The two groups of a building match: `(\d+)` and the optional `(\d+)`
      after a slash. */
  datatype BuildingCapture = BuildingCapture(main: string, sub: Option<string>)

  /** Where the digit run starting at `j` ends. */
  function DigitsEnd(s: string, j: nat): (e: nat)
    requires j <= |s|
    ensures j <= e <= |s|
    ensures j < |s| && IsDigit(s[j]) ==> j < e
  {
    j + Span(s, j, IsDigit)
  }

  /** `\/\d` at `e`: the optional second group is present. */
  predicate SlashDigitAt(s: string, e: nat) {
    e + 1 < |s| && s[e] == '/' && IsDigit(s[e + 1])
  }

  /** `d` occurs at `i` and no digit follows it: a greedy `\d+` stopped at
      its end. */
  predicate IsDigitRunAt(s: string, d: string, i: nat) {
    OccursAt(s, d, i) && (i + |d| == |s| || !IsDigit(s[i + |d|]))
  }

  /** The longest run of digits starting at `i` (a greedy `\d+`, or `\d*`
      when `s[i]` is not a digit). */
  function DigitRun(s: string, i: nat): (d: string)
    requires i <= |s|
    ensures d == s[i..i + Span(s, i, IsDigit)]
    ensures IsDigitRunAt(s, d, i) && AllDigits(d)
    ensures i < |s| && IsDigit(s[i]) ==> |d| > 0
  {
    var d := s[i..i + Span(s, i, IsDigit)];
    assert forall k :: 0 <= k < |d| ==> d[k] == s[i + k];
    d
  }

  /** The groups of the building match at `p`: the digit run after the
      spaces, and the digit run after a following "/" when a digit comes
      right after it. */
  function BuildingCaptureAt(s: string, p: nat): (c: BuildingCapture)
    requires BuildingMatchAt(s, p)
    ensures var j := BuildingDigitsStart(s, p);
            var e := DigitsEnd(s, j);
            && |c.main| > 0 && AllDigits(c.main)
            && c.main == s[j..e]
            && (c.sub.Some? <==> SlashDigitAt(s, e))
            && (c.sub.Some? ==> |c.sub.value| > 0 && AllDigits(c.sub.value) && IsDigitRunAt(s, c.sub.value, e + 1))
  {
    CaptureFrom(s, BuildingDigitsStart(s, p))
  }

  /** The groups of a building match whose first digit is at `j`. */
  function CaptureFrom(s: string, j: nat): (c: BuildingCapture)
    requires j < |s| && IsDigit(s[j])
    ensures |c.main| > 0 && AllDigits(c.main)
    ensures c.main == s[j..DigitsEnd(s, j)]
    ensures c.sub.Some? <==> SlashDigitAt(s, DigitsEnd(s, j))
    ensures c.sub.Some? ==> |c.sub.value| > 0 && AllDigits(c.sub.value) && IsDigitRunAt(s, c.sub.value, DigitsEnd(s, j) + 1)
  {
    var main := DigitRun(s, j);
    var e := j + |main|;
    if SlashDigitAt(s, e) then BuildingCapture(main, Some(DigitRun(s, e + 1)))
    else BuildingCapture(main, None)
  }

  /** The start of the leftmost building match, if any. */
  function BuildingMatch(s: string): (r: Option<nat>)
    ensures r.None? <==> forall p :: 0 <= p < |s| ==> !BuildingMatchAt(s, p)
    ensures r.Some? ==> r.value < |s| && BuildingMatchAt(s, r.value)
    ensures r.Some? ==> forall q :: 0 <= q < r.value ==> !BuildingMatchAt(s, q)
  {
    var matchAt := (p: nat) => BuildingMatchAt(s, p);
    assert forall p: nat :: matchAt(p) == BuildingMatchAt(s, p);
    FirstPosition(0, |s|, matchAt)
  }

  /** PHP `empty` on the second group: a missing group, "" and "0" all
      count as absent (api.php:145). */
  function BuildingFromCapture(c: BuildingCapture): (b: string)
    requires |c.main| > 0 && AllDigits(c.main)
    requires c.sub.Some? ==> |c.sub.value| > 0 && AllDigits(c.sub.value)
    ensures IsBuildingId(b)
    ensures StartsWith(b, c.main)
    ensures b == c.main <==> c.sub.None? || c.sub.value == "0"
    ensures b != c.main ==> b == c.main + "-" + c.sub.value
  {
    if c.sub.Some? && c.sub.value != "0" then
      var b := c.main + "-" + c.sub.value;
      assert b[..|c.main|] == c.main && b[|c.main| + 1..] == c.sub.value;
      assert |b| > |c.main|;
      b
    else
      assert c.main[..|c.main|] == c.main;
      c.main
  }

  /** The building of an object text: the default "19" when `строение\s+\d`
      occurs nowhere; otherwise built from the leftmost match's groups. */
  function Building(s: string): (b: string)
    ensures IsBuildingId(b)
    ensures BuildingMatch(s).None? ==> b == DefaultBuilding
    ensures BuildingMatch(s).Some? ==>
              var c := BuildingCaptureAt(s, BuildingMatch(s).value);
              StartsWith(b, c.main) && (b == c.main <==> c.sub.None? || c.sub.value == "0")
              && (b != c.main ==> b == c.main + "-" + c.sub.value)
  {
    match BuildingMatch(s)
    case None =>
      assert AllDigits(DefaultBuilding);
      DefaultBuilding
    case Some(p) => BuildingFromCapture(BuildingCaptureAt(s, p))
  }

  /** The building of a text whose leftmost building match is at `p`. */
  lemma BuildingFromMatch(s: string, p: nat)
    ensures BuildingMatch(s) == Some(p) ==> Building(s) == BuildingFromCapture(BuildingCaptureAt(s, p))
  {
  }

  // ---------------------------------------------------------------------
  // Basement room: /№\s*\d+[А-Яа-я]?\s+подв/ui   (api.php:154)

  /** The room-number match at `p` is followed by spaces and "подв". */
  predicate BasementMarkAt(s: string, p: nat) {
    && NumberMatchAt(s, p)
    && var m := DigitsStart(s, p) + |NumberCapture(s, p)|;
       var q := m + Span(s, m, IsRegexSpace);
       m < q && OccursAt(Lower(s), BasementStem, q)
  }

  predicate HasBasementMark(s: string) {
    exists p :: 0 <= p < |s| && BasementMarkAt(s, p)
  }

  // ---------------------------------------------------------------------
  // Floor banner digit: /(^|[^\d])(D)\s*этаж/u   (api.php:164-168)

  /** Digit `d` at `k`, not preceded by a digit, then spaces and "этаж". */
  predicate FloorDigitAt(low: string, d: char, k: nat) {
    && k < |low|
    && low[k] == d
    && (k == 0 || !IsDigit(low[k - 1]))
    && OccursAt(low, FloorWord, k + 1 + Span(low, k + 1, IsRegexSpace))
  }

  predicate HasFloorDigit(low: string, d: char) {
    exists k :: 0 <= k < |low| && FloorDigitAt(low, d, k)
  }
}
