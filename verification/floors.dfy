/** Step 5 of `parseExcelToRooms`: the floor of a room (api.php:152-171). */
module Floors {
  import opened Wrappers
  import opened Text
  import opened Cells
  import opened Patterns

  const BasementLevel: nat := 0
  /** The floor of a room when nothing says otherwise (api.php:153). */
  const DefaultLevel: nat := 1
  const TopLevel: nat := 4

  const FloorLabels: set<string> := {"floor-0", "floor-1", "floor-2", "floor-3", "floor-4"}

  /** The character '0' + level. */
  function LevelDigit(level: nat): (c: char)
    requires level <= TopLevel
    ensures IsDigit(c)
  {
    ('0' as int + level) as char
  }

  /** The floor id a level is reported as: "floor-0" .. "floor-4". */
  function FloorLabel(level: nat): (f: string)
    requires level <= TopLevel
    ensures f in FloorLabels
    ensures f == "floor-" + [LevelDigit(level)]
  {
    if level == 0 then "floor-0"
    else if level == 1 then "floor-1"
    else if level == 2 then "floor-2"
    else if level == 3 then "floor-3"
    else "floor-4"
  }

  /** Distinct levels are reported as distinct floor ids. */
  lemma FloorLabelInjective(a: nat, b: nat)
    requires a <= TopLevel && b <= TopLevel
    ensures FloorLabel(a) == FloorLabel(b) <==> a == b
  {
    if a != b {
      assert FloorLabel(a)[6] != FloorLabel(b)[6];
    }
  }

  /** The lowest level `d..4` whose digit stands before "этаж" in `low`
      (the regexes of api.php:164-168 are tried in the order 0, 1, 2, 3, 4). */
  function FirstFloorDigit(low: string, d: nat): (r: Option<nat>)
    requires d <= TopLevel + 1
    ensures r.Some? ==> d <= r.value <= TopLevel && HasFloorDigit(low, LevelDigit(r.value))
    ensures r.Some? ==> forall e :: d <= e < r.value ==> !HasFloorDigit(low, LevelDigit(e))
    ensures r.None? ==> forall e :: d <= e <= TopLevel ==> !HasFloorDigit(low, LevelDigit(e))
    decreases TopLevel + 1 - d
  {
    if d > TopLevel then None
    else if HasFloorDigit(low, LevelDigit(d)) then Some(d)
    else FirstFloorDigit(low, d + 1)
  }

  /** What an earlier object text says about the floor: "подвал" means the
      basement; an "этаж" banner gives its first digit 0-4 in digit order;
      anything else, including an "этаж" banner without such a digit,
      says nothing and the backward scan goes on. */
  function BannerLevel(text: string): (r: Option<nat>)
    ensures r.Some? ==> text != "" && r.value <= TopLevel
    ensures text != "" && Contains(Lower(text), "подвал") ==> r == Some(BasementLevel)
    ensures r.Some? && !Contains(Lower(text), "подвал") ==>
              && Contains(Lower(text), FloorWord)
              && HasFloorDigit(Lower(text), LevelDigit(r.value))
              && forall e :: 0 <= e < r.value ==> !HasFloorDigit(Lower(text), LevelDigit(e))
    ensures r.None? && text != "" ==>
              && !Contains(Lower(text), "подвал")
              && (Contains(Lower(text), FloorWord) ==>
                    forall e :: 0 <= e <= TopLevel ==> !HasFloorDigit(Lower(text), LevelDigit(e)))
  {
    if text == "" then None
    else
      var low := Lower(text);
      if Contains(low, "подвал") then Some(BasementLevel)
      else if Contains(low, FloorWord) then FirstFloorDigit(low, 0)
      else None
  }

  /** What each row's object text says about the floor, row by row. */
  function Banners(rows: Grid, col: Option<nat>): (levels: seq<Option<nat>>)
    ensures |levels| == |rows|
    ensures forall k :: 0 <= k < |rows| ==> levels[k] == BannerLevel(Field(rows[k], col))
    ensures forall k :: 0 <= k < |rows| && levels[k].Some? ==> levels[k].value <= TopLevel
  {
    seq(|rows|, k requires 0 <= k < |rows| => BannerLevel(Field(rows[k], col)))
  }

  /** The loop of api.php:158-170 over banner levels: from `j-1` down to 0,
      the first level found, or the default level. */
  function ScanLevels(levels: seq<Option<nat>>, j: nat): (level: nat)
    requires j <= |levels|
    requires forall k :: 0 <= k < |levels| && levels[k].Some? ==> levels[k].value <= TopLevel
    ensures level <= TopLevel
    ensures (forall k :: 0 <= k < j ==> levels[k].None?) ==> level == DefaultLevel
    decreases j
  {
    if j == 0 then DefaultLevel
    else
      match levels[j - 1]
      case Some(level) => level
      case None => ScanLevels(levels, j - 1)
  }

  /** The backward scan of api.php:158-170 over rows `j-1` down to 0. */
  function ScanBack(rows: Grid, col: Option<nat>, j: nat): (level: nat)
    requires j <= |rows|
    ensures level <= TopLevel
  {
    ScanLevels(Banners(rows, col), j)
  }

  /** The level scan stops at the nearest level below `j`, and gives the
      default level when there is none. */
  lemma {:induction false} ScanLevelsFindsNearest(levels: seq<Option<nat>>, j: nat)
    requires j <= |levels|
    requires forall k :: 0 <= k < |levels| && levels[k].Some? ==> levels[k].value <= TopLevel
    ensures (forall m :: 0 <= m < j ==> levels[m].None?) ==> ScanLevels(levels, j) == DefaultLevel
    ensures forall k :: 0 <= k < j && levels[k].Some? && (forall m :: k < m < j ==> levels[m].None?) ==>
              ScanLevels(levels, j) == levels[k].value
    decreases j
  {
    if j > 0 {
      ScanLevelsFindsNearest(levels, j - 1);
    }
  }

  /** The scan stops at the nearest row above row `j` whose object text is
      a banner, and gives the default level when there is none. */
  lemma ScanBackFindsNearestBanner(rows: Grid, col: Option<nat>, j: nat)
    requires j <= |rows|
    ensures var levels := Banners(rows, col);
            (forall m :: 0 <= m < j ==> levels[m].None?) ==> ScanBack(rows, col, j) == DefaultLevel
    ensures var levels := Banners(rows, col);
            forall k :: 0 <= k < j && levels[k].Some? && (forall m :: k < m < j ==> levels[m].None?) ==>
              ScanBack(rows, col, j) == levels[k].value
  {
    ScanLevelsFindsNearest(Banners(rows, col), j);
  }

  /** The room's own text places it in the basement (api.php:154). */
  predicate IsBasementText(obj: string) {
    var low := Lower(obj);
    Contains(low, "подвал") || Contains(low, "цоколь") || HasBasementMark(obj)
  }

  /** The level of the room in row `i` whose object text is `obj`. */
  function RoomLevel(rows: Grid, col: Option<nat>, i: nat, obj: string): (level: nat)
    requires i <= |rows|
    ensures level <= TopLevel
    ensures IsBasementText(obj) ==> level == BasementLevel
    ensures !IsBasementText(obj) ==> level == ScanBack(rows, col, i)
  {
    if IsBasementText(obj) then BasementLevel else ScanBack(rows, col, i)
  }
}
