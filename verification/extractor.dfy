/** `parseExcelToRooms` (api.php:48-204): from a decoded cell grid to the
    ordered list of room records. */
module Extractor {
  import opened Wrappers
  import opened Seqs
  import opened Text
  import opened Cells
  import opened Patterns
  import opened Columns
  import opened Floors

  /** One room record, with the JSON field names of api.php:190-200; None
      is JSON `null`. */
  datatype Room = Room(
    number: string,
    building: string,
    floor: string,
    tenant: Option<string>,
    contract: Option<string>,
    rent: Option<string>,
    area: Option<string>,
    contractArea: Option<string>)

  /** The occupancy decision of api.php:182-188: a status mentioning a lease
      ("аренд") or occupation ("занят"), or any tenant at all. */
  function IsOccupied(status: string, tenant: string): (occupied: bool)
    ensures tenant != "" ==> occupied
    ensures ContainsCI(status, "аренд") || ContainsCI(status, "занят") ==> occupied
    ensures status == "" ==> (occupied <==> tenant != "")
    ensures occupied && tenant == "" ==> ContainsCI(status, "аренд") || ContainsCI(status, "занят")
  {
    || (status != "" && (ContainsCI(status, "аренд") || ContainsCI(status, "занят")))
    || tenant != ""
  }

  /** PHP `$s ?: null` on a string: "" and "0" are falsy. */
  function OrNull(s: string): (r: Option<string>)
    ensures r.None? <==> s == "" || s == "0"
    ensures r.Some? ==> r.value == s
  {
    if s == "" || s == "0" then None else Some(s)
  }

  /** A tenant, contract or rent field: the cell text when the room is
      occupied and the text is not falsy; null otherwise. */
  predicate ReportsIfOccupied(v: Option<string>, text: string, occupied: bool) {
    && (!occupied ==> v.None?)
    && (occupied ==> (v.Some? <==> text != "" && text != "0"))
    && (v.Some? ==> v.value == text)
  }

  /** An area field: the cell text whenever it is not "". */
  predicate ReportsIfPresent(v: Option<string>, text: string) {
    (v.Some? <==> text != "") && (v.Some? ==> v.value == text)
  }

  /** Object texts that cannot describe a room: empty ones, floor banners,
      totals and texts without "№" (api.php:126-132). */
  function IsSkipped(obj: string): (skip: bool)
    ensures !skip ==> obj != "" && Contains(obj, [NumberSign])
    ensures !Contains(obj, [NumberSign]) ==> skip
  {
    NumberSignSurvivesLower(obj);
    var low := Lower(obj);
    obj == "" || Contains(low, FloorWord) || Contains(low, "итого") || !Contains(low, [NumberSign])
  }

  /** Lower-casing neither creates nor removes a "№". */
  lemma NumberSignSurvivesLower(s: string)
    ensures Contains(Lower(s), [NumberSign]) <==> Contains(s, [NumberSign])
  {
    if Contains(Lower(s), [NumberSign]) {
      var i :| 0 <= i <= |s| - 1 && OccursAt(Lower(s), [NumberSign], i);
      assert Lower(s)[i] == NumberSign;
      ContainsAt(s, [NumberSign], i);
    }
    if Contains(s, [NumberSign]) {
      var i :| 0 <= i <= |s| - 1 && OccursAt(s, [NumberSign], i);
      assert s[i] == NumberSign;
      ContainsAt(Lower(s), [NumberSign], i);
    }
  }

  /** The record row `i` yields, if any (api.php:122-200). */
  function RoomAt(rows: Grid, cols: Columns, i: nat): (r: Option<Room>)
    requires i < |rows|
    ensures Field(rows[i], cols.obj) == "" ==> r.None?
    ensures r.Some? ==> RoomNumber(Field(rows[i], cols.obj)) == Some(r.value.number)
  {
    var obj := Field(rows[i], cols.obj);
    if IsSkipped(obj) || RoomNumber(obj).None? then None
    else Some(MakeRoom(rows, cols, i, obj, RoomNumber(obj).value))
  }

  /** The record of row `i`, once its object text `obj` has passed the
      filters and yielded room number `number` (api.php:142-200). */
  function MakeRoom(rows: Grid, cols: Columns, i: nat, obj: string, number: string): (m: Room)
    requires i < |rows|
    ensures m.number == number && m.building == Building(obj)
    ensures m.floor in FloorLabels
    ensures IsBasementText(obj) ==> m.floor == "floor-0"
    ensures !IsBasementText(obj) ==> m.floor == FloorLabel(ScanBack(rows, cols.obj, i))
  {
    var row := rows[i];
    var tenant := Field(row, cols.tenant);
    var contract := Field(row, cols.contract);
    var rent := Field(row, cols.rent);
    var status := Field(row, cols.status);
    var area := Field(row, cols.area);
    var contractArea := Field(row, cols.contractArea);
    var occupied := IsOccupied(status, tenant);
    Room(
      number,
      Building(obj),
      FloorLabel(RoomLevel(rows, cols.obj, i, obj)),
      if occupied then OrNull(tenant) else None,
      if occupied then OrNull(contract) else None,
      if occupied then OrNull(rent) else None,
      if area != "" then Some(area) else None,
      if contractArea != "" then Some(contractArea) else None)
  }

  /** Every record satisfies the field-level invariants: a number and a
      building of the right shape, a floor id from "floor-0" to "floor-4",
      tenant, contract and rent only for occupied rooms, areas whenever
      their cells are not empty. */
  lemma RoomAtFields(rows: Grid, cols: Columns, i: nat)
    requires i < |rows|
    ensures RoomAt(rows, cols, i).Some? ==>
            var obj := Field(rows[i], cols.obj);
            var r := RoomAt(rows, cols, i).value;
            && obj != ""
            && !Contains(Lower(obj), FloorWord)
            && !Contains(Lower(obj), "итого")
            && RoomNumber(obj) == Some(r.number)
            && IsRoomNumber(r.number)
            && Contains(obj, r.number)
            && IsBuildingId(r.building)
            && r.building == Building(obj)
            && r.floor in FloorLabels
            && (IsBasementText(obj) ==> r.floor == "floor-0")
            && (!IsBasementText(obj) ==> r.floor == FloorLabel(ScanBack(rows, cols.obj, i)))
    ensures RoomAt(rows, cols, i).Some? ==>
            var row := rows[i];
            var r := RoomAt(rows, cols, i).value;
            var tenant := Field(row, cols.tenant);
            var occupied := IsOccupied(Field(row, cols.status), tenant);
            && ReportsIfOccupied(r.tenant, tenant, occupied)
            && ReportsIfOccupied(r.contract, Field(row, cols.contract), occupied)
            && ReportsIfOccupied(r.rent, Field(row, cols.rent), occupied)
            && ReportsIfPresent(r.area, Field(row, cols.area))
            && ReportsIfPresent(r.contractArea, Field(row, cols.contractArea))
  {
  }

  /** A row yields a record exactly when its object text is not empty,
      mentions neither a floor nor a total, and holds "№" followed by
      optional spaces and a digit. */
  lemma RoomAtYieldsExactly(rows: Grid, cols: Columns, i: nat)
    requires i < |rows|
    ensures var obj := Field(rows[i], cols.obj);
            RoomAt(rows, cols, i).Some? <==>
              && obj != ""
              && !Contains(Lower(obj), FloorWord)
              && !Contains(Lower(obj), "итого")
              && exists p :: 0 <= p < |obj| && NumberMatchAt(obj, p)
  {
    var obj := Field(rows[i], cols.obj);
    assert RoomAt(rows, cols, i).Some? <==> !IsSkipped(obj) && RoomNumber(obj).Some?;
    ObjectYieldsRoom(obj);
  }

  /** The object-text half of `RoomAtYieldsExactly`. */
  lemma ObjectYieldsRoom(obj: string)
    ensures !IsSkipped(obj) && RoomNumber(obj).Some? <==>
              && obj != ""
              && !Contains(Lower(obj), FloorWord)
              && !Contains(Lower(obj), "итого")
              && exists p :: 0 <= p < |obj| && NumberMatchAt(obj, p)
  {
    if exists p :: 0 <= p < |obj| && NumberMatchAt(obj, p) {
      var p :| 0 <= p < |obj| && NumberMatchAt(obj, p);
      ContainsAt(obj, [NumberSign], p);
      NumberSignSurvivesLower(obj);
    }
  }

  /** The optional record of every row, in row order. */
  function RowResults(rows: Grid, cols: Columns): (rs: seq<Option<Room>>)
    ensures |rs| == |rows|
    ensures forall k :: 0 <= k < |rows| ==> rs[k] == RoomAt(rows, cols, k)
  {
    seq(|rows|, k requires 0 <= k < |rows| => RoomAt(rows, cols, k))
  }

  /** The columns resolved from the header row. */
  function GridColumns(rows: Grid): Columns {
    ResolveColumns(HeaderCells(rows, HeaderRow(rows)))
  }

  /** `parseExcelToRooms`: locate the header, resolve the columns, and
      append the record of every later row that yields one (the loop of
      api.php:121-201). */
  function Extract(rows: Grid): (out: seq<Room>)
    ensures rows == [] ==> out == []
    ensures |out| + HeaderRow(rows) + 1 <= |rows| || out == []
  {
    if rows == [] then []
    else Collect(RowResults(rows, GridColumns(rows)), HeaderRow(rows) + 1)
  }

  /** The rows the records of `Extract(rows)` come from. */
  function SourceRows(rows: Grid): seq<nat> {
    if rows == [] then []
    else PresentIndices(RowResults(rows, GridColumns(rows)), HeaderRow(rows) + 1)
  }

  /** Records come from rows after the header, one per row that yields a
      record, in source row order; no row that yields one is missed. */
  lemma ExtractFollowsRows(rows: Grid)
    ensures |Extract(rows)| == |SourceRows(rows)|
    ensures forall m :: 0 <= m < |SourceRows(rows)| ==>
              && HeaderRow(rows) < SourceRows(rows)[m] < |rows|
              && RoomAt(rows, GridColumns(rows), SourceRows(rows)[m]) == Some(Extract(rows)[m])
    ensures forall m, n :: 0 <= m < n < |SourceRows(rows)| ==> SourceRows(rows)[m] < SourceRows(rows)[n]
    ensures forall k :: HeaderRow(rows) < k < |rows| && RoomAt(rows, GridColumns(rows), k).Some? ==>
              k in SourceRows(rows)
  {
    if rows != [] {
      var cols := GridColumns(rows);
      var rs := RowResults(rows, cols);
      var from := HeaderRow(rows) + 1;
      assert Extract(rows) == Collect(rs, from);
      assert SourceRows(rows) == PresentIndices(rs, from);
      CollectFollowsIndices(rs, from);
      forall m | 0 <= m < |SourceRows(rows)|
        ensures RoomAt(rows, cols, SourceRows(rows)[m]) == Some(Extract(rows)[m])
      {
        assert rs[SourceRows(rows)[m]] == RoomAt(rows, cols, SourceRows(rows)[m]);
      }
      forall k | HeaderRow(rows) < k < |rows| && RoomAt(rows, cols, k).Some?
        ensures k in SourceRows(rows)
      {
        assert rs[k].Some?;
      }
    }
  }

  lemma RoomAtWellFormed(rows: Grid, cols: Columns, i: nat)
    requires i < |rows|
    ensures RoomAt(rows, cols, i).Some? ==> IsWellFormedRoom(RoomAt(rows, cols, i).value)
  {
  }

  /** A record of the right shape: room number, building id, floor id. */
  predicate IsWellFormedRoom(r: Room) {
    IsRoomNumber(r.number) && IsBuildingId(r.building) && r.floor in FloorLabels
  }

  /** Every extracted record has a room number and a building id of the
      right shape and a floor id from "floor-0" to "floor-4". */
  lemma ExtractedRoomsWellFormed(rows: Grid)
    ensures forall r :: r in Extract(rows) ==>
              IsRoomNumber(r.number) && IsBuildingId(r.building) && r.floor in FloorLabels
  {
    ExtractFollowsRows(rows);
    forall r | r in Extract(rows)
      ensures IsWellFormedRoom(r)
    {
      var m :| 0 <= m < |Extract(rows)| && Extract(rows)[m] == r;
      RoomAtWellFormed(rows, GridColumns(rows), SourceRows(rows)[m]);
    }
  }

  /** Without an object column no row yields a record. */
  lemma NoObjectColumnNoRecords(rows: Grid, cols: Columns, from: nat)
    requires cols.obj.None?
    ensures Collect(RowResults(rows, cols), from) == []
  {
    var rs := RowResults(rows, cols);
    forall k | 0 <= k < |rows|
      ensures rs[k].None?
    {
      assert Field(rows[k], cols.obj) == "";
    }
    CollectOfAbsent(rs, from);
  }

  /** When the header names no object column, nothing is extracted. */
  lemma NoObjectColumnNoRooms(rows: Grid)
    ensures GridColumns(rows).obj.None? ==> Extract(rows) == []
  {
    if rows != [] && GridColumns(rows).obj.None? {
      NoObjectColumnNoRecords(rows, GridColumns(rows), HeaderRow(rows) + 1);
    }
  }
}
