/** Steps 1 and 2 of `parseExcelToRooms`: finding the header row
    (api.php:53-71) and giving columns their roles (api.php:73-117). */
module Columns {
  import opened Wrappers
  import opened Seqs
  import opened Text
  import opened Cells

  /** How many leading rows are searched for the header (api.php:56). */
  const HeaderScanLimit: nat := 20
  /** The header row assumed when none is found: the fourth row (api.php:69). */
  const FallbackHeaderRow: nat := 3
  const HeaderMark: string := "объект недвиж"

  const ObjectHeader: string := "Объект недвижимости"
  const TenantHeader: string := "Контрагент"
  const ContractHeader: string := "Договор"
  const RentHeader: string := "Сумма"
  const StatusHeader: string := "Статус"
  const AreaHeader: string := "Площадь"
  const ContractAreaHeader: string := "Площадь по договору"

  function Min(a: nat, b: nat): nat { if a < b then a else b }

  /** A cell text that marks the header row. */
  predicate IsHeaderMark(t: string) { t != "" && ContainsCI(t, HeaderMark) }

  predicate IsHeaderRow(row: Row) {
    exists k :: 0 <= k < |row| && IsHeaderMark(NormalizeString(row[k]))
  }

  /** The header row: the first of the first min(20, n) rows with a marked
      cell, or row 3 when there is none. */
  function HeaderRow(rows: Grid): (h: nat)
    ensures (exists r :: 0 <= r < Min(HeaderScanLimit, |rows|) && IsHeaderRow(rows[r])) ==>
              && h < Min(HeaderScanLimit, |rows|)
              && IsHeaderRow(rows[h])
              && forall r :: 0 <= r < h ==> !IsHeaderRow(rows[r])
    ensures (forall r :: 0 <= r < Min(HeaderScanLimit, |rows|) ==> !IsHeaderRow(rows[r])) ==>
              h == FallbackHeaderRow
  {
    var scanned := rows[..Min(HeaderScanLimit, |rows|)];
    assert forall r :: 0 <= r < |scanned| ==> scanned[r] == rows[r];
    match FindFirst(scanned, IsHeaderRow)
    case Some(r) => r
    case None => FallbackHeaderRow
  }

  /** The normalised header texts; none when the header row does not exist. */
  function HeaderCells(rows: Grid, h: nat): (headers: seq<string>)
    ensures h >= |rows| ==> headers == []
    ensures h < |rows| ==> |headers| == |rows[h]|
                           && forall k :: 0 <= k < |headers| ==> headers[k] == NormalizeString(rows[h][k])
  {
    if h < |rows| then seq(|rows[h]|, k requires 0 <= k < |rows[h]| => NormalizeString(rows[h][k]))
    else []
  }

  // Substring fallbacks, tried only when the exact title is absent.

  predicate IsObjectFallback(h: string) { h != "" && ContainsCI(h, "объект") }

  predicate IsTenantFallback(h: string) {
    h != "" && (ContainsCI(h, "контраг") || ContainsCI(h, "арендатор"))
  }

  predicate IsRentFallback(h: string) {
    h != "" && (ContainsCI(h, "сумм") || ContainsCI(h, "плата"))
  }

  predicate IsStatusFallback(h: string) { h != "" && ContainsCI(h, "статус") }

  /** An area title: its lowered form contains "площад" (api.php:106-108). */
  predicate IsAreaTitle(h: string) {
    var hl := Lower(h);
    hl != "" && ContainsCI(hl, "площад")
  }

  /** An area title that speaks of the contract (api.php:110). */
  predicate MentionsContract(h: string) {
    var hl := Lower(h);
    ContainsCI(hl, "догов") || ContainsCI(hl, "по дог")
  }

  /** Lowering the title first changes nothing: the area tests are the
      case-insensitive searches of the title itself. */
  lemma AreaTestsAreCaseInsensitive(h: string)
    ensures IsAreaTitle(h) <==> h != "" && ContainsCI(h, "площад")
    ensures MentionsContract(h) <==> ContainsCI(h, "догов") || ContainsCI(h, "по дог")
  {
    LowerIdempotent(h);
  }

  predicate IsPlainAreaFallback(h: string) { IsAreaTitle(h) && !MentionsContract(h) }

  predicate IsContractAreaFallback(h: string) { IsAreaTitle(h) && MentionsContract(h) }

  /** One role: the first header equal to `exact`, else the first header
      accepted by `fallback`, else unresolved. */
  function Resolve(headers: seq<string>, exact: string, fallback: string -> bool): (r: Option<nat>)
    ensures r.Some? ==> r.value < |headers|
    ensures exact in headers ==>
              r.Some? && headers[r.value] == exact && forall k :: 0 <= k < r.value ==> headers[k] != exact
    ensures exact !in headers ==>
              && (r.Some? <==> exists k :: 0 <= k < |headers| && fallback(headers[k]))
              && (r.Some? ==> fallback(headers[r.value]) && forall k :: 0 <= k < r.value ==> !fallback(headers[k]))
  {
    IndexOf(headers, exact).OrElse(FindFirst(headers, fallback))
  }

  /** The area loop of api.php:105-116 from header `k` on: an area title
      fills whichever of the two roles it belongs to, unless already set. */
  function AreaScan(headers: seq<string>, k: nat, area: Option<nat>, contractArea: Option<nat>)
    : (r: (Option<nat>, Option<nat>))
    ensures area.Some? ==> r.0 == area
    ensures contractArea.Some? ==> r.1 == contractArea
    ensures r.0.Some? && area.None? ==> k <= r.0.value < |headers| && IsPlainAreaFallback(headers[r.0.value])
    ensures r.1.Some? && contractArea.None? ==> k <= r.1.value < |headers| && IsContractAreaFallback(headers[r.1.value])
    decreases |headers| - k
  {
    if k >= |headers| then (area, contractArea)
    else if !IsAreaTitle(headers[k]) then AreaScan(headers, k + 1, area, contractArea)
    else if MentionsContract(headers[k]) then
      AreaScan(headers, k + 1, area, if contractArea.None? then Some(k) else contractArea)
    else
      AreaScan(headers, k + 1, if area.None? then Some(k) else area, contractArea)
  }

  /** The loop never overwrites a resolved role and otherwise picks the
      first title of the right kind. */
  lemma {:induction false} AreaScanFindsFirst(headers: seq<string>, k: nat, area: Option<nat>,
                                              contractArea: Option<nat>)
    requires k <= |headers|
    ensures AreaScan(headers, k, area, contractArea) ==
              (area.OrElse(FindFrom(headers, IsPlainAreaFallback, k)),
               contractArea.OrElse(FindFrom(headers, IsContractAreaFallback, k)))
    decreases |headers| - k
  {
    if k < |headers| {
      if !IsAreaTitle(headers[k]) {
        AreaScanFindsFirst(headers, k + 1, area, contractArea);
      } else if MentionsContract(headers[k]) {
        AreaScanFindsFirst(headers, k + 1, area, if contractArea.None? then Some(k) else contractArea);
      } else {
        AreaScanFindsFirst(headers, k + 1, if area.None? then Some(k) else area, contractArea);
      }
    }
  }

  /** The column index of each role; None when unresolved. */
  datatype Columns = Columns(
    obj: Option<nat>,
    tenant: Option<nat>,
    contract: Option<nat>,
    rent: Option<nat>,
    status: Option<nat>,
    area: Option<nat>,
    contractArea: Option<nat>)

  /** Column resolution: exact titles first, substring fallbacks second;
      "Договор" has no fallback; the area roles come from one shared loop
      run only when one of them is still missing. */
  function ResolveColumns(headers: seq<string>): (c: Columns)
    ensures c.obj == Resolve(headers, ObjectHeader, IsObjectFallback)
    ensures c.tenant == Resolve(headers, TenantHeader, IsTenantFallback)
    ensures c.rent == Resolve(headers, RentHeader, IsRentFallback)
    ensures c.status == Resolve(headers, StatusHeader, IsStatusFallback)
    ensures c.contract.Some? <==> ContractHeader in headers
    ensures c.contract.Some? ==> c.contract.value < |headers| && headers[c.contract.value] == ContractHeader
    ensures c.contract == IndexOf(headers, ContractHeader)
    ensures c.area == IndexOf(headers, AreaHeader).OrElse(FindFirst(headers, IsPlainAreaFallback))
    ensures c.contractArea == IndexOf(headers, ContractAreaHeader).OrElse(FindFirst(headers, IsContractAreaFallback))
  {
    var area0 := IndexOf(headers, AreaHeader);
    var contractArea0 := IndexOf(headers, ContractAreaHeader);
    var areas := if area0.None? || contractArea0.None? then AreaScan(headers, 0, area0, contractArea0)
                 else (area0, contractArea0);
    AreaScanFindsFirst(headers, 0, area0, contractArea0);
    Columns(
      Resolve(headers, ObjectHeader, IsObjectFallback),
      Resolve(headers, TenantHeader, IsTenantFallback),
      IndexOf(headers, ContractHeader),
      Resolve(headers, RentHeader, IsRentFallback),
      Resolve(headers, StatusHeader, IsStatusFallback),
      areas.0,
      areas.1)
  }
}
