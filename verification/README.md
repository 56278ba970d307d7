# Room occupancy extractor — a Dafny model

This project models the part of the room-occupancy plan viewer that does real
work: turning a decoded spreadsheet grid into an ordered list of room records
(`normalizeString` and `parseExcelToRooms` in `api.php`), the two pure steps of
the upload handler (the extension gate and the stored-file-name sanitiser),
and the consumer side of the record contract in `script.js` (room-number
normalisation, the "blue rooms" configuration check, and how a room on the
plan is linked to a record).

Modules, in dependency order:

- `Wrappers` — `Option`.
- `Seqs` — first-hit linear searches (`array_search`, `foreach … break`,
  `Array.prototype.find`) and the order-preserving collection of a loop's
  optional results.
- `Text` — character classes, the fixed-alphabet case folding, substring
  search, greedy runs, PHP `trim`.
- `Cells` — decoded cells and `normalizeString`.
- `Patterns` — the regular expressions applied to the object text (room
  number, building, basement mark, floor-banner digit).
- `Columns` — header-row search and column-role resolution.
- `Floors` — the floor of a room, including the backward banner scan.
- `Extractor` — the room record and `parseExcelToRooms` itself.
- `Upload` — extension gate and file-name sanitiser, on bytes.
- `RoomMatch` — `normalizeRoomNumber`, `translateLatinToCyrillic`,
  `shouldBeBlue`, the record-match predicate, the room-info lookup order and
  the plan colour.
- `Scenarios` — worked object texts.

Each regular expression whose captures are used (room number, building) is
modelled as "the leftmost start position from which a greedy scan succeeds".
For these patterns this is exact: each greedy part (`\s*`, `\s+`, `\d+`,
`[А-Яа-я]?`) is followed by something its own characters cannot match, so
backtracking never turns a failed match into a successful one. The basement
mark and the floor-banner patterns are only tested for a match
(api.php:154, 164-168), so `Patterns.HasBasementMark` and `Patterns.HasFloorDigit`
are existence tests over positions.

Behaviour of the code that the model keeps, though it may surprise a reader:

- A non-empty tenant makes a room occupied even when a non-empty status
  mentions neither "аренд" nor "занят": the tenant test runs after the status
  test and can only turn the flag on (api.php:182-188).
- A banner containing "этаж" with no digit 0-4 standing right before the word
  does not stop the backward floor scan; only a matching banner or "подвал"
  ends it (api.php:163-169).
- A building suffix "/0" is dropped, giving "X" rather than "X-0", because
  PHP's `empty("0")` is true (api.php:145).
- A row whose object text contains "этаж" is skipped even when it also
  carries "№" and a number (api.php:130), so "№ 5 строение 2 этаж 3" yields
  no record (`Scenarios.FloorInLabelRowSkipped`).
- With no records loaded, an element already drawn blue stays blue, and
  every other element turns green (script.js:752-765).

## Model

| member | source | states |
|---|---|---|
| Cells.NormalizeString | api.php:42-46 | null gives ""; a number gives its string form; a numeric string is returned untrimmed; any other string is a trimmed slice of itself with no space, tab, newline, NUL or vertical tab at either end |
| Cells.IsNumeric | api.php:44 | a numeric string contains a digit, and a non-empty string of digits is numeric |
| Cells.Field | api.php:174-179 | an unresolved column or one beyond the end of the row reads as ""; any other column reads as the normalised text of that cell |
| Text.Trim | api.php:45 | the result is a slice of the input with only trim characters cut from each end, and it neither starts nor ends with one |
| Seqs.IndexOf | api.php:73-80 | `array_search` on strings: present exactly when the value occurs, at its first occurrence |
| Columns.HeaderRow | api.php:53-71 | when one of the first min(20, n) rows has a cell containing "объект недвиж" (case-insensitive), the header is the first such row; otherwise it is row 3 |
| Columns.HeaderCells | api.php:58-70 | the header titles are the normalised cells of the header row, and there are none when that row does not exist |
| Columns.Resolve | api.php:73-102 | an exact title wins and is its first occurrence; only when it is absent does the substring fallback apply, again at the first header it accepts; unresolved when neither applies |
| Columns.AreaScanFindsFirst | api.php:103-117 | the shared area loop never overwrites a resolved role and otherwise picks the first "площад" title that mentions a contract (contract area), or does not (area) |
| Columns.AreaScan | api.php:104-117 | a role already resolved keeps its column; a role the loop resolves gets a column at or after the start whose title is an area title of its kind |
| Columns.AreaTestsAreCaseInsensitive | api.php:106-110 | lower-casing a title first does not change the area and contract tests |
| Columns.ResolveColumns | api.php:73-117 | object, tenant, rent and status are each resolved by the exact title first and then by their own substring fallback; every resolved index lies within the header row; the contract column is the first "Договор" header, and unresolved when there is none, as it has no fallback; each area role is the exact title, or else the first fallback title of its kind |
| Patterns.NumberMatchAtIff | api.php:136 | the match test reads as the regular expression: "№", any run of whitespace, then a digit |
| Patterns.NumberCapture | api.php:134-137 | the capture is the whole digit run after "№" and the whitespace, plus one Cyrillic letter when one follows; it occurs in the text there |
| Patterns.RoomNumber | api.php:134-140 | present exactly when "№\s*\d" occurs; then it is the capture at the leftmost match, is non-empty, starts with a digit, ends with a digit or a Cyrillic letter, and occurs in the text |
| Patterns.BuildingCaptureAt | api.php:144 | the first group is the whole non-empty digit run after "строение" and whitespace; the second group is present exactly when a slash and a digit follow it, and is then the whole digit run right after the slash, ending at the end of the text or before a non-digit |
| Patterns.BuildingMatch | api.php:144 | the leftmost position where "строение" (any case), at least one whitespace and a digit occur; none exactly when no position matches |
| Patterns.BuildingFromCapture | api.php:145-149 | the id is the first group alone exactly when the second is missing or "0", and otherwise the first group, "-", then the second |
| Patterns.BuildingFromMatch | api.php:144-149 | the building comes from the groups of the leftmost match |
| Patterns.Building | api.php:142-150 | always a building id (digits, or digits-digits); "19" when no building phrase occurs; otherwise the leftmost match's first group, followed by "-" and the second group unless that is missing or "0" |
| Floors.FloorLabel | api.php:153-168 | level n from 0 to 4 is reported as "floor-" followed by the digit n |
| Floors.FloorLabelInjective | api.php:153-168 | distinct levels get distinct floor ids |
| Floors.FirstFloorDigit | api.php:164-168 | the digits 0, 1, 2, 3, 4 are tried in that order; the result is the first whose banner pattern matches |
| Floors.BannerLevel | api.php:158-169 | an empty text says nothing; "подвал" means the basement; an "этаж" text gives its lowest matching digit; an "этаж" text with no matching digit says nothing |
| Floors.ScanBack | api.php:157-170 | the scanned level is at most 4 |
| Floors.ScanLevels | api.php:158-170 | the loop yields a level of at most 4, and floor 1 when no row below j gives one |
| Floors.Banners | api.php:158-169 | each row's entry is what its object text says about the floor, and a level given is at most 4 |
| Floors.ScanLevelsFindsNearest | api.php:158-170 | the backward loop yields the nearest level found below row j, and floor 1 when there is none |
| Floors.ScanBackFindsNearestBanner | api.php:157-171 | the scan yields the level of the nearest earlier banner row, and floor 1 when no earlier row is a banner |
| Floors.RoomLevel | api.php:152-171 | "подвал", "цоколь" or "№ N подв" in the room's own text means the basement; otherwise the backward scan decides |
| Extractor.OrNull | api.php:194-196 | PHP `?: null`: "" and "0" become null; every other text is kept |
| Extractor.IsOccupied | api.php:181-188 | occupied exactly when the status mentions "аренд" or "занят" (any case) or there is a tenant: either one alone suffices, and with neither the room is free |
| Extractor.IsSkipped | api.php:126-132 | a row that is not skipped has a non-empty object text containing "№"; a text without "№" is always skipped |
| Extractor.NumberSignSurvivesLower | api.php:129-130 | lower-casing neither creates nor removes a "№", so the "№" test on the lowered text is the test on the text |
| Extractor.RoomAt | api.php:122-140 | an empty object text yields nothing; a yielded record carries the room number of its object text |
| Extractor.RoomAtYieldsExactly | api.php:122-140 | a row yields a record exactly when its object text is non-empty, mentions neither "этаж" nor "итого", and contains "№", optional whitespace and a digit |
| Extractor.ObjectYieldsRoom | api.php:126-140 | the skip filter and the room-number match pass together exactly for those object texts |
| Extractor.MakeRoom | api.php:142-200 | the record carries the given number and the building of its object text; its floor is floor-0 for a basement text and otherwise the floor id of the backward scan |
| Extractor.RoomAtWellFormed | api.php:134-171 | a yielded record has a room-number-shaped number, a building id and a floor id from floor-0 to floor-4 |
| Extractor.RoomAtFields | api.php:122-200 | a record comes from a non-empty object text with neither "этаж" nor "итого"; its number is the room number of that text, so it has the room-number shape and occurs in the text; its building is a building id; its floor is one of floor-0 … floor-4, as the basement rule or the backward scan gives; tenant, contract and rent are null unless occupied and then null only for "" or "0"; the areas are present exactly when their cells are not "" |
| Extractor.Extract | api.php:48-204 | an empty grid gives no records; otherwise there are at most n − header − 1 records |
| Extractor.ExtractFollowsRows | api.php:119-203 | the records come one per record-yielding row strictly after the header, in source row order, and no such row is missed |
| Extractor.ExtractedRoomsWellFormed | api.php:134-171 | every extracted record has a well-formed number and building and a floor id from floor-0 to floor-4 |
| Extractor.NoObjectColumnNoRecords | api.php:125-126 | when the object column is unresolved, no row yields a record |
| Extractor.NoObjectColumnNoRooms | api.php:125-126 | without an object column there are no records |
| Scenarios.LabelRoomNumber | api.php:134-137 | "№ 12а строение 7/1" has room number "12а" |
| Scenarios.LabelBuilding | api.php:142-149 | "№ 12а строение 7/1" belongs to building "7-1" |
| Scenarios.SevenSlashOne | api.php:145-146 | groups "7" and "1" make building "7-1" |
| Scenarios.FloorInLabelRowSkipped | api.php:129-132 | a row whose object text is "№ 5 строение 2 этаж 3" yields no record |
| Scenarios.SecondFloorBanner | api.php:163-166 | "2 этаж" is a second-floor banner |
| Scenarios.TrailingDigitBannerSaysNothing | api.php:163-169 | "Этаж 3" fixes no floor, so the scan continues past it |
| Upload.SanitizeFileName | api.php:236 | the byte length is kept; every byte of [A-Za-z0-9_.-] stays; every other byte becomes "_" |
| Upload.SanitizeFileNameIdempotent | api.php:236 | sanitising a sanitised name changes nothing |
| Upload.StoredFileName | api.php:236 | the stored name is the timestamp, "_", then exactly the sanitised name, so no "/" follows the timestamp |
| Upload.Extension | api.php:231 | the extension holds no "." and no "/", and when non-empty it is what follows a "." in the base name |
| Upload.BaseName | api.php:231 | the base name contains no "/", and a path without "/" is its own base name |
| Upload.LowerBytes | api.php:231 | `strtolower` on bytes: A-Z become a-z and every other byte is unchanged |
| Upload.IsAcceptedUpload | api.php:231-232 | an accepted name has a three- or four-byte extension, so its base name contains a "." |
| Upload.ExtensionOfDottedName | api.php:231 | the extension of "stem.e" is e whenever e is non-empty and has no "." or "/" |
| Upload.AcceptedExactlyForSpreadsheetExtensions | api.php:231-234 | "stem.e" is accepted exactly when e lower-cases to "xls" or "xlsx" |
| Upload.UpperCaseExtensionAccepted | api.php:231-232 | the gate ignores case: a name ending ".XLSX" is accepted |
| Upload.UndottedNameRefused | api.php:231-234 | a name without "." has no extension and is refused |
| RoomMatch.KeepAlphanumerics | script.js:540 | only characters of [0-9A-Za-zА-Яа-я] remain; a string made only of them is unchanged, and one with none of them becomes empty |
| RoomMatch.KeepAlphanumericsConcat | script.js:540 | the filter works piecewise over a concatenation |
| RoomMatch.TranslateLatinToCyrillic | script.js:546-569 | the length is kept; a, b, c, d, e, o become а, б, в, д, е, о; every other character is unchanged; no Latin look-alike remains |
| RoomMatch.NormalizeRoomNumber | script.js:538-543 | the result is no longer than the input and consists of digits, small Cyrillic letters and small Latin letters other than the six look-alikes |
| RoomMatch.NormalizeRoomNumberIdempotent | script.js:538-543 | normalising twice is normalising once |
| RoomMatch.NormalizeRoomNumberConcat | script.js:538-543 | normalisation works character by character |
| RoomMatch.NormalizeOneChar | script.js:538-569 | a letter or digit becomes its small, look-alike-mapped form; any other character disappears |
| RoomMatch.LatinSuffixCollapses | script.js:538-569 | "12a" with a Latin a normalises to "12а" |
| RoomMatch.CapitalSuffixCollapses | script.js:538-569 | "12А" normalises to "12а" |
| RoomMatch.SmallCyrillicKept | script.js:538-569 | a small Cyrillic "а" normalises to itself |
| RoomMatch.NumberSignDropped | script.js:538-569 | "№ 12а" normalises to "12а" |
| RoomMatch.BuildingKey | script.js:580 | the key starts with "building-", and an id already carrying the prefix is its own key |
| RoomMatch.FloorKey | script.js:581 | the key starts with "floor-", and an id already carrying the prefix is its own key |
| RoomMatch.ShouldBeBlue | script.js:572-605 | false for a configuration that is not a list or is empty; otherwise true exactly when some entry is an object whose building and floor equal the keys and whose rooms array has a room that normalises like the queried one |
| RoomMatch.ShouldBeBlueIgnoresPrefixes | script.js:579-587 | a building given with or without "building-", and a floor with or without "floor-", get the same answer |
| RoomMatch.BuildingNineteenAliases | script.js:580-581 | building "19" on floor "1" is treated as "building-19" on "floor-1" |
| RoomMatch.CanonicalFloor | script.js:847 | `replace(/^floor-?/, 'floor-')`: a "floor-" id is unchanged, "floorN" becomes "floor-N", and anything else is unchanged |
| RoomMatch.RecordMatches | script.js:709-714 | a record matches exactly when its number normalises to the queried one, its floor is the current floor id or that id with `^floor-?` made "floor-", and its building is the active one, that one with "building-", or empty; with a "floor-" id only that very floor matches |
| RoomMatch.FirstMatch | script.js:844-849 | the first record with the same normalised number, the same floor and a compatible building; none exactly when no record matches |
| RoomMatch.LookupRoom | script.js:844-874 | the first matching record when there is one; otherwise the first record with the same normalised number and no tenant, whatever its floor and building; otherwise no data, exactly when neither kind exists |
| RoomMatch.ActiveBuilding | script.js:673 | the first occurrence of "building-" is removed: a leading prefix is cut off, a string without it is unchanged, and otherwise the text around the leftmost occurrence is joined |
| RoomMatch.RoomColour | script.js:673-768 | blue exactly when the configuration lists the room, or when there are no records and the element was already blue; otherwise red exactly when the first matching record has a tenant, and green in every other case |
| RoomMatch.OccupiedColourShowsTenant | script.js:705-719 | a room drawn as occupied shows that same tenanted record in the room panel |

## Left out

- HTTP plumbing in api.php is left out because it is I/O: sessions and the auth gate, CORS headers, `respondJson`, `$_FILES`, `move_uploaded_file`, and reading and writing `rooms.json`.
- The timestamp of the stored file name (`date('Ymd_His')`) is a clock reading, so `Upload.StoredFileName` takes it as a parameter.
- The spreadsheet decoders are foreign libraries that are not part of this model. The model starts from the decoded grid. A number cell carries the string PHP's `(string)` cast would give, as decoded.
- Rows that are not arrays (`!is_array($row)`, api.php:123) do not exist in the model, since a `Grid` is a sequence of rows.
- Cells.IsNumeric covers PHP 8's decimal notation only. It leaves out hexadecimal, binary and special floating-point spellings, which PHP 8 does not treat as numeric strings anyway, and any locale effects.
- Text.LowerChar folds a fixed alphabet rather than all of Unicode: ASCII A-Z, Cyrillic А-Я and Ѐ-Џ. Every letter the extractor compares is in that alphabet.
- The regex classes are fixed too: PCRE `\d` is taken as ASCII 0-9, and `\s` as space, tab, newline, vertical tab, form feed and carriage return.
- Upload.BaseName covers the byte-level rule only: trailing slashes are dropped, then the part after the last "/" is taken. Locale-dependent multibyte handling in PHP's `basename` is left out.
- Blue-room entries reach `shouldBeBlue` in reduced form. Each room is in its `String()` form, and the `try`/`catch` around normalisation is left out because `String()` of a string cannot throw.
- script.js beyond the matching helpers is left out as UI and I/O: DOM queries, SVG recolouring, `fetch`, retries, local storage, and the unused `roomDataMap` index.
- The plan colour covers the colour decision only. Skipped or missing SVG elements and the mask handling are DOM details and are left out.
- table.php, auth.php, index.php, login.php, logout.php and google-apps-script.js are not part of this model. They hold rendering, authentication (HMAC tokens, cookies, clock) and a superseded reader.
