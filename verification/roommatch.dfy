/** The consumer side of the room records in script.js: room-number
    normalisation (script.js:538-569), the "blue rooms" configuration
    check (script.js:572-605), and how an SVG room id is linked to a record
    (script.js:709-719, 844-874). */
module RoomMatch {
  import opened Wrappers
  import opened Seqs
  import opened Text
  import opened Extractor

  // ---------------------------------------------------------------------
  // normalizeRoomNumber and translateLatinToCyrillic

  /** The characters `[\dA-Za-zА-Яа-я]` that survive normalisation. */
  predicate IsKept(c: char) { IsDigit(c) || IsAsciiLetter(c) || IsCyrillicLetter(c) }

  /** `str.replace(/[^\dA-Za-zА-Яа-я]/g, '')`. */
  function KeepAlphanumerics(s: string): (r: string)
    ensures |r| <= |s|
    ensures forall k :: 0 <= k < |r| ==> IsKept(r[k])
    ensures (forall k :: 0 <= k < |s| ==> IsKept(s[k])) ==> r == s
    ensures (forall k :: 0 <= k < |s| ==> !IsKept(s[k])) ==> r == []
  {
    if s == [] then []
    else (if IsKept(s[0]) then [s[0]] else []) + KeepAlphanumerics(s[1..])
  }

  /** Filtering a concatenation filters each part. */
  lemma {:induction false} KeepAlphanumericsConcat(a: string, b: string)
    ensures KeepAlphanumerics(a + b) == KeepAlphanumerics(a) + KeepAlphanumerics(b)
    decreases |a|
  {
    if a != [] {
      assert (a + b)[1..] == a[1..] + b;
      KeepAlphanumericsConcat(a[1..], b);
    } else {
      assert a + b == b;
    }
  }

  /** The Latin letters translateLatinToCyrillic replaces, and their
      Cyrillic look-alikes. */
  const LookAlikes: map<char, char> :=
    map['a' := 'а', 'b' := 'б', 'c' := 'в', 'd' := 'д', 'e' := 'е', 'o' := 'о']

  function LookAlike(c: char): char {
    if c in LookAlikes then LookAlikes[c] else c
  }

  /** `translateLatinToCyrillic`: the six Latin letters become their
      Cyrillic counterparts, every other character stays. */
  function TranslateLatinToCyrillic(s: string): (r: string)
    ensures |r| == |s|
    ensures forall k :: 0 <= k < |s| && s[k] in LookAlikes ==> r[k] == LookAlikes[s[k]]
    ensures forall k :: 0 <= k < |s| && s[k] !in LookAlikes ==> r[k] == s[k]
    ensures forall k :: 0 <= k < |r| ==> r[k] !in LookAlikes
  {
    seq(|s|, k requires 0 <= k < |s| => LookAlike(s[k]))
  }

  /** The characters a normalised room number is made of: digits, small
      Latin letters other than the six look-alikes, small Cyrillic letters. */
  predicate IsNormalChar(c: char) {
    IsDigit(c) || ('a' <= c <= 'z' && c !in LookAlikes) || ('а' <= c <= 'я')
  }

  /** `normalizeRoomNumber`: keep digits and letters, lower-case them, map
      Latin look-alikes to Cyrillic. */
  function NormalizeRoomNumber(s: string): (r: string)
    ensures |r| <= |s|
    ensures forall k :: 0 <= k < |r| ==> IsNormalChar(r[k])
  {
    var kept := KeepAlphanumerics(s);
    var lowered := Lower(kept);
    assert forall k :: 0 <= k < |lowered| ==> IsKept(kept[k]) && lowered[k] == LowerChar(kept[k]);
    TranslateLatinToCyrillic(lowered)
  }

  /** Normalising a normalised room number changes nothing. */
  lemma NormalizeRoomNumberIdempotent(s: string)
    ensures NormalizeRoomNumber(NormalizeRoomNumber(s)) == NormalizeRoomNumber(s)
  {
    var r := NormalizeRoomNumber(s);
    assert forall k :: 0 <= k < |r| ==> IsKept(r[k]);
    assert KeepAlphanumerics(r) == r;
    assert Lower(r) == r;
  }

  /** Normalisation works character by character. */
  lemma NormalizeRoomNumberConcat(a: string, b: string)
    ensures NormalizeRoomNumber(a + b) == NormalizeRoomNumber(a) + NormalizeRoomNumber(b)
  {
    KeepAlphanumericsConcat(a, b);
    LowerConcat(KeepAlphanumerics(a), KeepAlphanumerics(b));
  }

  /** One character normalises to its look-alike-mapped small form, or
      to nothing when it is not a digit or letter. */
  lemma NormalizeOneChar(c: char)
    ensures NormalizeRoomNumber([c]) == if IsKept(c) then [LookAlike(LowerChar(c))] else []
  {
    assert [c][1..] == [];
  }

  /** The three-character labels "12" + x normalise to "12" + the
      normalised x. */
  lemma NormalizeTwelve(x: char)
    ensures NormalizeRoomNumber(['1', '2', x]) == "12" + NormalizeRoomNumber([x])
  {
    NormalizeOneChar('1');
    NormalizeOneChar('2');
    NormalizeRoomNumberConcat(['1'], ['2', x]);
    NormalizeRoomNumberConcat(['2'], [x]);
    assert ['1', '2', x] == ['1'] + ['2', x];
    assert ['2', x] == ['2'] + [x];
  }

  /** A Latin "a" suffix normalises to the Cyrillic "а". */
  lemma LatinSuffixCollapses()
    ensures NormalizeRoomNumber("12a") == "12а"
  {
    NormalizeOneChar('a');
    NormalizeTwelve('a');
    assert "12a" == ['1', '2', 'a'];
  }

  /** A capital Cyrillic "А" suffix normalises to the small one. */
  lemma CapitalSuffixCollapses()
    ensures NormalizeRoomNumber("12А") == "12а"
  {
    NormalizeOneChar('А');
    NormalizeTwelve('А');
    assert "12А" == ['1', '2', 'А'];
  }

  /** "№ " normalises to nothing. */
  lemma SignAndSpaceVanish()
    ensures NormalizeRoomNumber("№ ") == []
  {
    NormalizeOneChar('№');
    NormalizeOneChar(' ');
    NormalizeRoomNumberConcat(['№'], [' ']);
    assert "№ " == ['№'] + [' '];
  }

  /** The "№" sign and spaces of a label are dropped. */
  lemma NumberSignDropped()
    ensures NormalizeRoomNumber("№ 12а") == "12а"
  {
    var sign, digits := "№ ", ['1', '2', 'а'];
    assert "№ 12а" == sign + digits;
    NormalizeRoomNumberConcat(sign, digits);
    SignAndSpaceVanish();
    SmallCyrillicKept();
    NormalizeTwelve('а');
  }

  /** A small Cyrillic "а" normalises to itself. */
  lemma SmallCyrillicKept()
    ensures NormalizeRoomNumber(['а']) == ['а']
  {
    NormalizeOneChar('а');
    assert 'а' !in LookAlikes;
  }

  // ---------------------------------------------------------------------
  // shouldBeBlue

  /** One entry of the blue-room configuration, as far as shouldBeBlue can
      see it: not an object, or an object whose `building` and `floor`
      strings and `rooms` array (each room in its `String()` form) may be
      missing. */
  datatype BlueEntry =
    | NotAnObject
    | Entry(building: Option<string>, floor: Option<string>, rooms: Option<seq<string>>)

  /** The configuration: a list of entries, or anything else. */
  datatype BlueConfig = NotAList | BlueList(entries: seq<BlueEntry>)

  const BuildingPrefix: string := "building-"
  const FloorPrefix: string := "floor-"

  /** The key a building id is looked up under (script.js:580). */
  function BuildingKey(b: string): (k: string)
    ensures StartsWith(k, BuildingPrefix)
    ensures StartsWith(b, BuildingPrefix) ==> k == b
  {
    if StartsWith(b, BuildingPrefix) then b else BuildingPrefix + b
  }

  /** The key a floor id is looked up under (script.js:581). */
  function FloorKey(f: string): (k: string)
    ensures StartsWith(k, FloorPrefix)
    ensures StartsWith(f, FloorPrefix) ==> k == f
  {
    if StartsWith(f, FloorPrefix) then f else FloorPrefix + f
  }

  /** An entry lists the room under these keys. */
  predicate ListsRoom(e: BlueEntry, buildingKey: string, floorKey: string, wanted: string) {
    && e.Entry?
    && e.building == Some(buildingKey)
    && e.floor == Some(floorKey)
    && e.rooms.Some?
    && exists k :: 0 <= k < |e.rooms.value| && NormalizeRoomNumber(e.rooms.value[k]) == wanted
  }

  /** `shouldBeBlue`: some well-formed entry under the room's building and
      floor keys lists a room that normalises like this one. */
  function ShouldBeBlue(config: BlueConfig, roomNumber: string, building: string, floor: string): (blue: bool)
    ensures config.NotAList? || config.entries == [] ==> !blue
    ensures blue <==> && config.BlueList?
                      && exists k :: && 0 <= k < |config.entries|
                                     && ListsRoom(config.entries[k], BuildingKey(building), FloorKey(floor),
                                                  NormalizeRoomNumber(roomNumber))
  {
    if config.NotAList? || |config.entries| == 0 then false
    else
      var wanted := NormalizeRoomNumber(roomNumber);
      var lists := (e: BlueEntry) => ListsRoom(e, BuildingKey(building), FloorKey(floor), wanted);
      assert forall e :: lists(e) == ListsRoom(e, BuildingKey(building), FloorKey(floor), wanted);
      FindFirst(config.entries, lists).Some?
  }

  /** A building given with or without its "building-" prefix, and a floor
      given with or without "floor-", get the same answer. */
  lemma ShouldBeBlueIgnoresPrefixes(config: BlueConfig, roomNumber: string, building: string, floor: string)
    requires !StartsWith(building, BuildingPrefix) && !StartsWith(floor, FloorPrefix)
    ensures ShouldBeBlue(config, roomNumber, building, floor)
            == ShouldBeBlue(config, roomNumber, BuildingPrefix + building, floor)
            == ShouldBeBlue(config, roomNumber, building, FloorPrefix + floor)
  {
    assert (BuildingPrefix + building)[..|BuildingPrefix|] == BuildingPrefix;
    assert (FloorPrefix + floor)[..|FloorPrefix|] == FloorPrefix;
  }

  lemma BuildingNineteenAliases(config: BlueConfig, roomNumber: string)
    ensures ShouldBeBlue(config, roomNumber, "19", "1") == ShouldBeBlue(config, roomNumber, "building-19", "floor-1")
  {
    assert !StartsWith("19", BuildingPrefix);
    assert !StartsWith("1", FloorPrefix);
    ShouldBeBlueIgnoresPrefixes(config, roomNumber, "19", "1");
    assert BuildingPrefix + "19" == "building-19";
    assert FloorPrefix + "1" == "floor-1";
  }

  // ---------------------------------------------------------------------
  // Linking an SVG room id to a record

  /** `currentFloor.replace(/^floor-?/, 'floor-')`. */
  function CanonicalFloor(f: string): (r: string)
    ensures StartsWith(f, FloorPrefix) ==> r == f
    ensures !StartsWith(f, "floor") ==> r == f
    ensures StartsWith(f, "floor") && !StartsWith(f, FloorPrefix) ==> r == FloorPrefix + f[5..]
  {
    if StartsWith(f, FloorPrefix) then f
    else if StartsWith(f, "floor") then FloorPrefix + f[5..]
    else f
  }

  /** The record-match predicate of script.js:709-714 and 844-849: same
      normalised number, same floor, and the active building, that building
      with its "building-" prefix, or no building at all. */
  function RecordMatches(room: Room, wanted: string, activeBuilding: string, currentFloor: string): (m: bool)
    ensures m ==> NormalizeRoomNumber(room.number) == wanted
    ensures m ==> room.building == activeBuilding || room.building == BuildingPrefix + activeBuilding || room.building == ""
    ensures m ==> room.floor == currentFloor || room.floor == CanonicalFloor(currentFloor)
    ensures m && StartsWith(currentFloor, FloorPrefix) ==> room.floor == currentFloor
    ensures && (room.floor == currentFloor || room.floor == CanonicalFloor(currentFloor))
            && (room.building == activeBuilding || room.building == BuildingPrefix + activeBuilding || room.building == "") ==>
              (m <==> NormalizeRoomNumber(room.number) == wanted)
  {
    && NormalizeRoomNumber(room.number) == wanted
    && (room.floor == currentFloor || room.floor == CanonicalFloor(currentFloor))
    && (room.building == activeBuilding || room.building == BuildingPrefix + activeBuilding || room.building == "")
  }

  /** JavaScript `!room.tenant`: no tenant, or an empty one. */
  predicate HasNoTenant(room: Room) { room.tenant.None? || room.tenant.value == "" }

  /** The fallback of script.js:861-864: same number and no tenant. */
  predicate FreeWithNumber(room: Room, wanted: string) {
    NormalizeRoomNumber(room.number) == wanted && HasNoTenant(room)
  }

  /** What the room panel shows (script.js:852-874). */
  datatype RoomView = Exact(room: Room) | FreeByNumber(room: Room) | NoData

  /** The first record matching the room, if any. */
  function FirstMatch(rooms: seq<Room>, wanted: string, activeBuilding: string, currentFloor: string)
    : (r: Option<nat>)
    ensures r.Some? <==> exists k :: 0 <= k < |rooms| && RecordMatches(rooms[k], wanted, activeBuilding, currentFloor)
    ensures r.Some? ==> && r.value < |rooms|
                        && RecordMatches(rooms[r.value], wanted, activeBuilding, currentFloor)
                        && forall j :: 0 <= j < r.value ==> !RecordMatches(rooms[j], wanted, activeBuilding, currentFloor)
  {
    var matches := (room: Room) => RecordMatches(room, wanted, activeBuilding, currentFloor);
    assert forall room :: matches(room) == RecordMatches(room, wanted, activeBuilding, currentFloor);
    FindFirst(rooms, matches)
  }

  /** The room-info lookup order: the first matching record; otherwise the
      first free record with the same number, whatever its floor and
      building; otherwise nothing. */
  function LookupRoom(rooms: seq<Room>, roomNumber: string, activeBuilding: string, currentFloor: string)
    : (v: RoomView)
    ensures var wanted := NormalizeRoomNumber(roomNumber);
            v.Exact? <==> exists k :: 0 <= k < |rooms| && RecordMatches(rooms[k], wanted, activeBuilding, currentFloor)
    ensures var wanted := NormalizeRoomNumber(roomNumber);
            v.Exact? ==> exists k :: && 0 <= k < |rooms| && rooms[k] == v.room
                                      && RecordMatches(rooms[k], wanted, activeBuilding, currentFloor)
                                      && forall j :: 0 <= j < k ==> !RecordMatches(rooms[j], wanted, activeBuilding, currentFloor)
    ensures var wanted := NormalizeRoomNumber(roomNumber);
            v.FreeByNumber? ==> exists k :: && 0 <= k < |rooms| && rooms[k] == v.room
                                             && FreeWithNumber(rooms[k], wanted)
                                             && forall j :: 0 <= j < k ==> !FreeWithNumber(rooms[j], wanted)
    ensures var wanted := NormalizeRoomNumber(roomNumber);
            v.NoData? <==> forall k :: 0 <= k < |rooms| ==>
                             !RecordMatches(rooms[k], wanted, activeBuilding, currentFloor) && !FreeWithNumber(rooms[k], wanted)
  {
    var wanted := NormalizeRoomNumber(roomNumber);
    match FirstMatch(rooms, wanted, activeBuilding, currentFloor)
    case Some(k) => Exact(rooms[k])
    case None =>
      var free := (room: Room) => FreeWithNumber(room, wanted);
      assert forall room :: free(room) == FreeWithNumber(room, wanted);
      match FindFirst(rooms, free)
      case Some(k) => FreeByNumber(rooms[k])
      case None => NoData
  }

  // ---------------------------------------------------------------------
  // Room colour on the plan

  /** `currentBuilding.replace('building-', '')`: the first occurrence of
      the prefix removed. */
  function ActiveBuilding(currentBuilding: string): (a: string)
    ensures StartsWith(currentBuilding, BuildingPrefix) ==> a == currentBuilding[|BuildingPrefix|..]
    ensures !Contains(currentBuilding, BuildingPrefix) ==> a == currentBuilding
    ensures Contains(currentBuilding, BuildingPrefix) ==>
              exists p :: && 0 <= p < |currentBuilding| && OccursAt(currentBuilding, BuildingPrefix, p)
                          && (forall q :: 0 <= q < p ==> !OccursAt(currentBuilding, BuildingPrefix, q))
                          && a == currentBuilding[..p] + currentBuilding[p + |BuildingPrefix|..]
  {
    var at := (p: nat) => OccursAt(currentBuilding, BuildingPrefix, p);
    assert forall p: nat :: at(p) == OccursAt(currentBuilding, BuildingPrefix, p);
    match FirstPosition(0, |currentBuilding|, at)
    case Some(p) => currentBuilding[..p] + currentBuilding[p + |BuildingPrefix|..]
    case None => currentBuilding
  }

  datatype Colour = Blue | Occupied | Free

  /** The colour of a room on the plan (script.js:663-768): blue when the
      configuration lists it; otherwise red when the first matching record
      has a tenant and green when it has none or when no record matches.
      With no records at all, an element already classed "blue-room"
      (`wasBlue`) keeps its colour and every other one turns green. */
  function RoomColour(config: BlueConfig, rooms: seq<Room>, roomNumber: string,
                      currentBuilding: string, currentFloor: string, wasBlue: bool): (c: Colour)
    ensures c == Blue <==> ShouldBeBlue(config, roomNumber, currentBuilding, currentFloor) || (rooms == [] && wasBlue)
    ensures rooms != [] || !wasBlue ==> (c == Blue <==> ShouldBeBlue(config, roomNumber, currentBuilding, currentFloor))
    ensures c == Occupied <==>
              && !ShouldBeBlue(config, roomNumber, currentBuilding, currentFloor)
              && var m := FirstMatch(rooms, NormalizeRoomNumber(roomNumber), ActiveBuilding(currentBuilding), currentFloor);
                 m.Some? && !HasNoTenant(rooms[m.value])
  {
    if ShouldBeBlue(config, roomNumber, currentBuilding, currentFloor) then Blue
    else if |rooms| > 0 then
      match FirstMatch(rooms, NormalizeRoomNumber(roomNumber), ActiveBuilding(currentBuilding), currentFloor)
      case Some(k) => if HasNoTenant(rooms[k]) then Free else Occupied
      case None => Free
    else if wasBlue then Blue
    else Free
  }

  /** A room coloured as occupied shows that same occupied record in the
      room panel. */
  lemma OccupiedColourShowsTenant(config: BlueConfig, rooms: seq<Room>, roomNumber: string,
                                  currentBuilding: string, currentFloor: string, wasBlue: bool)
    ensures RoomColour(config, rooms, roomNumber, currentBuilding, currentFloor, wasBlue) == Occupied ==>
              var v := LookupRoom(rooms, roomNumber, ActiveBuilding(currentBuilding), currentFloor);
              v.Exact? && !HasNoTenant(v.room)
  {
  }
}
