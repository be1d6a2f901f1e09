/** The write-side payloads: the nested update request (`UpdateWorkSpaceDto`
    with `UpdateRoomDto` and `UpdateDeviceDto` entries, where an absent id
    means "new") and the create request (`CreateWorkSpaceDto` with
    `CreateRoomDto` and `CreateDeviceDto` entries, which carry no id at all).
    The validity predicates are the data-annotation bounds, checked the way
    the framework checks them: recursively through nested lists. */
module Payloads {
  import opened Wrappers
  import opened Entities
  import opened Text

  datatype UpdateDeviceDto = UpdateDeviceDto(id: Option<Id>, name: string, extraCostPerHour: Money)

  datatype UpdateRoomDto = UpdateRoomDto(
    id: Option<Id>,
    name: string,
    capacity: int,
    pricePerHour: Money,
    devices: Option<seq<UpdateDeviceDto>>)

  datatype UpdateWorkSpaceDto = UpdateWorkSpaceDto(
    id: Id,
    name: string,
    description: string,
    address: string,
    city: string,
    latitude: Option<Coordinate>,
    longitude: Option<Coordinate>,
    rooms: Option<seq<UpdateRoomDto>>)

  datatype CreateDeviceDto = CreateDeviceDto(name: string, extraCostPerHour: Money)

  datatype CreateRoomDto = CreateRoomDto(
    name: string,
    capacity: int,
    pricePerHour: Money,
    devices: Option<seq<CreateDeviceDto>>)

  datatype CreateWorkSpaceDto = CreateWorkSpaceDto(
    name: string,
    description: string,
    address: string,
    city: string,
    latitude: Option<Coordinate>,
    longitude: Option<Coordinate>,
    rooms: Option<seq<CreateRoomDto>>)

  // ---------------------------------------------------------------------
  // Data-annotation checks

  /** The characters .NET's `char.IsWhiteSpace` accepts. */
  predicate IsWhiteSpace(c: char) {
    || '\U{0009}' <= c <= '\U{000D}'
    || c == ' ' || c == '\U{0085}' || c == '\U{00A0}' || c == '\U{1680}'
    || '\U{2000}' <= c <= '\U{200A}'
    || c == '\U{2028}' || c == '\U{2029}' || c == '\U{202F}' || c == '\U{205F}' || c == '\U{3000}'
  }

  /** `[Required]` on a string: not empty and not white space only. */
  predicate Required(s: string) {
    exists i :: 0 <= i < |s| && !IsWhiteSpace(s[i])
  }

  /** `[MinLength(n)]` on a string: at least `n` UTF-16 code units. */
  predicate MinLength(s: string, n: nat) {
    Utf16Length(s) >= n
  }

  /** A nullable number, if present, lies in the closed interval [lo, hi]. */
  predicate InRangeIfPresent(v: Option<Coordinate>, lo: real, hi: real) {
    v.Some? ==> lo <= v.value <= hi
  }

  /** `Convert.ToInt32` on a `double`: the nearest integer, a tie going to
      the even one. */
  function RoundHalfEven(x: real): (n: int)
    ensures n as real - 0.5 <= x <= n as real + 0.5
    ensures x == n as real - 0.5 || x == n as real + 0.5 ==> n % 2 == 0
  {
    var f := x.Floor;
    var frac := x - f as real;
    if frac < 0.5 then f
    else if frac > 0.5 then f + 1
    else if f % 2 == 0 then f else f + 1
  }

  /** `[Range(lo, hi)]` with `int` bounds on a nullable `double`: an absent
      value passes; a present one is converted with `Convert.ToInt32`
      before it is compared, so the fraction is rounded away first. */
  predicate IntRangeIfPresent(v: Option<Coordinate>, lo: int, hi: int) {
    v.Some? ==> lo <= RoundHalfEven(v.value) <= hi
  }

  /** With even bounds, the rounded comparison accepts exactly the closed
      interval half a unit wider on each side: both ends round to the even
      bound. */
  lemma IntRangeInterval(x: real, lo: int, hi: int)
    requires lo % 2 == 0 && hi % 2 == 0
    ensures lo <= RoundHalfEven(x) <= hi <==> lo as real - 0.5 <= x <= hi as real + 0.5
  {
  }

  /** The latitude and longitude attributes of the update payload accept
      [-90.5, 90.5] and [-180.5, 180.5]. */
  lemma CoordinateAttributes(v: Option<Coordinate>)
    ensures IntRangeIfPresent(v, -90, 90) <==> InRangeIfPresent(v, -90.5, 90.5)
    ensures IntRangeIfPresent(v, -180, 180) <==> InRangeIfPresent(v, -180.5, 180.5)
  {
    if v.Some? {
      IntRangeInterval(v.value, -90, 90);
      IntRangeInterval(v.value, -180, 180);
    }
  }

  /** 90.4 and 90.5 round to 90 and pass the latitude attribute; 90.6
      rounds to 91 and does not; -90.5 rounds to -90 and passes. */
  lemma LatitudeAttributeExamples()
    ensures IntRangeIfPresent(Some(90.4), -90, 90) && IntRangeIfPresent(Some(90.5), -90, 90)
    ensures !IntRangeIfPresent(Some(90.6), -90, 90) && IntRangeIfPresent(Some(-90.5), -90, 90)
  {
    CoordinateAttributes(Some(90.4));
    CoordinateAttributes(Some(90.5));
    CoordinateAttributes(Some(90.6));
    CoordinateAttributes(Some(-90.5));
  }

  /** `[Range(1, 1000)]` on a room capacity. */
  predicate CapacityValid(capacity: int) {
    1 <= capacity <= 1000
  }

  /** `[Range(0, double.MaxValue)]` on a decimal: every non-negative decimal
      is below `double.MaxValue`. */
  predicate MoneyValid(m: Money) {
    0.0 <= m
  }

  predicate UpdateDeviceDtoValid(d: UpdateDeviceDto) {
    Required(d.name) && MinLength(d.name, 2) && MoneyValid(d.extraCostPerHour)
  }

  predicate UpdateRoomDtoValid(r: UpdateRoomDto) {
    && Required(r.name) && MinLength(r.name, 2)
    && CapacityValid(r.capacity)
    && MoneyValid(r.pricePerHour)
    && (r.devices.Some? ==> forall i :: 0 <= i < |r.devices.value| ==> UpdateDeviceDtoValid(r.devices.value[i]))
  }

  /** `Id` is a non-nullable `int`, so `[Required]` holds of every payload. */
  predicate UpdateWorkSpaceDtoValid(w: UpdateWorkSpaceDto) {
    && Required(w.name) && MinLength(w.name, 3)
    && Required(w.description) && Required(w.address) && Required(w.city)
    && IntRangeIfPresent(w.latitude, -90, 90)
    && IntRangeIfPresent(w.longitude, -180, 180)
    && (w.rooms.Some? ==> forall i :: 0 <= i < |w.rooms.value| ==> UpdateRoomDtoValid(w.rooms.value[i]))
  }

  predicate CreateRoomDtoValid(r: CreateRoomDto) {
    && Required(r.name) && MinLength(r.name, 2)
    && CapacityValid(r.capacity)
    && MoneyValid(r.pricePerHour)
  }

  // ---------------------------------------------------------------------
  // The id convention that drives the diff

  /** The ids the identified entries carry: the "keep" set. */
  function IdentifiedDeviceIds(entries: seq<UpdateDeviceDto>): (r: set<Id>)
    ensures forall x :: x in r <==> exists i :: 0 <= i < |entries| && entries[i].id == Some(x)
  {
    set i | 0 <= i < |entries| && entries[i].id.Some? :: entries[i].id.value
  }

  function IdentifiedRoomIds(entries: seq<UpdateRoomDto>): (r: set<Id>)
    ensures forall x :: x in r <==> exists i :: 0 <= i < |entries| && entries[i].id == Some(x)
  {
    set i | 0 <= i < |entries| && entries[i].id.Some? :: entries[i].id.value
  }

  /** The entries without an id, in order: the ones that create children. */
  function NewDeviceEntries(entries: seq<UpdateDeviceDto>): (r: seq<UpdateDeviceDto>)
    ensures |r| <= |entries|
    ensures forall i :: 0 <= i < |r| ==> r[i].id.None?
  {
    if entries == [] then []
    else (if entries[0].id.None? then [entries[0]] else []) + NewDeviceEntries(entries[1..])
  }

  function NewRoomEntries(entries: seq<UpdateRoomDto>): (r: seq<UpdateRoomDto>)
    ensures |r| <= |entries|
    ensures forall i :: 0 <= i < |r| ==> r[i].id.None?
  {
    if entries == [] then []
    else (if entries[0].id.None? then [entries[0]] else []) + NewRoomEntries(entries[1..])
  }

  /** No two identified room entries carry the same id (what the editing
      form produces, since it lists each stored room once). */
  predicate DistinctRoomEntryIds(entries: seq<UpdateRoomDto>) {
    forall i, j :: 0 <= i < j < |entries| && entries[i].id.Some? ==> entries[i].id != entries[j].id
  }

  predicate DistinctDeviceEntryIds(entries: seq<UpdateDeviceDto>) {
    forall i, j :: 0 <= i < j < |entries| && entries[i].id.Some? ==> entries[i].id != entries[j].id
  }
}
