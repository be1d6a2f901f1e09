/** `DtoMapper` (DtoMapper.cs): the room entity to response mapping and
    back. The entity is seen as it sits in memory: the row, the owning
    workspace navigation (null unless loaded) and whether the device
    collection reference is null. */
module DtoMapper {
  import opened Wrappers
  import opened Entities
  import opened Dtos
  import WorkSpaceService

  /** A room entity object: its columns and devices (`row`), the
      `WorkSpace` navigation, and a null `Devices` reference when
      `devicesNull` holds (the collection is empty then). */
  datatype RoomEntity = RoomEntity(row: Room, workSpace: Option<WorkSpace>, devicesNull: bool)

  /** The workspace header `ToDto` nests: scalar columns only, no
      coordinates and no rooms, so the response has no cycle. */
  function WorkSpaceHeader(w: WorkSpace): (v: WorkSpaceDto)
    ensures v.rooms.None? && v.latitude.None? && v.longitude.None?
    ensures v.id == w.id && v.name == w.name && v.description == w.description
    ensures v.address == w.address && v.city == w.city
  {
    WorkSpaceDto(w.id, w.name, w.description, w.address, w.city, None, None, None)
  }

  /** `ToDto(Room)` (lines 8-35); a null room maps to null. The stored
      `HasDevices` column is copied as it is. */
  function ToDto(room: Option<RoomEntity>): (r: Option<RoomDto>)
    ensures r.None? <==> room.None?
    ensures room.Some? ==>
      var e := room.value;
      && r.value.id == e.row.id && r.value.name == e.row.name && r.value.capacity == e.row.capacity
      && r.value.hasDevices == e.row.hasDevices && r.value.pricePerHour == e.row.pricePerHour
      && r.value.workspaceId == e.row.workspaceId
      && (r.value.workSpace.None? <==> e.workSpace.None?)
      && (r.value.workSpace.Some? ==> r.value.workSpace.value.rooms.None?)
      && (r.value.devices.None? <==> e.devicesNull)
  {
    match room
    case None => None
    case Some(e) =>
      var ws := match e.workSpace case None => None case Some(w) => Some(WorkSpaceHeader(w));
      var devices :=
        if e.devicesNull then None
        else Some(seq(|e.row.devices|, i requires 0 <= i < |e.row.devices| => WorkSpaceService.ProjectDevice(e.row.devices[i])));
      Some(RoomDto(e.row.id, e.row.name, e.row.capacity, e.row.hasDevices, e.row.pricePerHour,
                   e.row.workspaceId, ws, devices))
  }

  /** `ToEntity(RoomDto)` (lines 37-49); a null response maps to null. The
      new entity has an empty device collection and no workspace
      navigation. */
  function ToEntity(dto: Option<RoomDto>): (r: Option<RoomEntity>)
    ensures r.None? <==> dto.None?
    ensures r.Some? ==> r.value.row.devices == [] && r.value.workSpace.None? && !r.value.devicesNull
  {
    match dto
    case None => None
    case Some(d) =>
      Some(RoomEntity(Room(d.id, d.name, d.capacity, d.hasDevices, d.pricePerHour, d.workspaceId, []), None, false))
  }

  /** The devices of a mapped room are the room's devices, in order, with
      id, name, cost and room id copied: the read projection's devices. */
  lemma ToDtoDevices(e: RoomEntity)
    requires !e.devicesNull
    ensures var v := ToDto(Some(e)).value;
      && v.devices.Some? && |v.devices.value| == |e.row.devices|
      && (forall i :: 0 <= i < |e.row.devices| ==>
            var d := e.row.devices[i];
            v.devices.value[i] == DeviceDto(d.id, d.name, d.extraCostPerHour, d.roomId))
      && v.devices == WorkSpaceService.ProjectRoom(e.row).devices
  {
  }

  /** Entity to response and back keeps every column; only the devices and
      the navigation are lost. */
  lemma EntityRoundTrip(e: RoomEntity)
    ensures ToEntity(ToDto(Some(e))) == Some(RoomEntity(e.row.(devices := []), None, false))
  {
  }

  /** Response to entity and back keeps every scalar; the nested workspace
      is dropped and the devices come back as an empty list. */
  lemma DtoRoundTrip(d: RoomDto)
    ensures ToDto(ToEntity(Some(d))) == Some(d.(workSpace := None, devices := Some([])))
  {
    var v := ToDto(ToEntity(Some(d))).value;
    assert v.devices.value == [];
  }

  /** `ToDto` reports the stored column, the read projection recomputes it:
      they agree exactly when the column agrees with the devices. */
  lemma ToDtoFlagAgreesWithProjection(e: RoomEntity)
    ensures ToDto(Some(e)).value.hasDevices == WorkSpaceService.ProjectRoom(e.row).hasDevices
        <==> FlagsConsistent([e.row])
  {
    assert [e.row][0] == e.row;
  }
}
