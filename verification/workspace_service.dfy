/** The workspace service: the read projection, the nested create, the
    nested update (the two-level reconciler) and the delete, each a pure
    function from the store before to the store after. Identity columns are
    modelled by the store's counters: every inserted row takes the next
    value of its table's counter, in the order the rows are built. */
module WorkSpaceService {
  import opened Wrappers
  import opened Seqs
  import opened Entities
  import opened Dtos
  import opened Payloads

  /** The `KeyNotFoundException` the nested update throws. */
  datatype ServiceError = KeyNotFound(id: Id)

  // =====================================================================
  // Read projection (GetByIdAsync / GetAllAsync)

  function ProjectDevice(d: Device): DeviceDto {
    DeviceDto(d.id, d.name, d.extraCostPerHour, d.roomId)
  }

  /** A room as the read side returns it: `hasDevices` is recomputed from
      the device list, whatever the stored column says. */
  function ProjectRoom(r: Room): (v: RoomDto)
    ensures v.hasDevices <==> |r.devices| > 0
    ensures v.id == r.id && v.workspaceId == r.workspaceId && v.workSpace.None?
    ensures v.name == r.name && v.capacity == r.capacity && v.pricePerHour == r.pricePerHour
    ensures v.devices.Some? && |v.devices.value| == |r.devices|
    ensures forall i :: 0 <= i < |r.devices| ==> v.devices.value[i] == ProjectDevice(r.devices[i])
  {
    RoomDto(
      r.id, r.name, r.capacity, |r.devices| > 0, r.pricePerHour, r.workspaceId, None,
      Some(seq(|r.devices|, i requires 0 <= i < |r.devices| => ProjectDevice(r.devices[i]))))
  }

  function Project(w: WorkSpace): (v: WorkSpaceDto)
    ensures v.id == w.id && v.name == w.name && v.description == w.description
    ensures v.address == w.address && v.city == w.city
    ensures v.latitude == w.latitude && v.longitude == w.longitude
    ensures v.rooms.Some? && |v.rooms.value| == |w.rooms|
    ensures forall i :: 0 <= i < |w.rooms| ==> v.rooms.value[i] == ProjectRoom(w.rooms[i])
  {
    WorkSpaceDto(
      w.id, w.name, w.description, w.address, w.city, w.latitude, w.longitude,
      Some(seq(|w.rooms|, i requires 0 <= i < |w.rooms| => ProjectRoom(w.rooms[i]))))
  }

  /** `GetByIdAsync`: absence (not an error) when the id is unknown. */
  function GetById(s: Store, id: Id): (r: Option<WorkSpaceDto>)
    ensures r.None? <==> id !in s.workspaces
    ensures r.Some? ==> r.value == Project(s.workspaces[id])
  {
    if id in s.workspaces then Some(Project(s.workspaces[id])) else None
  }

  /** `GetAllAsync`, keyed by workspace id (the store's row order is not
      modelled). */
  function GetAll(s: Store): (r: map<Id, WorkSpaceDto>)
    ensures r.Keys == s.workspaces.Keys
    ensures forall k :: k in r ==> Some(r[k]) == GetById(s, k)
  {
    map k | k in s.workspaces :: Project(s.workspaces[k])
  }

  // =====================================================================
  // Building new rows (shared by the create path and by new entries of the
  // update path, which build rooms and devices the same way)

  /** One new device per entry, in order, with consecutive fresh ids. */
  function NewDevices(entries: seq<CreateDeviceDto>, roomId: Id, next: Id): (r: seq<Device>)
    ensures |r| == |entries|
    ensures DeviceIds(r) == Range(next, next + |entries|)
    ensures forall j :: 0 <= j < |entries| ==>
      r[j] == Device(next + j, entries[j].name, entries[j].extraCostPerHour, roomId)
    decreases |entries|
  {
    if entries == [] then []
    else
      var rest := NewDevices(entries[1..], roomId, next + 1);
      var r := [Device(next, entries[0].name, entries[0].extraCostPerHour, roomId)] + rest;
      assert DeviceIds(r) == [next] + DeviceIds(rest);
      r
  }

  /** An update-path device entry used as a creation entry: its id, if it
      has one, is ignored. */
  function AsCreateDevices(entries: seq<UpdateDeviceDto>): (r: seq<CreateDeviceDto>)
    ensures |r| == |entries|
    ensures forall j :: 0 <= j < |entries| ==>
      r[j] == CreateDeviceDto(entries[j].name, entries[j].extraCostPerHour)
    decreases |entries|
  {
    if entries == [] then []
    else [CreateDeviceDto(entries[0].name, entries[0].extraCostPerHour)] + AsCreateDevices(entries[1..])
  }

  function AsCreateRoom(e: UpdateRoomDto): CreateRoomDto {
    CreateRoomDto(e.name, e.capacity, e.pricePerHour,
      match e.devices case None => None case Some(ds) => Some(AsCreateDevices(ds)))
  }

  /** The devices a creation entry asks for: none when the list is null. */
  function RequestedDevices(e: CreateRoomDto): seq<CreateDeviceDto> {
    match e.devices case None => [] case Some(ds) => ds
  }

  datatype NewRoomResult = NewRoomResult(room: Room, nextDeviceId: Id)

  /** A new room built from a creation entry: it takes `roomId`, points at
      its workspace, owns one fresh device per device entry and records
      whether that list is non-empty. */
  function NewRoom(e: CreateRoomDto, workspaceId: Id, roomId: Id, nextDeviceId: Id): (r: NewRoomResult)
    ensures r.room.id == roomId && r.room.workspaceId == workspaceId
    ensures r.room.name == e.name && r.room.capacity == e.capacity && r.room.pricePerHour == e.pricePerHour
    ensures r.room.devices == NewDevices(RequestedDevices(e), roomId, nextDeviceId)
    ensures r.room.hasDevices <==> |r.room.devices| > 0
    ensures r.nextDeviceId == nextDeviceId + |RequestedDevices(e)|
  {
    var hasDevices := e.devices.Some? && |e.devices.value| > 0;
    var devices :=
      if e.devices.Some? && |e.devices.value| > 0
      then NewDevices(e.devices.value, roomId, nextDeviceId)
      else [];
    NewRoomResult(
      Room(roomId, e.name, e.capacity, hasDevices, e.pricePerHour, workspaceId, devices),
      nextDeviceId + |devices|)
  }

  // =====================================================================
  // CreateWithRoomsAsync

  datatype NewRoomsResult = NewRoomsResult(rooms: seq<Room>, nextRoomId: Id, nextDeviceId: Id)

  /** One new room per entry, in order, rooms and devices taking fresh ids. */
  function NewRooms(entries: seq<CreateRoomDto>, workspaceId: Id, nextRoomId: Id, nextDeviceId: Id): (r: NewRoomsResult)
    ensures |r.rooms| == |entries|
    ensures r.nextRoomId == nextRoomId + |entries|
    ensures RoomIds(r.rooms) == Range(nextRoomId, r.nextRoomId)
    ensures nextDeviceId <= r.nextDeviceId
    decreases |entries|
  {
    if entries == [] then NewRoomsResult([], nextRoomId, nextDeviceId)
    else
      var first := NewRoom(entries[0], workspaceId, nextRoomId, nextDeviceId);
      var rest := NewRooms(entries[1..], workspaceId, nextRoomId + 1, first.nextDeviceId);
      assert RoomIds([first.room] + rest.rooms) == [nextRoomId] + RoomIds(rest.rooms);
      NewRoomsResult([first.room] + rest.rooms, rest.nextRoomId, rest.nextDeviceId)
  }

  /** `CreateWithRoomsAsync`: inserts a new workspace under a fresh id with
      one room per room entry and one device per device entry, and returns
      the projection of what was stored. */
  function CreateWithRooms(s: Store, dto: CreateWorkSpaceDto): (r: (Store, WorkSpaceDto))
    ensures var id := s.nextWorkSpaceId;
      && r.0.workspaces.Keys == s.workspaces.Keys + {id}
      && r.0.nextWorkSpaceId == id + 1
      && GetById(r.0, id) == Some(r.1)
      && r.1.id == id && r.1.name == dto.name && r.1.description == dto.description
      && r.1.address == dto.address && r.1.city == dto.city
      && r.1.latitude == dto.latitude && r.1.longitude == dto.longitude
    ensures forall k :: k in s.workspaces && k != s.nextWorkSpaceId ==> r.0.workspaces[k] == s.workspaces[k]
    ensures s.nextRoomId <= r.0.nextRoomId && s.nextDeviceId <= r.0.nextDeviceId
  {
    var id := s.nextWorkSpaceId;
    var entries := if dto.rooms.Some? && |dto.rooms.value| > 0 then dto.rooms.value else [];
    var built := NewRooms(entries, id, s.nextRoomId, s.nextDeviceId);
    var w := WorkSpace(id, dto.name, dto.description, dto.address, dto.city, dto.latitude, dto.longitude, built.rooms);
    var s' := Store(s.workspaces[id := w], id + 1, built.nextRoomId, built.nextDeviceId);
    (s', Project(w))
  }

  // =====================================================================
  // UpdateWithRoomsAsync, device level (lines 219-249)

  /** The stored devices whose id is in `keep`, in their stored order: the
      others are deleted. */
  function KeepDevices(devices: seq<Device>, keep: set<Id>): (r: seq<Device>)
    ensures |r| <= |devices|
    ensures forall i :: 0 <= i < |r| ==> r[i].id in keep
  {
    if devices == [] then []
    else (if devices[0].id in keep then [devices[0]] else []) + KeepDevices(devices[1..], keep)
  }

  /** A stored device with name and cost taken from an entry. */
  function OverwriteDevice(d: Device, e: UpdateDeviceDto): (r: Device)
    ensures r.id == d.id && r.roomId == d.roomId
    ensures r.name == e.name && r.extraCostPerHour == e.extraCostPerHour
  {
    d.(name := e.name, extraCostPerHour := e.extraCostPerHour)
  }

  /** An identified device entry: overwrite name and cost of the first
      device with that id; an id that matches nothing changes nothing. */
  function UpdateExistingDevice(devices: seq<Device>, e: UpdateDeviceDto): (r: seq<Device>)
    requires e.id.Some?
    ensures |r| == |devices| && DeviceIds(r) == DeviceIds(devices)
    ensures forall i :: 0 <= i < |devices| ==> r[i].roomId == devices[i].roomId
    ensures e.id.value !in DeviceIds(devices) ==> r == devices
  {
    match IndexOf(DeviceIds(devices), e.id.value)
    case None => devices
    case Some(i) => devices[i := OverwriteDevice(devices[i], e)]
  }

  /** The state of the device loop: stored devices being updated in place,
      devices added so far, and the device counter. */
  datatype DevicesAcc = DevicesAcc(kept: seq<Device>, added: seq<Device>, nextDeviceId: Id)

  /** One iteration of the device loop (lines 231-247); a new device is
      built as the create path builds it. */
  function ApplyDeviceEntry(acc: DevicesAcc, e: UpdateDeviceDto, roomId: Id): (r: DevicesAcc)
    ensures DeviceIds(r.kept) == DeviceIds(acc.kept)
    ensures forall i :: 0 <= i < |acc.kept| ==> r.kept[i].roomId == acc.kept[i].roomId
    ensures e.id.Some? ==> r.added == acc.added && r.nextDeviceId == acc.nextDeviceId
    ensures e.id.None? ==>
      && r.kept == acc.kept
      && r.added == acc.added + [Device(acc.nextDeviceId, e.name, e.extraCostPerHour, roomId)]
      && DeviceIds(r.added) == DeviceIds(acc.added) + [acc.nextDeviceId]
      && r.nextDeviceId == acc.nextDeviceId + 1
  {
    if e.id.Some? then acc.(kept := UpdateExistingDevice(acc.kept, e))
    else
      var d := Device(acc.nextDeviceId, e.name, e.extraCostPerHour, roomId);
      DeviceIdsAppend(acc.added, [d]);
      acc.(added := acc.added + [d], nextDeviceId := acc.nextDeviceId + 1)
  }

  /** The loop over a room entry's device entries, in payload order: the
      devices it adds are those the unidentified entries describe, in order,
      with consecutive fresh ids. */
  function ApplyDeviceEntries(acc: DevicesAcc, entries: seq<UpdateDeviceDto>, roomId: Id): (r: DevicesAcc)
    ensures DeviceIds(r.kept) == DeviceIds(acc.kept)
    ensures forall i :: 0 <= i < |acc.kept| ==> r.kept[i].roomId == acc.kept[i].roomId
    ensures r.nextDeviceId == acc.nextDeviceId + |NewDeviceEntries(entries)|
    ensures DeviceIds(r.added) == DeviceIds(acc.added) + Range(acc.nextDeviceId, r.nextDeviceId)
    decreases |entries|
  {
    if entries == [] then acc
    else
      var e := entries[0];
      assert entries == [e] + entries[1..];
      assert NewDeviceEntries(entries) == (if e.id.None? then [e] else []) + NewDeviceEntries(entries[1..]);
      var acc' := ApplyDeviceEntry(acc, e, roomId);
      DeviceIdsAppend(acc.added, acc'.added[|acc.added|..]);
      assert acc'.added == acc.added + acc'.added[|acc.added|..];
      ApplyDeviceEntries(acc', entries[1..], roomId)
  }

  datatype DevicesResult = DevicesResult(devices: seq<Device>, nextDeviceId: Id)

  /** Reconcile a matched room's device list with a non-null list of
      device entries. */
  function ReconcileDevices(devices: seq<Device>, entries: seq<UpdateDeviceDto>, roomId: Id, nextDeviceId: Id): (r: DevicesResult)
    ensures r.nextDeviceId == nextDeviceId + |NewDeviceEntries(entries)|
    ensures DeviceIds(r.devices) ==
      DeviceIds(KeepDevices(devices, IdentifiedDeviceIds(entries)))
      + Range(nextDeviceId, r.nextDeviceId)
  {
    var kept := KeepDevices(devices, IdentifiedDeviceIds(entries));
    var acc := ApplyDeviceEntries(DevicesAcc(kept, [], nextDeviceId), entries, roomId);
    DeviceIdsAppend(acc.kept, acc.added);
    DevicesResult(acc.kept + acc.added, acc.nextDeviceId)
  }

  lemma DeviceIdsAppend(a: seq<Device>, b: seq<Device>)
    ensures DeviceIds(a + b) == DeviceIds(a) + DeviceIds(b)
  {
  }

  lemma RoomIdsAppend(a: seq<Room>, b: seq<Room>)
    ensures RoomIds(a + b) == RoomIds(a) + RoomIds(b)
  {
  }

  // =====================================================================
  // UpdateWithRoomsAsync, room level (lines 192-279)

  /** The stored rooms whose id is in `keep`, in their stored order: the
      others are deleted, with their devices. */
  function KeepRooms(rooms: seq<Room>, keep: set<Id>): (r: seq<Room>)
    ensures |r| <= |rooms|
    ensures forall i :: 0 <= i < |r| ==> r[i].id in keep
  {
    if rooms == [] then []
    else (if rooms[0].id in keep then [rooms[0]] else []) + KeepRooms(rooms[1..], keep)
  }

  /** The stored `hasDevices` an update writes: taken from the entry's
      device list, not from the devices the room ends up with. */
  function EntryHasDevices(e: UpdateRoomDto): bool {
    e.devices.Some? && |e.devices.value| > 0
  }

  datatype RoomUpdate = RoomUpdate(room: Room, nextDeviceId: Id)

  /** A matched room: scalar fields overwritten, `hasDevices` taken from the
      entry, devices reconciled when the entry's list is non-null. */
  function ReconcileRoom(r: Room, e: UpdateRoomDto, nextDeviceId: Id): (u: RoomUpdate)
    ensures u.room.id == r.id && u.room.workspaceId == r.workspaceId
    ensures u.room.name == e.name && u.room.capacity == e.capacity && u.room.pricePerHour == e.pricePerHour
    ensures u.room.hasDevices == EntryHasDevices(e)
    ensures e.devices.None? ==> u.room.devices == r.devices && u.nextDeviceId == nextDeviceId
    ensures nextDeviceId <= u.nextDeviceId
  {
    var updated := r.(name := e.name, capacity := e.capacity, pricePerHour := e.pricePerHour,
                      hasDevices := EntryHasDevices(e));
    match e.devices
    case None => RoomUpdate(updated, nextDeviceId)
    case Some(ds) =>
      var d := ReconcileDevices(r.devices, ds, r.id, nextDeviceId);
      RoomUpdate(updated.(devices := d.devices), d.nextDeviceId)
  }

  /** An identified room entry: reconcile the first stored room with that
      id; an id that matches no stored room is silently dropped. */
  function UpdateExistingRoom(rooms: seq<Room>, e: UpdateRoomDto, nextDeviceId: Id): (r: (seq<Room>, Id))
    requires e.id.Some?
    ensures |r.0| == |rooms| && RoomIds(r.0) == RoomIds(rooms)
    ensures forall i :: 0 <= i < |rooms| ==> r.0[i].workspaceId == rooms[i].workspaceId
    ensures e.id.value !in RoomIds(rooms) ==> r == (rooms, nextDeviceId)
    ensures nextDeviceId <= r.1
  {
    match IndexOf(RoomIds(rooms), e.id.value)
    case None => (rooms, nextDeviceId)
    case Some(i) =>
      var u := ReconcileRoom(rooms[i], e, nextDeviceId);
      (rooms[i := u.room], u.nextDeviceId)
  }

  /** The state of the room loop: stored rooms being updated in place and
      the device counter. */
  datatype RoomsAcc = RoomsAcc(kept: seq<Room>, nextDeviceId: Id)

  /** One iteration of the room loop for an identified entry (lines
      209-250); unidentified entries are handled by `AddedRooms`. */
  function ApplyRoomEntry(acc: RoomsAcc, e: UpdateRoomDto): (r: RoomsAcc)
    ensures RoomIds(r.kept) == RoomIds(acc.kept)
    ensures forall i :: 0 <= i < |acc.kept| ==> r.kept[i].workspaceId == acc.kept[i].workspaceId
    ensures e.id.None? ==> r == acc
    ensures acc.nextDeviceId <= r.nextDeviceId
  {
    if e.id.None? then acc
    else
      var u := UpdateExistingRoom(acc.kept, e, acc.nextDeviceId);
      RoomsAcc(u.0, u.1)
  }

  /** The loop over the payload's room entries, in payload order, as it
      affects the stored rooms. */
  function ApplyRoomEntries(acc: RoomsAcc, entries: seq<UpdateRoomDto>): (r: RoomsAcc)
    ensures RoomIds(r.kept) == RoomIds(acc.kept)
    ensures forall i :: 0 <= i < |acc.kept| ==> r.kept[i].workspaceId == acc.kept[i].workspaceId
    ensures acc.nextDeviceId <= r.nextDeviceId
    decreases |entries|
  {
    if entries == [] then acc
    else ApplyRoomEntries(ApplyRoomEntry(acc, entries[0]), entries[1..])
  }

  /** The unidentified entries as creation entries, in payload order. */
  function AsCreateRooms(entries: seq<UpdateRoomDto>): (r: seq<CreateRoomDto>)
    ensures |r| == |entries| && forall j :: 0 <= j < |entries| ==> r[j] == AsCreateRoom(entries[j])
  {
    seq(|entries|, j requires 0 <= j < |entries| => AsCreateRoom(entries[j]))
  }

  /** The rooms the unidentified entries add (lines 252-275): built exactly
      as the create path builds rooms, in payload order. */
  function AddedRooms(entries: seq<UpdateRoomDto>, workspaceId: Id, nextRoomId: Id, nextDeviceId: Id): (r: NewRoomsResult)
    ensures |r.rooms| == |NewRoomEntries(entries)|
    ensures r.nextRoomId == nextRoomId + |NewRoomEntries(entries)|
    ensures RoomIds(r.rooms) == Range(nextRoomId, r.nextRoomId)
    ensures nextDeviceId <= r.nextDeviceId
  {
    NewRooms(AsCreateRooms(NewRoomEntries(entries)), workspaceId, nextRoomId, nextDeviceId)
  }

  /** Reconcile a workspace's room list with a non-null list of room
      entries: delete unlisted rooms, update matched ones in place, append
      new ones. */
  function ReconcileRooms(rooms: seq<Room>, entries: seq<UpdateRoomDto>, workspaceId: Id, nextRoomId: Id, nextDeviceId: Id): (r: NewRoomsResult)
    ensures r.nextRoomId == nextRoomId + |NewRoomEntries(entries)|
    ensures RoomIds(r.rooms) ==
      RoomIds(KeepRooms(rooms, IdentifiedRoomIds(entries))) + Range(nextRoomId, r.nextRoomId)
    ensures nextDeviceId <= r.nextDeviceId
  {
    var kept := KeepRooms(rooms, IdentifiedRoomIds(entries));
    var acc := ApplyRoomEntries(RoomsAcc(kept, nextDeviceId), entries);
    var added := AddedRooms(entries, workspaceId, nextRoomId, acc.nextDeviceId);
    RoomIdsAppend(acc.kept, added.rooms);
    NewRoomsResult(acc.kept + added.rooms, added.nextRoomId, added.nextDeviceId)
  }

  /** `UpdateWithRoomsAsync`: overwrite the workspace's scalar fields and,
      when the payload's room list is non-null, reconcile the rooms; an
      unknown workspace id fails and leaves the store as it was. The result
      is the projection a subsequent read returns. */
  function UpdateWithRooms(s: Store, dto: UpdateWorkSpaceDto): (r: (Store, Result<WorkSpaceDto, ServiceError>))
    ensures dto.id !in s.workspaces ==> r == (s, Failure(KeyNotFound(dto.id)))
    ensures dto.id in s.workspaces ==>
      && r.0.workspaces.Keys == s.workspaces.Keys
      && r.1.Success? && GetById(r.0, dto.id) == Some(r.1.value)
      && var w := r.0.workspaces[dto.id];
         && w.id == s.workspaces[dto.id].id
         && w.name == dto.name && w.description == dto.description
         && w.address == dto.address && w.city == dto.city
         && w.latitude == dto.latitude && w.longitude == dto.longitude
         && (dto.rooms.None? ==> w.rooms == s.workspaces[dto.id].rooms && r.0 == s.(workspaces := r.0.workspaces))
    ensures forall k :: k in s.workspaces && k != dto.id ==> r.0.workspaces[k] == s.workspaces[k]
    ensures r.0.nextWorkSpaceId == s.nextWorkSpaceId
    ensures s.nextRoomId <= r.0.nextRoomId && s.nextDeviceId <= r.0.nextDeviceId
  {
    if dto.id !in s.workspaces then (s, Failure(KeyNotFound(dto.id)))
    else
      var w := s.workspaces[dto.id];
      var scalars := w.(name := dto.name, description := dto.description, address := dto.address,
                        city := dto.city, latitude := dto.latitude, longitude := dto.longitude);
      match dto.rooms
      case None =>
        var s' := s.(workspaces := s.workspaces[dto.id := scalars]);
        (s', Success(Project(scalars)))
      case Some(entries) =>
        var rooms := ReconcileRooms(w.rooms, entries, w.id, s.nextRoomId, s.nextDeviceId);
        var updated := scalars.(rooms := rooms.rooms);
        var s' := Store(s.workspaces[dto.id := updated], s.nextWorkSpaceId, rooms.nextRoomId, rooms.nextDeviceId);
        (s', Success(Project(updated)))
  }

  // =====================================================================
  // DeleteAsync

  /** `DeleteAsync`: remove the workspace and, by cascade, every room and
      device it owns; an unknown id is a no-op. */
  function Delete(s: Store, id: Id): (r: Store)
    ensures GetById(r, id).None?
    ensures r.workspaces.Keys == s.workspaces.Keys - {id}
    ensures forall k :: k in r.workspaces ==> r.workspaces[k] == s.workspaces[k]
    ensures id !in s.workspaces ==> r == s
    ensures r.nextWorkSpaceId == s.nextWorkSpaceId && r.nextRoomId == s.nextRoomId && r.nextDeviceId == s.nextDeviceId
  {
    if id in s.workspaces then s.(workspaces := s.workspaces - {id}) else s
  }
}
