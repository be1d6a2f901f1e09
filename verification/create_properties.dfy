/** Properties of the create path (`CreateWithRoomsAsync`) and of the room
    builder it shares with the nested update: what each new room holds,
    and that creating keeps the store well formed. */
module CreateProperties {
  import opened Wrappers
  import opened Seqs
  import opened Entities
  import opened Payloads
  import opened WorkSpaceService

  /** One device per entry, in order, with the entry's fields, pointing at
      room `roomId`, with distinct ids drawn from [lo, hi). */
  predicate DevicesFor(devices: seq<Device>, ds: seq<CreateDeviceDto>, roomId: Id, lo: Id, hi: Id) {
    && |devices| == |ds|
    && NoDup(DeviceIds(devices))
    && forall k :: 0 <= k < |ds| ==>
         && devices[k].name == ds[k].name && devices[k].extraCostPerHour == ds[k].extraCostPerHour
         && devices[k].roomId == roomId && lo <= devices[k].id < hi
  }

  /** `room` is what creation entry `e` describes: id `id` in workspace `w`,
      the entry's fields, a `hasDevices` flag that agrees with its devices,
      and one device per device entry with ids drawn from [lo, hi). */
  predicate IsNewRoomFor(room: Room, e: CreateRoomDto, w: Id, id: Id, lo: Id, hi: Id) {
    && room.id == id && room.workspaceId == w
    && room.name == e.name && room.capacity == e.capacity && room.pricePerHour == e.pricePerHour
    && room.hasDevices == (|RequestedDevices(e)| > 0)
    && DevicesFor(room.devices, RequestedDevices(e), id, lo, hi)
  }

  lemma NewRoomIsNewRoomFor(e: CreateRoomDto, w: Id, id: Id, n: Id)
    ensures var u := NewRoom(e, w, id, n); IsNewRoomFor(u.room, e, w, id, n, u.nextDeviceId)
  {
    var u := NewRoom(e, w, id, n);
    RangeNoDup(n, u.nextDeviceId);
  }

  lemma IsNewRoomForWiden(room: Room, e: CreateRoomDto, w: Id, id: Id, lo: Id, lo': Id, hi: Id, hi': Id)
    requires IsNewRoomFor(room, e, w, id, lo', hi) && lo <= lo' && hi <= hi'
    ensures IsNewRoomFor(room, e, w, id, lo, hi')
  {
  }

  /** The j-th new room is what the j-th entry describes, with the j-th
      fresh room id and device ids from the range the builder consumed. */
  lemma {:induction false} NewRoomsContent(entries: seq<CreateRoomDto>, w: Id, nr: Id, nd: Id, j: nat)
    requires j < |entries|
    ensures var r := NewRooms(entries, w, nr, nd);
      IsNewRoomFor(r.rooms[j], entries[j], w, nr + j, nd, r.nextDeviceId)
    decreases |entries|, 1
  {
    if j == 0 {
      NewRoomsHead(entries, w, nr, nd);
    } else {
      NewRoomsTail(entries, w, nr, nd, j);
    }
  }

  lemma NewRoomsUnfold(entries: seq<CreateRoomDto>, w: Id, nr: Id, nd: Id)
    requires entries != []
    ensures var first := NewRoom(entries[0], w, nr, nd);
            var rest := NewRooms(entries[1..], w, nr + 1, first.nextDeviceId);
            var r := NewRooms(entries, w, nr, nd);
      r.rooms == [first.room] + rest.rooms && r.nextDeviceId == rest.nextDeviceId
      && first.nextDeviceId <= rest.nextDeviceId && nd <= first.nextDeviceId
  {
  }

  lemma NewRoomsHead(entries: seq<CreateRoomDto>, w: Id, nr: Id, nd: Id)
    requires entries != []
    ensures var r := NewRooms(entries, w, nr, nd);
      IsNewRoomFor(r.rooms[0], entries[0], w, nr, nd, r.nextDeviceId)
  {
    var first := NewRoom(entries[0], w, nr, nd);
    var rest := NewRooms(entries[1..], w, nr + 1, first.nextDeviceId);
    NewRoomsUnfold(entries, w, nr, nd);
    NewRoomIsNewRoomFor(entries[0], w, nr, nd);
    IsNewRoomForWiden(first.room, entries[0], w, nr, nd, nd, first.nextDeviceId, rest.nextDeviceId);
  }

  lemma {:induction false} NewRoomsTail(entries: seq<CreateRoomDto>, w: Id, nr: Id, nd: Id, j: nat)
    requires 0 < j < |entries|
    ensures var r := NewRooms(entries, w, nr, nd);
      IsNewRoomFor(r.rooms[j], entries[j], w, nr + j, nd, r.nextDeviceId)
    decreases |entries|, 0
  {
    var first := NewRoom(entries[0], w, nr, nd);
    var rest := NewRooms(entries[1..], w, nr + 1, first.nextDeviceId);
    NewRoomsUnfold(entries, w, nr, nd);
    NewRoomsContent(entries[1..], w, nr + 1, first.nextDeviceId, j - 1);
    assert entries[1..][j - 1] == entries[j];
    IsNewRoomForWiden(rest.rooms[j - 1], entries[j], w, nr + j, nd, first.nextDeviceId, rest.nextDeviceId, rest.nextDeviceId);
  }

  /** New rooms are well formed and their flags agree with their devices. */
  lemma NewRoomsWellFormed(entries: seq<CreateRoomDto>, w: Id, nr: Id, nd: Id)
    ensures var r := NewRooms(entries, w, nr, nd);
      && RoomsWellFormed(r.rooms, w, r.nextRoomId, r.nextDeviceId)
      && FlagsConsistent(r.rooms)
  {
    var r := NewRooms(entries, w, nr, nd);
    RangeNoDup(nr, r.nextRoomId);
    forall j | 0 <= j < |r.rooms|
      ensures RoomWellFormed(r.rooms[j], w, r.nextRoomId, r.nextDeviceId)
      ensures r.rooms[j].hasDevices == (|r.rooms[j].devices| > 0)
    {
      NewRoomsContent(entries, w, nr, nd, j);
      assert RoomIds(r.rooms)[j] == nr + j;
    }
  }

  /** The rooms a create request asks for: none when the list is null. */
  function RequestedRooms(dto: CreateWorkSpaceDto): seq<CreateRoomDto> {
    match dto.rooms case None => [] case Some(rs) => rs
  }

  /** Creating stores one room per room entry, in order, each with the
      entry's fields, fresh consecutive room ids, fresh device ids, and a
      `hasDevices` flag that agrees with its devices; the new id was free. */
  lemma CreateWithRoomsContent(s: Store, dto: CreateWorkSpaceDto)
    requires WellFormed(s)
    ensures s.nextWorkSpaceId !in s.workspaces
    ensures var r := CreateWithRooms(s, dto);
            var rooms := r.0.workspaces[s.nextWorkSpaceId].rooms;
      && |rooms| == |RequestedRooms(dto)|
      && (forall j :: 0 <= j < |rooms| ==>
            IsNewRoomFor(rooms[j], RequestedRooms(dto)[j], s.nextWorkSpaceId,
                         s.nextRoomId + j, s.nextDeviceId, r.0.nextDeviceId))
      && FlagsConsistent(rooms)
  {
    var id := s.nextWorkSpaceId;
    var entries := RequestedRooms(dto);
    assert (if dto.rooms.Some? && |dto.rooms.value| > 0 then dto.rooms.value else []) == entries;
    var built := NewRooms(entries, id, s.nextRoomId, s.nextDeviceId);
    forall j | 0 <= j < |built.rooms|
      ensures IsNewRoomFor(built.rooms[j], entries[j], id, s.nextRoomId + j, s.nextDeviceId, built.nextDeviceId)
    {
      NewRoomsContent(entries, id, s.nextRoomId, s.nextDeviceId, j);
    }
    NewRoomsWellFormed(entries, id, s.nextRoomId, s.nextDeviceId);
  }

  /** Creating keeps the store well formed. */
  lemma CreateWithRoomsWellFormed(s: Store, dto: CreateWorkSpaceDto)
    requires WellFormed(s)
    ensures WellFormed(CreateWithRooms(s, dto).0)
  {
    var id := s.nextWorkSpaceId;
    var entries := RequestedRooms(dto);
    assert (if dto.rooms.Some? && |dto.rooms.value| > 0 then dto.rooms.value else []) == entries;
    var built := NewRooms(entries, id, s.nextRoomId, s.nextDeviceId);
    NewRoomsWellFormed(entries, id, s.nextRoomId, s.nextDeviceId);
    var s' := CreateWithRooms(s, dto).0;
    forall k | k in s'.workspaces && k != id
      ensures RoomsWellFormed(s'.workspaces[k].rooms, k, s'.nextRoomId, s'.nextDeviceId)
    {
      RoomsWellFormedMono(s.workspaces[k].rooms, k, s.nextRoomId, s.nextDeviceId, s'.nextRoomId, s'.nextDeviceId);
    }
  }
}
