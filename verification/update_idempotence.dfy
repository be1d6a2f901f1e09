/** Saving back what was read changes nothing: the update payload that
    lists every stored room and device with its stored id and fields is a
    no-op on a well-formed store whose `hasDevices` flags agree with the
    device lists. */
module UpdateIdempotence {
  import opened Wrappers
  import opened Seqs
  import opened Entities
  import opened Payloads
  import opened WorkSpaceService
  import opened ReconcileProperties

  function MirrorDevice(d: Device): UpdateDeviceDto {
    UpdateDeviceDto(Some(d.id), d.name, d.extraCostPerHour)
  }

  function MirrorDevices(ds: seq<Device>): (r: seq<UpdateDeviceDto>)
    ensures |r| == |ds| && forall i :: 0 <= i < |ds| ==> r[i] == MirrorDevice(ds[i])
  {
    seq(|ds|, i requires 0 <= i < |ds| => MirrorDevice(ds[i]))
  }

  function MirrorRoom(r: Room): UpdateRoomDto {
    UpdateRoomDto(Some(r.id), r.name, r.capacity, r.pricePerHour, Some(MirrorDevices(r.devices)))
  }

  function MirrorRooms(rooms: seq<Room>): (r: seq<UpdateRoomDto>)
    ensures |r| == |rooms| && forall i :: 0 <= i < |rooms| ==> r[i] == MirrorRoom(rooms[i])
  {
    seq(|rooms|, i requires 0 <= i < |rooms| => MirrorRoom(rooms[i]))
  }

  /** The payload that lists a workspace exactly as it is stored. */
  function MirrorWorkSpace(w: WorkSpace): UpdateWorkSpaceDto {
    UpdateWorkSpaceDto(w.id, w.name, w.description, w.address, w.city, w.latitude, w.longitude,
      Some(MirrorRooms(w.rooms)))
  }

  // ---------------------------------------------------------------------
  // Devices

  lemma {:induction false} KeepAllDevices(devices: seq<Device>, keep: set<Id>)
    requires forall i :: 0 <= i < |devices| ==> devices[i].id in keep
    ensures KeepDevices(devices, keep) == devices
  {
    if devices != [] {
      KeepAllDevices(devices[1..], keep);
      assert devices == [devices[0]] + devices[1..];
    }
  }

  /** Under distinct ids, the position of a listed device is the position
      of its id. */
  lemma IndexOfDevice(devices: seq<Device>, d: Device) returns (k: nat)
    requires NoDup(DeviceIds(devices)) && d in devices
    ensures IndexOf(DeviceIds(devices), d.id) == Some(k) && k < |devices| && devices[k] == d
  {
    var m :| 0 <= m < |devices| && devices[m] == d;
    assert DeviceIds(devices)[m] == d.id;
    k := IndexOf(DeviceIds(devices), d.id).value;
    assert DeviceIds(devices)[k] == DeviceIds(devices)[m];
  }

  lemma ApplyMirrorDevice(acc: DevicesAcc, d: Device, roomId: Id)
    requires NoDup(DeviceIds(acc.kept)) && d in acc.kept
    ensures ApplyDeviceEntry(acc, MirrorDevice(d), roomId) == acc
  {
    var k := IndexOfDevice(acc.kept, d);
    assert acc.kept[k := OverwriteDevice(d, MirrorDevice(d))] == acc.kept;
  }

  lemma {:induction false} ApplyMirrorDevices(acc: DevicesAcc, xs: seq<Device>, roomId: Id)
    requires NoDup(DeviceIds(acc.kept))
    requires forall i :: 0 <= i < |xs| ==> xs[i] in acc.kept
    ensures ApplyDeviceEntries(acc, MirrorDevices(xs), roomId) == acc
    decreases |xs|
  {
    if xs != [] {
      var entries := MirrorDevices(xs);
      assert entries[1..] == MirrorDevices(xs[1..]);
      ApplyMirrorDevice(acc, xs[0], roomId);
      ApplyMirrorDevices(acc, xs[1..], roomId);
    }
  }

  /** Reconciling a device list with its own mirror changes nothing and
      creates nothing. */
  lemma ReconcileMirrorDevices(devices: seq<Device>, roomId: Id, nd: Id)
    requires NoDup(DeviceIds(devices))
    ensures ReconcileDevices(devices, MirrorDevices(devices), roomId, nd) == DevicesResult(devices, nd)
  {
    var entries := MirrorDevices(devices);
    var keep := IdentifiedDeviceIds(entries);
    forall i | 0 <= i < |devices| ensures devices[i].id in keep {
      assert entries[i].id == Some(devices[i].id);
    }
    KeepAllDevices(devices, keep);
    ApplyMirrorDevices(DevicesAcc(devices, [], nd), devices, roomId);
  }

  // ---------------------------------------------------------------------
  // Rooms

  lemma {:induction false} KeepAllRooms(rooms: seq<Room>, keep: set<Id>)
    requires forall i :: 0 <= i < |rooms| ==> rooms[i].id in keep
    ensures KeepRooms(rooms, keep) == rooms
  {
    if rooms != [] {
      KeepAllRooms(rooms[1..], keep);
      assert rooms == [rooms[0]] + rooms[1..];
    }
  }

  lemma IndexOfRoom(rooms: seq<Room>, r: Room) returns (k: nat)
    requires NoDup(RoomIds(rooms)) && r in rooms
    ensures IndexOf(RoomIds(rooms), r.id) == Some(k) && k < |rooms| && rooms[k] == r
  {
    var m :| 0 <= m < |rooms| && rooms[m] == r;
    assert RoomIds(rooms)[m] == r.id;
    k := IndexOf(RoomIds(rooms), r.id).value;
    assert RoomIds(rooms)[k] == RoomIds(rooms)[m];
  }

  /** A room reconciled with its own mirror is unchanged, provided its flag
      agrees with its devices. */
  lemma ReconcileMirrorRoom(room: Room, nd: Id)
    requires NoDup(DeviceIds(room.devices))
    requires room.hasDevices == (|room.devices| > 0)
    ensures ReconcileRoom(room, MirrorRoom(room), nd) == RoomUpdate(room, nd)
  {
    ReconcileMirrorDevices(room.devices, room.id, nd);
  }

  /** Every room in the list has distinct device ids and a consistent flag. */
  predicate MirrorSafe(rooms: seq<Room>) {
    forall i :: 0 <= i < |rooms| ==>
      NoDup(DeviceIds(rooms[i].devices)) && rooms[i].hasDevices == (|rooms[i].devices| > 0)
  }

  lemma ApplyMirrorRoom(acc: RoomsAcc, r: Room)
    requires NoDup(RoomIds(acc.kept)) && MirrorSafe(acc.kept) && r in acc.kept
    ensures ApplyRoomEntry(acc, MirrorRoom(r)) == acc
  {
    var k := IndexOfRoom(acc.kept, r);
    ReconcileMirrorRoom(r, acc.nextDeviceId);
    assert acc.kept[k := r] == acc.kept;
  }

  lemma {:induction false} ApplyMirrorRooms(acc: RoomsAcc, xs: seq<Room>)
    requires NoDup(RoomIds(acc.kept)) && MirrorSafe(acc.kept)
    requires forall i :: 0 <= i < |xs| ==> xs[i] in acc.kept
    ensures ApplyRoomEntries(acc, MirrorRooms(xs)) == acc
    decreases |xs|
  {
    if xs != [] {
      var entries := MirrorRooms(xs);
      assert entries[1..] == MirrorRooms(xs[1..]);
      ApplyMirrorRoom(acc, xs[0]);
      ApplyMirrorRooms(acc, xs[1..]);
    }
  }

  /** A payload whose every room entry carries an id creates no room. */
  lemma {:induction false} NoNewRoomEntries(entries: seq<UpdateRoomDto>)
    requires forall i :: 0 <= i < |entries| ==> entries[i].id.Some?
    ensures NewRoomEntries(entries) == []
    decreases |entries|
  {
    if entries != [] {
      NoNewRoomEntries(entries[1..]);
    }
  }

  /** Reconciling a room list with its own mirror changes nothing and
      creates nothing. */
  lemma ReconcileMirrorRooms(rooms: seq<Room>, w: Id, nr: Id, nd: Id)
    requires NoDup(RoomIds(rooms)) && MirrorSafe(rooms)
    ensures ReconcileRooms(rooms, MirrorRooms(rooms), w, nr, nd) == NewRoomsResult(rooms, nr, nd)
  {
    var entries := MirrorRooms(rooms);
    MirrorKeepsAllRooms(rooms);
    ApplyMirrorRooms(RoomsAcc(rooms, nd), rooms);
    MirrorAddsNoRoom(rooms, w, nr, nd);
    assert rooms + [] == rooms;
  }

  lemma MirrorKeepsAllRooms(rooms: seq<Room>)
    ensures KeepRooms(rooms, IdentifiedRoomIds(MirrorRooms(rooms))) == rooms
  {
    var entries := MirrorRooms(rooms);
    var keep := IdentifiedRoomIds(entries);
    forall i | 0 <= i < |rooms| ensures rooms[i].id in keep {
      assert entries[i].id == Some(rooms[i].id);
    }
    KeepAllRooms(rooms, keep);
  }

  lemma MirrorAddsNoRoom(rooms: seq<Room>, w: Id, nr: Id, nd: Id)
    ensures AddedRooms(MirrorRooms(rooms), w, nr, nd) == NewRoomsResult([], nr, nd)
  {
    NoNewRoomEntries(MirrorRooms(rooms));
    assert AsCreateRooms([]) == [];
  }

  /** Saving a workspace exactly as stored leaves the whole store as it was
      and answers with the same projection a read returns. */
  lemma UpdateWithMirrorIsNoOp(s: Store, id: Id)
    requires WellFormed(s) && id in s.workspaces
    requires FlagsConsistent(s.workspaces[id].rooms)
    ensures UpdateWithRooms(s, MirrorWorkSpace(s.workspaces[id])) == (s, Success(GetById(s, id).value))
  {
    var w := s.workspaces[id];
    assert RoomsWellFormed(w.rooms, id, s.nextRoomId, s.nextDeviceId);
    assert MirrorSafe(w.rooms) by {
      forall i | 0 <= i < |w.rooms|
        ensures NoDup(DeviceIds(w.rooms[i].devices)) && w.rooms[i].hasDevices == (|w.rooms[i].devices| > 0)
      {
        assert RoomWellFormed(w.rooms[i], id, s.nextRoomId, s.nextDeviceId);
      }
    }
    ReconcileMirrorRooms(w.rooms, w.id, s.nextRoomId, s.nextDeviceId);
    var dto := MirrorWorkSpace(w);
    var scalars := w.(name := dto.name, description := dto.description, address := dto.address,
                      city := dto.city, latitude := dto.latitude, longitude := dto.longitude);
    assert scalars == w;
    assert s.workspaces[id := w] == s.workspaces;
  }
}
