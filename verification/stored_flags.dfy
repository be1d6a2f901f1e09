/** The stored `hasDevices` column after the nested update. The update
    writes it from the room entry's device list (WorkSpaceService.cs line
    216), not from the devices the room ends up with, so the column can
    disagree with the devices: a null device list leaves the devices alone
    but clears the flag, and a list naming only unknown device ids deletes
    every device but sets the flag. Everywhere else the column means "the
    room has devices": both create paths (lines 131 and 260) set it from a
    list that becomes the room's devices one for one, and both reads (lines
    41 and 78) report exactly that from the devices themselves. The read
    projection hides the stale column, but the column is what
    `DtoMapper.ToDto` copies. `UpdateWithRoomsFixed` is the update with the
    flag recomputed from each room's devices after the room loop. */
module StoredFlags {
  import opened Wrappers
  import opened Seqs
  import opened Entities
  import opened Dtos
  import opened Payloads
  import opened WorkSpaceService
  import opened CreateProperties
  import opened ReconcileProperties

  // ---------------------------------------------------------------------
  // As written: two inputs that leave the column stale

  /** A workspace 1 holding room 10, which owns device 100 and whose
      column correctly says it has devices. */
  function OneRoomStore(): (s: Store)
    ensures 1 in s.workspaces && WellFormed(s) && FlagsConsistent(s.workspaces[1].rooms)
  {
    var d := Device(100, "Projector", 5.0, 10);
    var room := Room(10, "Room A", 4, true, 50.0, 1, [d]);
    var w := WorkSpace(1, "Hub", "Open space", "Main St 1", "Kyiv", None, None, [room]);
    var s := Store(map[1 := w], 2, 11, 101);
    assert RoomIds(w.rooms) == [10] && DeviceIds(room.devices) == [100];
    s
  }

  function SaveRoom(devices: Option<seq<UpdateDeviceDto>>): UpdateWorkSpaceDto {
    UpdateWorkSpaceDto(1, "Hub", "Open space", "Main St 1", "Kyiv", None, None,
      Some([UpdateRoomDto(Some(10), "Room A", 4, 50.0, devices)]))
  }

  /** Saving room 10 with a null device list keeps its device but clears
      its column, while a read still reports that the room has devices. */
  lemma StaleFlagWithNullDevices()
    ensures var s' := UpdateWithRooms(OneRoomStore(), SaveRoom(None)).0;
      && s'.workspaces[1].rooms == [Room(10, "Room A", 4, false, 50.0, 1, [Device(100, "Projector", 5.0, 10)])]
      && !FlagsConsistent(s'.workspaces[1].rooms)
      && GetById(s', 1).value.rooms.value[0].hasDevices
  {
    var s := OneRoomStore();
    var entries := [UpdateRoomDto(Some(10), "Room A", 4, 50.0, None)];
    var room := s.workspaces[1].rooms[0];
    OneEntryIds(entries[0]);
    assert entries == SaveRoom(None).rooms.value;
    assert KeepRooms(s.workspaces[1].rooms, {10}) == [room];
    assert NewRoomEntries(entries) == [];
    assert AsCreateRooms([]) == [];
    var acc := ApplyRoomEntries(RoomsAcc([room], 101), entries);
    assert RoomIds([room]) == [10];
    assert acc.kept == [ReconcileRoom(room, entries[0], 101).room];
    var r := ReconcileRooms(s.workspaces[1].rooms, entries, 1, 11, 101);
    assert r.rooms == acc.kept;
  }

  /** Saving room 10 with a device list that names only device 999, which
      the room does not own, deletes device 100 but sets the column. */
  lemma StaleFlagWithUnknownDeviceIds()
    ensures var s' := UpdateWithRooms(OneRoomStore(), SaveRoom(Some([UpdateDeviceDto(Some(999), "Lamp", 1.0)]))).0;
      && s'.workspaces[1].rooms == [Room(10, "Room A", 4, true, 50.0, 1, [])]
      && !FlagsConsistent(s'.workspaces[1].rooms)
  {
    var s := OneRoomStore();
    var ds := [UpdateDeviceDto(Some(999), "Lamp", 1.0)];
    var entries := [UpdateRoomDto(Some(10), "Room A", 4, 50.0, Some(ds))];
    var room := s.workspaces[1].rooms[0];
    OneEntryIds(entries[0]);
    assert entries == SaveRoom(Some(ds)).rooms.value;
    assert KeepRooms(s.workspaces[1].rooms, {10}) == [room];
    assert NewRoomEntries(entries) == [];
    assert AsCreateRooms([]) == [];
    assert IdentifiedDeviceIds(ds) == {999} by {
      forall x ensures x in IdentifiedDeviceIds(ds) <==> x == 999 { assert ds[0].id == Some(999); }
    }
    assert KeepDevices(room.devices, {999}) == [];
    assert NewDeviceEntries(ds) == [];
    var dr := ReconcileDevices(room.devices, ds, 10, 101);
    assert dr.devices == [];
    var acc := ApplyRoomEntries(RoomsAcc([room], 101), entries);
    assert RoomIds([room]) == [10];
    assert acc.kept == [ReconcileRoom(room, entries[0], 101).room];
    var r := ReconcileRooms(s.workspaces[1].rooms, entries, 1, 11, 101);
    assert r.rooms == acc.kept;
  }

  lemma OneEntryIds(e: UpdateRoomDto)
    requires e.id == Some(10)
    ensures IdentifiedRoomIds([e]) == {10}
  {
    forall x ensures x in IdentifiedRoomIds([e]) <==> x == 10 { assert [e][0] == e; }
  }

  // ---------------------------------------------------------------------
  // Corrected: the column recomputed after the room loop

  /** Every room's column set from its devices; nothing else changes, so
      the read side cannot tell the difference. */
  function RecomputeFlags(rooms: seq<Room>): (r: seq<Room>)
    ensures |r| == |rooms| && FlagsConsistent(r)
    ensures RoomIds(r) == RoomIds(rooms)
    ensures forall i :: 0 <= i < |rooms| ==>
      r[i].devices == rooms[i].devices && ProjectRoom(r[i]) == ProjectRoom(rooms[i])
    ensures FlagsConsistent(rooms) ==> r == rooms
  {
    seq(|rooms|, i requires 0 <= i < |rooms| => rooms[i].(hasDevices := |rooms[i].devices| > 0))
  }

  /** The nested update with the stored column recomputed for every room of
      the workspace once the room loop is done. */
  function UpdateWithRoomsFixed(s: Store, dto: UpdateWorkSpaceDto): (r: (Store, Result<WorkSpaceDto, ServiceError>))
    ensures dto.id in s.workspaces ==> dto.id in r.0.workspaces && FlagsConsistent(r.0.workspaces[dto.id].rooms)
  {
    var (s', answer) := UpdateWithRooms(s, dto);
    if dto.id in s'.workspaces then
      var w := s'.workspaces[dto.id];
      (s'.(workspaces := s'.workspaces[dto.id := w.(rooms := RecomputeFlags(w.rooms))]), answer)
    else (s', answer)
  }

  /** The fix changes nothing a read can see: the same answer, the same
      projections, the same devices, ids and counters; only stale columns
      differ. */
  lemma FixedUpdateReadsTheSame(s: Store, dto: UpdateWorkSpaceDto)
    ensures var (a, b) := (UpdateWithRoomsFixed(s, dto), UpdateWithRooms(s, dto));
      && a.1 == b.1
      && GetAll(a.0) == GetAll(b.0)
      && a.0.workspaces.Keys == b.0.workspaces.Keys
      && a.0.nextWorkSpaceId == b.0.nextWorkSpaceId
      && a.0.nextRoomId == b.0.nextRoomId && a.0.nextDeviceId == b.0.nextDeviceId
  {
    var a := UpdateWithRoomsFixed(s, dto);
    var b := UpdateWithRooms(s, dto);
    if dto.id in s.workspaces {
      var w := b.0.workspaces[dto.id];
      var w' := a.0.workspaces[dto.id];
      assert w' == w.(rooms := RecomputeFlags(w.rooms));
      ProjectIgnoresFlags(w, RecomputeFlags(w.rooms));
      GetAllSameProjection(b.0, dto.id, w');
    }
  }

  /** Replacing a workspace by one with the same projection leaves the
      listing as it was. */
  lemma GetAllSameProjection(s: Store, id: Id, w': WorkSpace)
    requires id in s.workspaces && Project(w') == Project(s.workspaces[id])
    ensures GetAll(s.(workspaces := s.workspaces[id := w'])) == GetAll(s)
  {
    var s' := s.(workspaces := s.workspaces[id := w']);
    assert forall k :: k in s'.workspaces ==> Project(s'.workspaces[k]) == Project(s.workspaces[k]);
  }

  /** Projection does not read the stored column. */
  lemma ProjectIgnoresFlags(w: WorkSpace, rooms: seq<Room>)
    requires |rooms| == |w.rooms|
    requires forall i :: 0 <= i < |rooms| ==> ProjectRoom(rooms[i]) == ProjectRoom(w.rooms[i])
    ensures Project(w.(rooms := rooms)) == Project(w)
  {
    var p := Project(w.(rooms := rooms));
    var q := Project(w);
    assert p.rooms.value == q.rooms.value;
  }

  /** Every workspace's rooms carry a column that agrees with their devices. */
  predicate StoreFlagsConsistent(s: Store) {
    forall k :: k in s.workspaces ==> FlagsConsistent(s.workspaces[k].rooms)
  }

  /** The fixed update keeps the store well formed and every column
      consistent. */
  lemma FixedUpdateInvariant(s: Store, dto: UpdateWorkSpaceDto)
    requires WellFormed(s)
    requires StoreFlagsConsistent(s)
    ensures WellFormed(UpdateWithRoomsFixed(s, dto).0)
    ensures StoreFlagsConsistent(UpdateWithRoomsFixed(s, dto).0)
  {
    UpdateWithRoomsWellFormed(s, dto);
    var b := UpdateWithRooms(s, dto).0;
    var a := UpdateWithRoomsFixed(s, dto).0;
    if dto.id in s.workspaces {
      var w := b.workspaces[dto.id];
      var rooms := RecomputeFlags(w.rooms);
      assert RoomsWellFormed(rooms, dto.id, a.nextRoomId, a.nextDeviceId) by {
        forall i | 0 <= i < |rooms| ensures RoomWellFormed(rooms[i], dto.id, a.nextRoomId, a.nextDeviceId) {
          assert RoomWellFormed(w.rooms[i], dto.id, b.nextRoomId, b.nextDeviceId);
        }
      }
    }
  }

  /** Creating keeps every column consistent. */
  lemma CreateKeepsFlagsConsistent(s: Store, dto: CreateWorkSpaceDto)
    requires WellFormed(s) && StoreFlagsConsistent(s)
    ensures StoreFlagsConsistent(CreateWithRooms(s, dto).0)
  {
    CreateWithRoomsContent(s, dto);
  }

  /** Deleting keeps every column consistent. */
  lemma DeleteKeepsFlagsConsistent(s: Store, id: Id)
    requires StoreFlagsConsistent(s)
    ensures StoreFlagsConsistent(Delete(s, id))
  {
  }
}
