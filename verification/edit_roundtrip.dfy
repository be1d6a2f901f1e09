/** The editor and the service together: loading a workspace into the
    enhanced editor and saving it unchanged sends the payload that lists
    the workspace exactly as stored, and the service leaves the store as
    it was. */
module EditRoundTrip {
  import opened Wrappers
  import opened Entities
  import opened Dtos
  import opened Payloads
  import opened WorkSpaceService
  import opened CreateProperties
  import opened UpdateIdempotence
  import opened StoredFlags
  import opened AdminPanelEnhanced

  /** Editing the projection of a workspace and building the update
      payload yields the workspace's mirror: every room and device keeps
      its id, and every room's device list is a list. */
  lemma EditThenPayloadMirrors(e: Editor, w: WorkSpace)
    requires w.id != 0
    ensures BuildUpdatePayload(EditWorkspace(e, Project(w))) == Some(MirrorWorkSpace(w))
  {
    var ed := EditWorkspace(e, Project(w));
    var p := BuildUpdatePayload(ed).value;
    var rooms := p.rooms.value;
    assert |rooms| == |w.rooms|;
    forall i | 0 <= i < |w.rooms| ensures rooms[i] == MirrorRoom(w.rooms[i]) {
      var r := w.rooms[i];
      var g := ed.form.rooms[i];
      assert g == RoomGroupOf(ProjectRoom(r));
      var ds := rooms[i].devices.value;
      assert |ds| == |r.devices|;
      forall j | 0 <= j < |r.devices| ensures ds[j] == MirrorDevice(r.devices[j]) {
        assert g.devices[j] == DeviceGroupOf(ProjectDevice(r.devices[j]));
      }
      assert ds == MirrorDevices(r.devices);
    }
    assert rooms == MirrorRooms(w.rooms);
  }

  /** A workspace with id 0 cannot be saved from the editor: the update is
      never sent. */
  lemma EditOfIdZeroSendsNothing(e: Editor, w: WorkSpaceDto)
    requires w.id == 0
    ensures OnSubmit(EditWorkspace(e, w)).NoRequest?
  {
  }

  /** Loading a stored workspace into the editor and submitting the valid
      form unchanged sends a PUT of the workspace's mirror to its own id;
      the corrected update then leaves the store exactly as it was and
      answers with what a read returns. */
  lemma EditThenSaveIsNoOp(s: Store, id: Id, e: Editor)
    requires WellFormed(s) && StoreFlagsConsistent(s)
    requires id in s.workspaces && id != 0
    requires FormValid(EditWorkspace(e, GetById(s, id).value).form)
    ensures var req := OnSubmit(EditWorkspace(e, GetById(s, id).value));
      && req == PutWithRooms(id, MirrorWorkSpace(s.workspaces[id]))
      && UpdateWithRoomsFixed(s, req.update) == (s, Success(GetById(s, id).value))
  {
    var w := s.workspaces[id];
    EditThenPayloadMirrors(e, w);
    UpdateWithMirrorIsNoOp(s, id);
    assert s.workspaces[id := w.(rooms := RecomputeFlags(w.rooms))] == s.workspaces;
  }

  /** `room` is what the editor's room group `g` asked for: the group's
      name, capacity and price, a `hasDevices` flag that agrees with the
      group's device list, and one device per device group, in order, with
      the group's name and cost and an id at or above `lo`. */
  predicate StoresGroup(room: Room, g: RoomGroup, lo: Id) {
    && room.name == g.name && room.capacity == g.capacity && room.pricePerHour == g.pricePerHour
    && room.hasDevices == (|g.devices| > 0)
    && |room.devices| == |g.devices|
    && forall k :: 0 <= k < |g.devices| ==>
         && room.devices[k].name == g.devices[k].name
         && room.devices[k].extraCostPerHour == g.devices[k].extraCostPerHour
         && lo <= room.devices[k].id
  }

  /** Submitting the create form stores what the form holds: the new
      workspace has the form's fields and one room per room group, in
      order, each under the next fresh room id and holding what its group
      asked for; the ids the groups carry play no part. */
  lemma CreateFromFormStoresGroups(s: Store, f: WorkspaceForm)
    requires WellFormed(s)
    ensures var w := CreateWithRooms(s, BuildCreatePayload(f)).0.workspaces[s.nextWorkSpaceId];
      && w.name == f.name && w.description == f.description
      && w.address == f.address && w.city == f.city
      && w.latitude == f.latitude && w.longitude == f.longitude
      && |w.rooms| == |f.rooms|
      && forall i :: 0 <= i < |f.rooms| ==>
           w.rooms[i].id == s.nextRoomId + i && StoresGroup(w.rooms[i], f.rooms[i], s.nextDeviceId)
  {
    var dto := BuildCreatePayload(f);
    var r := CreateWithRooms(s, dto);
    var w := r.0.workspaces[s.nextWorkSpaceId];
    CreateWithRoomsContent(s, dto);
    assert RequestedRooms(dto) == dto.rooms.value;
    forall i | 0 <= i < |f.rooms|
      ensures w.rooms[i].id == s.nextRoomId + i && StoresGroup(w.rooms[i], f.rooms[i], s.nextDeviceId)
    {
      var e := CreateRoomEntry(f.rooms[i]);
      assert RequestedRooms(dto)[i] == e;
      assert RequestedDevices(e) == e.devices.value;
    }
  }
}
