/** The workspace editor with nested rooms and devices
    (admin-panel-enhanced.component.ts): the form state, the actions that
    change it, the payloads it sends to the nested create and update, and
    the message shown under a top-level control. */
module AdminPanelEnhanced {
  import opened Wrappers
  import opened Text
  import opened Entities
  import opened Dtos
  import opened Payloads
  import opened FormControls

  // ---------------------------------------------------------------------
  // Form state

  datatype DeviceGroup = DeviceGroup(id: Option<Id>, name: string, extraCostPerHour: Money)

  /** The number controls (capacity, price, cost) always hold a value here,
      and capacity a whole one; a cleared or fractional input is not
      modelled. */
  datatype RoomGroup = RoomGroup(
    id: Option<Id>, name: string, capacity: int, pricePerHour: Money, devices: seq<DeviceGroup>)

  /** The values of the workspace form; `rooms` is the room form array. */
  datatype WorkspaceForm = WorkspaceForm(
    name: string, description: string, address: string, city: string,
    latitude: Option<Coordinate>, longitude: Option<Coordinate>,
    rooms: seq<RoomGroup>)

  /** The component: the form, whether it edits an existing workspace, and
      the id of that workspace. */
  datatype Editor = Editor(form: WorkspaceForm, editMode: bool, selectedId: Option<Id>)

  /** The group `addRoom` pushes (lines 56-62). */
  const BlankRoom := RoomGroup(None, "", 1, 0.0, [])

  /** The group `addDevice` pushes (lines 73-77). */
  const BlankDevice := DeviceGroup(None, "", 0.0)

  // ---------------------------------------------------------------------
  // Actions

  /** `addRoom`: one blank, unidentified room at the end. */
  function AddRoom(f: WorkspaceForm): (r: WorkspaceForm)
    ensures |r.rooms| == |f.rooms| + 1 && r.rooms[..|f.rooms|] == f.rooms
    ensures r.rooms[|f.rooms|].id.None? && r.rooms[|f.rooms|].devices == []
    ensures r.rooms[|f.rooms|].capacity == 1 && r.rooms[|f.rooms|].pricePerHour == 0.0
    ensures r.(rooms := f.rooms) == f
  {
    f.(rooms := f.rooms + [BlankRoom])
  }

  /** `addDevice(roomIndex)`: one blank, unidentified device at the end of
      that room's devices. Only indices 0 to |rooms| - 1 are modelled; any
      other index gives `None`. */
  function AddDevice(f: WorkspaceForm, roomIndex: int): (r: Option<WorkspaceForm>)
    ensures r.Some? <==> 0 <= roomIndex < |f.rooms|
    ensures r.Some? ==>
      var rooms := r.value.rooms;
      && |rooms| == |f.rooms|
      && (forall i :: 0 <= i < |rooms| && i != roomIndex ==> rooms[i] == f.rooms[i])
      && rooms[roomIndex].(devices := f.rooms[roomIndex].devices) == f.rooms[roomIndex]
      && rooms[roomIndex].devices == f.rooms[roomIndex].devices + [BlankDevice]
      && r.value.(rooms := f.rooms) == f
  {
    if 0 <= roomIndex < |f.rooms| then
      var room := f.rooms[roomIndex];
      Some(f.(rooms := f.rooms[roomIndex := room.(devices := room.devices + [BlankDevice])]))
    else None
  }

  function DeviceGroupOf(d: DeviceDto): DeviceGroup {
    DeviceGroup(Some(d.id), d.name, d.extraCostPerHour)
  }

  /** The device groups of a projected room: none when its list is null or
      empty. */
  function DeviceGroupsOf(r: RoomDto): (ds: seq<DeviceGroup>)
    ensures r.devices.None? ==> ds == []
    ensures r.devices.Some? ==>
      |ds| == |r.devices.value| && forall j :: 0 <= j < |ds| ==> ds[j] == DeviceGroupOf(r.devices.value[j])
  {
    if r.devices.Some? && |r.devices.value| > 0 then
      seq(|r.devices.value|, j requires 0 <= j < |r.devices.value| => DeviceGroupOf(r.devices.value[j]))
    else []
  }

  function RoomGroupOf(r: RoomDto): RoomGroup {
    RoomGroup(Some(r.id), r.name, r.capacity, r.pricePerHour, DeviceGroupsOf(r))
  }

  /** `editWorkspace` (lines 182-230): switch to edit mode on the
      workspace's id, copy its scalars, and replace the room array with one
      identified group per projected room, in order, each holding one
      identified group per projected device. */
  function EditWorkspace(e: Editor, w: WorkSpaceDto): (r: Editor)
    ensures r.editMode && r.selectedId == Some(w.id)
    ensures r.form.name == w.name && r.form.description == w.description
    ensures r.form.address == w.address && r.form.city == w.city
    ensures r.form.latitude == w.latitude && r.form.longitude == w.longitude
    ensures w.rooms.None? ==> r.form.rooms == []
    ensures w.rooms.Some? ==>
      |r.form.rooms| == |w.rooms.value| && forall i :: 0 <= i < |r.form.rooms| ==> r.form.rooms[i] == RoomGroupOf(w.rooms.value[i])
  {
    var rooms :=
      if w.rooms.Some? && |w.rooms.value| > 0 then
        seq(|w.rooms.value|, i requires 0 <= i < |w.rooms.value| => RoomGroupOf(w.rooms.value[i]))
      else [];
    Editor(WorkspaceForm(w.name, w.description, w.address, w.city, w.latitude, w.longitude, rooms),
           true, Some(w.id))
  }

  /** Whatever was in the form before, editing a workspace yields the same
      form: the room array is cleared before it is rebuilt. */
  lemma EditForgetsPreviousForm(e1: Editor, e2: Editor, w: WorkSpaceDto)
    ensures EditWorkspace(e1, w) == EditWorkspace(e2, w)
  {
  }

  // ---------------------------------------------------------------------
  // Payloads

  function DeviceEntry(d: DeviceGroup): UpdateDeviceDto {
    UpdateDeviceDto(d.id, d.name, d.extraCostPerHour)
  }

  /** A room group as the update payload carries it: its device array is
      always a list, possibly empty. */
  function RoomEntry(g: RoomGroup): (r: UpdateRoomDto)
    ensures r.id == g.id && r.name == g.name
    ensures r.capacity == g.capacity && r.pricePerHour == g.pricePerHour
    ensures r.devices.Some? && |r.devices.value| == |g.devices|
    ensures forall j :: 0 <= j < |g.devices| ==> r.devices.value[j] == DeviceEntry(g.devices[j])
  {
    UpdateRoomDto(g.id, g.name, g.capacity, g.pricePerHour,
      Some(seq(|g.devices|, j requires 0 <= j < |g.devices| => DeviceEntry(g.devices[j]))))
  }

  function RoomEntries(rooms: seq<RoomGroup>): (r: seq<UpdateRoomDto>)
    ensures |r| == |rooms| && forall i :: 0 <= i < |rooms| ==> r[i] == RoomEntry(rooms[i])
  {
    seq(|rooms|, i requires 0 <= i < |rooms| => RoomEntry(rooms[i]))
  }

  /** A room group as the create payload carries it: the create entry has
      no id fields, so room and device ids are dropped. */
  function CreateRoomEntry(g: RoomGroup): (r: CreateRoomDto)
    ensures r.name == g.name && r.capacity == g.capacity && r.pricePerHour == g.pricePerHour
    ensures r.devices.Some? && |r.devices.value| == |g.devices|
    ensures forall j :: 0 <= j < |g.devices| ==>
      r.devices.value[j] == CreateDeviceDto(g.devices[j].name, g.devices[j].extraCostPerHour)
  {
    CreateRoomDto(g.name, g.capacity, g.pricePerHour,
      Some(seq(|g.devices|, j requires 0 <= j < |g.devices| =>
        CreateDeviceDto(g.devices[j].name, g.devices[j].extraCostPerHour))))
  }

  /** `createWorkspace`'s payload (lines 123-132): the form's values, the
      room array always a list. */
  function BuildCreatePayload(f: WorkspaceForm): (p: CreateWorkSpaceDto)
    ensures p.name == f.name && p.description == f.description && p.address == f.address && p.city == f.city
    ensures p.latitude == f.latitude && p.longitude == f.longitude
    ensures p.rooms.Some? && |p.rooms.value| == |f.rooms|
    ensures forall i :: 0 <= i < |f.rooms| ==> p.rooms.value[i] == CreateRoomEntry(f.rooms[i])
  {
    CreateWorkSpaceDto(f.name, f.description, f.address, f.city, f.latitude, f.longitude,
      Some(seq(|f.rooms|, i requires 0 <= i < |f.rooms| => CreateRoomEntry(f.rooms[i]))))
  }

  /** `updateWorkspace`'s payload (lines 150-164): nothing is sent unless a
      workspace is selected (`!id` also holds of id 0); the payload names the
      selected workspace and carries the form's values. */
  function BuildUpdatePayload(e: Editor): (p: Option<UpdateWorkSpaceDto>)
    ensures p.Some? <==> e.selectedId.Some? && e.selectedId.value != 0
    ensures p.Some? ==>
      && p.value.id == e.selectedId.value
      && p.value.name == e.form.name && p.value.description == e.form.description
      && p.value.address == e.form.address && p.value.city == e.form.city
      && p.value.latitude == e.form.latitude && p.value.longitude == e.form.longitude
      && p.value.rooms == Some(RoomEntries(e.form.rooms))
  {
    match e.selectedId
    case None => None
    case Some(id) =>
      if id == 0 then None
      else Some(UpdateWorkSpaceDto(id, e.form.name, e.form.description, e.form.address, e.form.city,
                                   e.form.latitude, e.form.longitude, Some(RoomEntries(e.form.rooms))))
  }

  /** A room added with `addRoom` reaches the update payload as one more
      unidentified entry: the reconciler creates one room for it. */
  lemma AddRoomAddsOneNewEntry(e: Editor)
    requires BuildUpdatePayload(e).Some?
    ensures var before := BuildUpdatePayload(e).value.rooms.value;
            var after := BuildUpdatePayload(e.(form := AddRoom(e.form))).value.rooms.value;
      && after == before + [RoomEntry(BlankRoom)]
      && NewRoomEntries(after) == NewRoomEntries(before) + [RoomEntry(BlankRoom)]
  {
    var before := RoomEntries(e.form.rooms);
    var after := RoomEntries(AddRoom(e.form).rooms);
    assert after == before + [RoomEntry(BlankRoom)];
    NewRoomEntriesAppend(before, RoomEntry(BlankRoom));
  }

  lemma {:induction false} NewRoomEntriesAppend(entries: seq<UpdateRoomDto>, e: UpdateRoomDto)
    ensures NewRoomEntries(entries + [e]) == NewRoomEntries(entries) + (if e.id.None? then [e] else [])
    decreases |entries|
  {
    if entries == [] {
      assert [] + [e] == [e];
    } else {
      assert (entries + [e])[1..] == entries[1..] + [e];
      NewRoomEntriesAppend(entries[1..], e);
    }
  }

  // ---------------------------------------------------------------------
  // Validation and submission

  predicate DeviceGroupValid(d: DeviceGroup) {
    !HasError(TextErrors(d.name, true, Some(2), false, true)) && !HasError(NumberErrors(d.extraCostPerHour, 0, None))
  }

  predicate RoomGroupValid(g: RoomGroup) {
    && !HasError(TextErrors(g.name, true, Some(2), false, true))
    && !HasError(NumberErrors(g.capacity as real, 1, Some(1000)))
    && !HasError(NumberErrors(g.pricePerHour, 0, None))
    && forall j :: 0 <= j < |g.devices| ==> DeviceGroupValid(g.devices[j])
  }

  /** The errors of a top-level control; the coordinates and the room
      array carry no validators. */
  function TopLevelErrors(fieldName: string, f: WorkspaceForm): Option<ControlErrors> {
    if fieldName == "name" then Some(TextErrors(f.name, true, Some(3), false, true))
    else if fieldName == "description" then Some(TextErrors(f.description, true, None, false, true))
    else if fieldName == "address" then Some(TextErrors(f.address, true, None, false, true))
    else if fieldName == "city" then Some(TextErrors(f.city, true, None, false, true))
    else if fieldName == "latitude" || fieldName == "longitude" || fieldName == "rooms" then Some(NoErrors)
    else None
  }

  /** `workspaceForm.valid`: every control in the tree passes its
      validators. */
  predicate FormValid(f: WorkspaceForm) {
    && !HasError(TextErrors(f.name, true, Some(3), false, true))
    && !HasError(TextErrors(f.description, true, None, false, true))
    && !HasError(TextErrors(f.address, true, None, false, true))
    && !HasError(TextErrors(f.city, true, None, false, true))
    && forall i :: 0 <= i < |f.rooms| ==> RoomGroupValid(f.rooms[i])
  }

  /** What a submission sends. */
  datatype Request =
    | NoRequest
    | PostWithRooms(create: CreateWorkSpaceDto)
    | PutWithRooms(id: Id, update: UpdateWorkSpaceDto)

  /** `onSubmit` (lines 105-120) with the two senders: nothing for an
      invalid form; in edit mode the update payload, on the selected id;
      otherwise the create payload. */
  function OnSubmit(e: Editor): (r: Request)
    ensures !FormValid(e.form) ==> r.NoRequest?
    ensures FormValid(e.form) && !e.editMode ==> r == PostWithRooms(BuildCreatePayload(e.form))
    ensures FormValid(e.form) && e.editMode ==>
      match BuildUpdatePayload(e)
      case None => r.NoRequest?
      case Some(p) => r == PutWithRooms(p.id, p)
  {
    if !FormValid(e.form) then NoRequest
    else if e.editMode then
      match BuildUpdatePayload(e)
      case None => NoRequest
      case Some(p) => PutWithRooms(p.id, p)
    else PostWithRooms(BuildCreatePayload(e.form))
  }

  /** Text the payload's `[Required]` accepts: not white space only. The
      form's `required` accepts any non-empty text. */
  predicate FormTextNotBlank(f: WorkspaceForm) {
    && Required(f.name) && Required(f.description) && Required(f.address) && Required(f.city)
    && (forall i :: 0 <= i < |f.rooms| ==>
          Required(f.rooms[i].name) && forall j :: 0 <= j < |f.rooms[i].devices| ==> Required(f.rooms[i].devices[j].name))
  }

  /** A valid form yields a payload the validation attributes accept
      exactly when no text is white space only and the coordinates lie in
      the attributes' ranges (which round first, so they reach 90.5 and
      180.5): the form checks lengths and numeric bounds as the attributes
      do, but neither of those two things. The number controls are taken to
      hold a value, and capacity a whole one. */
  lemma ValidFormPayload(e: Editor)
    requires FormValid(e.form) && BuildUpdatePayload(e).Some?
    ensures UpdateWorkSpaceDtoValid(BuildUpdatePayload(e).value) <==>
      && FormTextNotBlank(e.form)
      && InRangeIfPresent(e.form.latitude, -90.5, 90.5)
      && InRangeIfPresent(e.form.longitude, -180.5, 180.5)
  {
    CoordinateAttributes(e.form.latitude);
    CoordinateAttributes(e.form.longitude);
    var p := BuildUpdatePayload(e).value;
    var rooms := p.rooms.value;
    assert rooms == RoomEntries(e.form.rooms);
    forall i | 0 <= i < |rooms|
      ensures UpdateRoomDtoValid(rooms[i]) <==>
        Required(e.form.rooms[i].name)
        && forall j :: 0 <= j < |e.form.rooms[i].devices| ==> Required(e.form.rooms[i].devices[j].name)
    {
      var g := e.form.rooms[i];
      assert RoomGroupValid(g);
      var ds := rooms[i].devices.value;
      forall j | 0 <= j < |ds| ensures UpdateDeviceDtoValid(ds[j]) <==> Required(g.devices[j].name) {
        assert DeviceGroupValid(g.devices[j]);
      }
    }
  }

  // ---------------------------------------------------------------------
  // Messages

  /** `getErrorMessage` (lines 292-309): the first of required, minlength,
      min, max that the control has, with the bound the validator
      carries; nothing for an unknown name or a valid control. */
  function GetErrorMessage(fieldName: string, f: WorkspaceForm): (r: string)
    ensures TopLevelErrors(fieldName, f).None? ==> r == ""
    ensures TopLevelErrors(fieldName, f).Some? ==>
      var e := TopLevelErrors(fieldName, f).value;
      && (e.required ==> r == Capitalize(fieldName) + " is required")
      && (!e.required && e.minLength.Some? ==>
            r == Capitalize(fieldName) + " must be at least " + NatToString(e.minLength.value) + " characters")
      && (!e.required && e.minLength.None? && e.min.Some? ==>
            r == Capitalize(fieldName) + " must be greater than " + IntToString(e.min.value))
      && (!e.required && e.minLength.None? && e.min.None? && e.max.Some? ==>
            r == Capitalize(fieldName) + " must be less than " + IntToString(e.max.value))
      && (r == "" <==> !e.required && e.minLength.None? && e.min.None? && e.max.None?)
  {
    match TopLevelErrors(fieldName, f)
    case None => ""
    case Some(e) =>
      if e.required then Capitalize(fieldName) + " is required"
      else if e.minLength.Some? then
        Capitalize(fieldName) + " must be at least " + NatToString(e.minLength.value) + " characters"
      else if e.min.Some? then Capitalize(fieldName) + " must be greater than " + IntToString(e.min.value)
      else if e.max.Some? then Capitalize(fieldName) + " must be less than " + IntToString(e.max.value)
      else ""
  }

  /** On this form's top-level controls a message shows exactly when the
      control is invalid, and the min and max messages never show: no
      top-level control carries those validators. */
  lemma TopLevelMessages(fieldName: string, f: WorkspaceForm)
    requires TopLevelErrors(fieldName, f).Some?
    ensures var e := TopLevelErrors(fieldName, f).value;
      && e.min.None? && e.max.None? && !e.pattern
      && (GetErrorMessage(fieldName, f) == "" <==> !HasError(e))
  {
  }
}
