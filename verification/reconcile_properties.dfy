/** Properties of the nested update (`UpdateWithRoomsAsync`): which stored
    rooms and devices survive, what the matched ones become, what the
    unidentified entries create, and when the update changes nothing. */
module ReconcileProperties {
  import opened Wrappers
  import opened Seqs
  import opened Entities
  import opened Payloads
  import opened WorkSpaceService
  import opened CreateProperties

  // =====================================================================
  // Keep / remove

  lemma {:induction false} KeepDevicesMembership(devices: seq<Device>, keep: set<Id>)
    ensures forall d :: d in KeepDevices(devices, keep) <==> d in devices && d.id in keep
  {
    if devices != [] {
      KeepDevicesMembership(devices[1..], keep);
      assert devices == [devices[0]] + devices[1..];
    }
  }

  lemma {:induction false} KeepRoomsMembership(rooms: seq<Room>, keep: set<Id>)
    ensures forall r :: r in KeepRooms(rooms, keep) <==> r in rooms && r.id in keep
  {
    if rooms != [] {
      KeepRoomsMembership(rooms[1..], keep);
      assert rooms == [rooms[0]] + rooms[1..];
    }
  }

  /** A stored id is among the kept ids exactly when it is in `keep`. */
  lemma KeptRoomIds(rooms: seq<Room>, keep: set<Id>, x: Id)
    requires x in RoomIds(rooms)
    ensures x in RoomIds(KeepRooms(rooms, keep)) <==> x in keep
  {
    KeepRoomsMembership(rooms, keep);
    var kept := KeepRooms(rooms, keep);
    var i :| 0 <= i < |rooms| && rooms[i].id == x;
    if x in keep {
      assert rooms[i] in kept;
      var j :| 0 <= j < |kept| && kept[j] == rooms[i];
      assert RoomIds(kept)[j] == x;
    }
  }

  lemma KeptDeviceIds(devices: seq<Device>, keep: set<Id>, x: Id)
    requires x in DeviceIds(devices)
    ensures x in DeviceIds(KeepDevices(devices, keep)) <==> x in keep
  {
    KeepDevicesMembership(devices, keep);
    var kept := KeepDevices(devices, keep);
    var i :| 0 <= i < |devices| && devices[i].id == x;
    if x in keep {
      assert devices[i] in kept;
      var j :| 0 <= j < |kept| && kept[j] == devices[i];
      assert DeviceIds(kept)[j] == x;
    }
  }

  /** After the nested update, a stored room survives exactly when some
      payload room entry carries its id; every other stored room is gone. */
  lemma RoomSurvivesIffListed(s: Store, dto: UpdateWorkSpaceDto, x: Id)
    requires WellFormed(s)
    requires dto.id in s.workspaces && dto.rooms.Some?
    requires x in RoomIds(s.workspaces[dto.id].rooms)
    ensures x in RoomIds(UpdateWithRooms(s, dto).0.workspaces[dto.id].rooms)
        <==> x in IdentifiedRoomIds(dto.rooms.value)
  {
    var w := s.workspaces[dto.id];
    var keep := IdentifiedRoomIds(dto.rooms.value);
    var res := ReconcileRooms(w.rooms, dto.rooms.value, w.id, s.nextRoomId, s.nextDeviceId);
    KeptRoomIds(w.rooms, keep, x);
    var i :| 0 <= i < |w.rooms| && w.rooms[i].id == x;
    assert x < s.nextRoomId;
    assert x !in Range(s.nextRoomId, res.nextRoomId);
  }

  // =====================================================================
  // Device level: the full outcome of reconciling one matched room's devices

  /** The last entry carrying id `x`: with repeated ids, the last one wins. */
  function LastDeviceEntry(entries: seq<UpdateDeviceDto>, x: Id): (r: Option<UpdateDeviceDto>)
    ensures r.Some? ==> r.value in entries && r.value.id == Some(x)
    ensures r.None? <==> x !in IdentifiedDeviceIds(entries)
    decreases |entries|
  {
    if entries == [] then None
    else
      var later := LastDeviceEntry(entries[1..], x);
      assert entries == [entries[0]] + entries[1..];
      if later.Some? then later
      else if entries[0].id == Some(x) then Some(entries[0])
      else None
  }

  lemma {:induction false} KeepDevicesNoDup(devices: seq<Device>, keep: set<Id>)
    requires NoDup(DeviceIds(devices))
    ensures NoDup(DeviceIds(KeepDevices(devices, keep)))
  {
    if devices != [] {
      var rest := devices[1..];
      DeviceIdsTail(devices);
      NoDupTail(DeviceIds(devices));
      KeepDevicesNoDup(rest, keep);
      if devices[0].id in keep {
        var tail := KeepDevices(rest, keep);
        KeptDeviceIdsWithin(rest, keep);
        DeviceIdsAppend([devices[0]], tail);
        NoDupConcat(DeviceIds([devices[0]]), DeviceIds(tail));
      }
    }
  }

  lemma DeviceIdsTail(devices: seq<Device>)
    requires devices != []
    ensures DeviceIds(devices[1..]) == DeviceIds(devices)[1..]
    ensures DeviceIds(devices)[0] == devices[0].id && DeviceIds([devices[0]]) == [devices[0].id]
  {
  }

  /** Keeping only drops ids. */
  lemma KeptDeviceIdsWithin(devices: seq<Device>, keep: set<Id>)
    ensures forall x :: x in DeviceIds(KeepDevices(devices, keep)) ==> x in DeviceIds(devices)
  {
    KeepDevicesMembership(devices, keep);
    var kept := KeepDevices(devices, keep);
    forall x | x in DeviceIds(kept) ensures x in DeviceIds(devices) {
      var j :| 0 <= j < |kept| && DeviceIds(kept)[j] == x;
      assert kept[j] in devices;
      var i :| 0 <= i < |devices| && devices[i] == kept[j];
      assert DeviceIds(devices)[i] == x;
    }
  }

  /** An identified entry overwrites exactly the device carrying its id,
      when ids are distinct. */
  lemma UpdateExistingDeviceAt(devices: seq<Device>, e: UpdateDeviceDto, i: nat)
    requires e.id.Some? && NoDup(DeviceIds(devices)) && i < |devices|
    ensures UpdateExistingDevice(devices, e)[i]
         == if devices[i].id == e.id.value then OverwriteDevice(devices[i], e) else devices[i]
  {
    match IndexOf(DeviceIds(devices), e.id.value)
    case None =>
    case Some(k) =>
      if devices[i].id == e.id.value {
        assert DeviceIds(devices)[i] == DeviceIds(devices)[k];
      }
  }

  /** A stored device after the device loop: overwritten by the last entry
      carrying its id, untouched when none does. */
  function SettleDevice(d: Device, entries: seq<UpdateDeviceDto>): Device {
    match LastDeviceEntry(entries, d.id)
    case None => d
    case Some(e) => OverwriteDevice(d, e)
  }

  lemma SettleDeviceStep(d: Device, d': Device, e: UpdateDeviceDto, rest: seq<UpdateDeviceDto>)
    requires d' == if e.id == Some(d.id) then OverwriteDevice(d, e) else d
    ensures SettleDevice(d', rest) == SettleDevice(d, [e] + rest)
  {
    assert ([e] + rest)[1..] == rest;
  }

  lemma {:induction false} ApplyDeviceEntriesKept(acc: DevicesAcc, entries: seq<UpdateDeviceDto>, roomId: Id, i: nat)
    requires NoDup(DeviceIds(acc.kept)) && i < |acc.kept|
    ensures ApplyDeviceEntries(acc, entries, roomId).kept[i] == SettleDevice(acc.kept[i], entries)
    decreases |entries|
  {
    if entries != [] {
      var e := entries[0];
      var rest := entries[1..];
      assert entries == [e] + rest;
      var acc' := ApplyDeviceEntry(acc, e, roomId);
      assert DeviceIds(acc'.kept) == DeviceIds(acc.kept);
      ApplyDeviceEntriesKept(acc', rest, roomId, i);
      if e.id.Some? {
        UpdateExistingDeviceAt(acc.kept, e, i);
      }
      SettleDeviceStep(acc.kept[i], acc'.kept[i], e, rest);
    }
  }

  lemma {:induction false} ApplyDeviceEntriesAdded(acc: DevicesAcc, entries: seq<UpdateDeviceDto>, roomId: Id)
    ensures ApplyDeviceEntries(acc, entries, roomId).added
         == acc.added + NewDevices(AsCreateDevices(NewDeviceEntries(entries)), roomId, acc.nextDeviceId)
    decreases |entries|, 1
  {
    if entries == [] {
    } else if entries[0].id.None? {
      ApplyDeviceEntriesAddedNew(acc, entries, roomId);
    } else {
      ApplyDeviceEntriesAddedKnown(acc, entries, roomId);
    }
  }

  lemma {:induction false} ApplyDeviceEntriesAddedNew(acc: DevicesAcc, entries: seq<UpdateDeviceDto>, roomId: Id)
    requires entries != [] && entries[0].id.None?
    ensures ApplyDeviceEntries(acc, entries, roomId).added
         == acc.added + NewDevices(AsCreateDevices(NewDeviceEntries(entries)), roomId, acc.nextDeviceId)
    decreases |entries|, 0
  {
    var d := Device(acc.nextDeviceId, entries[0].name, entries[0].extraCostPerHour, roomId);
    var acc' := DevicesAcc(acc.kept, acc.added + [d], acc.nextDeviceId + 1);
    var later := NewDevices(AsCreateDevices(NewDeviceEntries(entries[1..])), roomId, acc.nextDeviceId + 1);
    ApplyDeviceEntriesNewStep(acc, entries, roomId);
    ApplyDeviceEntriesAdded(acc', entries[1..], roomId);
    NewDevicesNewStep(entries, roomId, acc.nextDeviceId);
    AppendAssoc(acc.added, [d], later);
  }

  /** The device loop's step on an unidentified entry. */
  lemma ApplyDeviceEntriesNewStep(acc: DevicesAcc, entries: seq<UpdateDeviceDto>, roomId: Id)
    requires entries != [] && entries[0].id.None?
    ensures ApplyDeviceEntries(acc, entries, roomId)
         == ApplyDeviceEntries(
              DevicesAcc(acc.kept, acc.added + [Device(acc.nextDeviceId, entries[0].name, entries[0].extraCostPerHour, roomId)],
                         acc.nextDeviceId + 1),
              entries[1..], roomId)
  {
  }

  /** What the unidentified entries create, when the first entry is one. */
  lemma NewDevicesNewStep(entries: seq<UpdateDeviceDto>, roomId: Id, n: Id)
    requires entries != [] && entries[0].id.None?
    ensures NewDevices(AsCreateDevices(NewDeviceEntries(entries)), roomId, n)
         == [Device(n, entries[0].name, entries[0].extraCostPerHour, roomId)]
            + NewDevices(AsCreateDevices(NewDeviceEntries(entries[1..])), roomId, n + 1)
  {
    NewDeviceEntriesCons(entries);
    NewDevicesCons(entries[0], NewDeviceEntries(entries[1..]), roomId, n);
  }

  lemma {:induction false} ApplyDeviceEntriesAddedKnown(acc: DevicesAcc, entries: seq<UpdateDeviceDto>, roomId: Id)
    requires entries != [] && entries[0].id.Some?
    ensures ApplyDeviceEntries(acc, entries, roomId).added
         == acc.added + NewDevices(AsCreateDevices(NewDeviceEntries(entries)), roomId, acc.nextDeviceId)
    decreases |entries|, 0
  {
    var acc' := ApplyDeviceEntry(acc, entries[0], roomId);
    assert acc'.added == acc.added && acc'.nextDeviceId == acc.nextDeviceId;
    assert ApplyDeviceEntries(acc, entries, roomId) == ApplyDeviceEntries(acc', entries[1..], roomId);
    ApplyDeviceEntriesAdded(acc', entries[1..], roomId);
    NewDeviceEntriesCons(entries);
    assert NewDeviceEntries(entries) == NewDeviceEntries(entries[1..]);
  }

  lemma NewDeviceEntriesCons(entries: seq<UpdateDeviceDto>)
    requires entries != []
    ensures NewDeviceEntries(entries)
         == (if entries[0].id.None? then [entries[0]] else []) + NewDeviceEntries(entries[1..])
  {
  }

  lemma NewDevicesCons(e: UpdateDeviceDto, u: seq<UpdateDeviceDto>, roomId: Id, n: Id)
    ensures NewDevices(AsCreateDevices([e] + u), roomId, n)
         == [Device(n, e.name, e.extraCostPerHour, roomId)] + NewDevices(AsCreateDevices(u), roomId, n + 1)
  {
    assert AsCreateDevices([e] + u)[1..] == AsCreateDevices(u);
  }

  /** The device list of a matched room after the update: the stored
      devices listed by id, in stored order, each overwritten by the last
      entry carrying its id, followed by one fresh device per unidentified
      entry, in payload order. */
  lemma ReconcileDevicesContent(devices: seq<Device>, entries: seq<UpdateDeviceDto>, roomId: Id, nextDeviceId: Id)
    requires NoDup(DeviceIds(devices))
    ensures var kept := KeepDevices(devices, IdentifiedDeviceIds(entries));
            var r := ReconcileDevices(devices, entries, roomId, nextDeviceId);
      && |r.devices| == |kept| + |NewDeviceEntries(entries)|
      && (forall i :: 0 <= i < |kept| ==> r.devices[i] == SettleDevice(kept[i], entries))
      && r.devices[|kept|..] == NewDevices(AsCreateDevices(NewDeviceEntries(entries)), roomId, nextDeviceId)
  {
    var kept := KeepDevices(devices, IdentifiedDeviceIds(entries));
    KeepDevicesNoDup(devices, IdentifiedDeviceIds(entries));
    var acc0 := DevicesAcc(kept, [], nextDeviceId);
    var acc := ApplyDeviceEntries(acc0, entries, roomId);
    ApplyDeviceEntriesAdded(acc0, entries, roomId);
    forall i | 0 <= i < |kept| ensures acc.kept[i] == SettleDevice(kept[i], entries) {
      ApplyDeviceEntriesKept(acc0, entries, roomId, i);
    }
    assert |acc.kept| == |kept|;
    assert (acc.kept + acc.added)[|kept|..] == acc.added;
  }

  /** Reconciling keeps a room's devices well formed: distinct ids, all
      pointing at the room, all below the advanced counter. */
  lemma ReconcileDevicesWellFormed(devices: seq<Device>, entries: seq<UpdateDeviceDto>, roomId: Id, nextDeviceId: Id)
    requires DevicesWellFormed(devices, roomId, nextDeviceId)
    ensures var r := ReconcileDevices(devices, entries, roomId, nextDeviceId);
      DevicesWellFormed(r.devices, roomId, r.nextDeviceId)
  {
    ReconcileDevicesNoDup(devices, entries, roomId, nextDeviceId);
    ReconcileDevicesBelong(devices, entries, roomId, nextDeviceId);
  }

  lemma ReconcileDevicesNoDup(devices: seq<Device>, entries: seq<UpdateDeviceDto>, roomId: Id, nextDeviceId: Id)
    requires DevicesWellFormed(devices, roomId, nextDeviceId)
    ensures NoDup(DeviceIds(ReconcileDevices(devices, entries, roomId, nextDeviceId).devices))
  {
    var keep := IdentifiedDeviceIds(entries);
    var kept := KeepDevices(devices, keep);
    var r := ReconcileDevices(devices, entries, roomId, nextDeviceId);
    KeepDevicesNoDup(devices, keep);
    KeepDevicesMembership(devices, keep);
    var newIds := Range(nextDeviceId, r.nextDeviceId);
    RangeNoDup(nextDeviceId, r.nextDeviceId);
    forall i, j | 0 <= i < |kept| && 0 <= j < |newIds| ensures DeviceIds(kept)[i] != newIds[j] {
      assert kept[i] in devices;
    }
    NoDupConcat(DeviceIds(kept), newIds);
  }

  lemma ReconcileDevicesBelong(devices: seq<Device>, entries: seq<UpdateDeviceDto>, roomId: Id, nextDeviceId: Id)
    requires DevicesWellFormed(devices, roomId, nextDeviceId)
    ensures var r := ReconcileDevices(devices, entries, roomId, nextDeviceId);
      forall i :: 0 <= i < |r.devices| ==> r.devices[i].roomId == roomId && r.devices[i].id < r.nextDeviceId
  {
    var r := ReconcileDevices(devices, entries, roomId, nextDeviceId);
    forall i | 0 <= i < |r.devices| ensures r.devices[i].roomId == roomId && r.devices[i].id < r.nextDeviceId {
      ReconcileDeviceBelongs(devices, entries, roomId, nextDeviceId, i);
    }
  }

  lemma ReconcileDeviceBelongs(devices: seq<Device>, entries: seq<UpdateDeviceDto>, roomId: Id, nextDeviceId: Id, i: nat)
    requires DevicesWellFormed(devices, roomId, nextDeviceId)
    requires i < |ReconcileDevices(devices, entries, roomId, nextDeviceId).devices|
    ensures var r := ReconcileDevices(devices, entries, roomId, nextDeviceId);
      r.devices[i].roomId == roomId && r.devices[i].id < r.nextDeviceId
  {
    var kept := KeepDevices(devices, IdentifiedDeviceIds(entries));
    if i < |kept| {
      KeptDeviceBelongs(devices, IdentifiedDeviceIds(entries), roomId, nextDeviceId, i);
      ReconcileKeptDeviceAt(devices, entries, roomId, nextDeviceId, i);
      SettleDeviceKeepsIds(kept[i], entries);
    } else {
      ReconcileAddedDeviceAt(devices, entries, roomId, nextDeviceId, i - |kept|);
    }
  }

  lemma ReconcileKeptDeviceAt(devices: seq<Device>, entries: seq<UpdateDeviceDto>, roomId: Id, nextDeviceId: Id, i: nat)
    requires NoDup(DeviceIds(devices))
    requires i < |KeepDevices(devices, IdentifiedDeviceIds(entries))|
    ensures ReconcileDevices(devices, entries, roomId, nextDeviceId).devices[i]
         == SettleDevice(KeepDevices(devices, IdentifiedDeviceIds(entries))[i], entries)
  {
    ReconcileDevicesContent(devices, entries, roomId, nextDeviceId);
  }

  /** A device after the kept ones is a fresh one: it points at the room
      and lies below the advanced counter. */
  lemma ReconcileAddedDeviceAt(devices: seq<Device>, entries: seq<UpdateDeviceDto>, roomId: Id, nextDeviceId: Id, j: nat)
    requires NoDup(DeviceIds(devices))
    requires |KeepDevices(devices, IdentifiedDeviceIds(entries))| + j < |ReconcileDevices(devices, entries, roomId, nextDeviceId).devices|
    ensures var n := |KeepDevices(devices, IdentifiedDeviceIds(entries))|;
            var r := ReconcileDevices(devices, entries, roomId, nextDeviceId);
      r.devices[n + j].roomId == roomId && r.devices[n + j].id < r.nextDeviceId
  {
    ReconcileDevicesTail(devices, entries, roomId, nextDeviceId, j);
    NewDeviceAt(AsCreateDevices(NewDeviceEntries(entries)), roomId, nextDeviceId, j);
  }

  /** The devices after the kept ones are the fresh ones, and the counter
      has moved past them. */
  lemma ReconcileDevicesTail(devices: seq<Device>, entries: seq<UpdateDeviceDto>, roomId: Id, nextDeviceId: Id, j: nat)
    requires NoDup(DeviceIds(devices))
    requires |KeepDevices(devices, IdentifiedDeviceIds(entries))| + j < |ReconcileDevices(devices, entries, roomId, nextDeviceId).devices|
    ensures var n := |KeepDevices(devices, IdentifiedDeviceIds(entries))|;
            var r := ReconcileDevices(devices, entries, roomId, nextDeviceId);
            var creates := AsCreateDevices(NewDeviceEntries(entries));
      && j < |creates|
      && r.nextDeviceId == nextDeviceId + |creates|
      && r.devices[n + j] == NewDevices(creates, roomId, nextDeviceId)[j]
  {
    var n := |KeepDevices(devices, IdentifiedDeviceIds(entries))|;
    var r := ReconcileDevices(devices, entries, roomId, nextDeviceId);
    ReconcileDevicesContent(devices, entries, roomId, nextDeviceId);
    assert r.devices[n + j] == r.devices[n..][j];
  }

  lemma NewDeviceAt(creates: seq<CreateDeviceDto>, roomId: Id, next: Id, j: nat)
    requires j < |creates|
    ensures NewDevices(creates, roomId, next)[j].roomId == roomId
    ensures NewDevices(creates, roomId, next)[j].id < next + |creates|
  {
  }

  lemma SettleDeviceKeepsIds(d: Device, entries: seq<UpdateDeviceDto>)
    ensures SettleDevice(d, entries).id == d.id && SettleDevice(d, entries).roomId == d.roomId
  {
  }

  lemma KeptDeviceBelongs(devices: seq<Device>, keep: set<Id>, roomId: Id, nextDeviceId: Id, i: nat)
    requires DevicesWellFormed(devices, roomId, nextDeviceId)
    requires i < |KeepDevices(devices, keep)|
    ensures KeepDevices(devices, keep)[i].roomId == roomId && KeepDevices(devices, keep)[i].id < nextDeviceId
  {
    KeepDevicesMembership(devices, keep);
    assert KeepDevices(devices, keep)[i] in devices;
  }

  // =====================================================================
  // Room level: well-formedness is preserved

  lemma {:induction false} KeepRoomsNoDup(rooms: seq<Room>, keep: set<Id>)
    requires NoDup(RoomIds(rooms))
    ensures NoDup(RoomIds(KeepRooms(rooms, keep)))
  {
    if rooms != [] {
      var rest := rooms[1..];
      RoomIdsTail(rooms);
      NoDupTail(RoomIds(rooms));
      KeepRoomsNoDup(rest, keep);
      if rooms[0].id in keep {
        var tail := KeepRooms(rest, keep);
        KeptRoomIdsWithin(rest, keep);
        RoomIdsAppend([rooms[0]], tail);
        NoDupConcat(RoomIds([rooms[0]]), RoomIds(tail));
      }
    }
  }

  lemma RoomIdsTail(rooms: seq<Room>)
    requires rooms != []
    ensures RoomIds(rooms[1..]) == RoomIds(rooms)[1..]
    ensures RoomIds(rooms)[0] == rooms[0].id && RoomIds([rooms[0]]) == [rooms[0].id]
  {
  }

  /** Keeping only drops ids. */
  lemma KeptRoomIdsWithin(rooms: seq<Room>, keep: set<Id>)
    ensures forall x :: x in RoomIds(KeepRooms(rooms, keep)) ==> x in RoomIds(rooms)
  {
    KeepRoomsMembership(rooms, keep);
    var kept := KeepRooms(rooms, keep);
    forall x | x in RoomIds(kept) ensures x in RoomIds(rooms) {
      var j :| 0 <= j < |kept| && RoomIds(kept)[j] == x;
      assert kept[j] in rooms;
      var i :| 0 <= i < |rooms| && rooms[i] == kept[j];
      assert RoomIds(rooms)[i] == x;
    }
  }

  lemma RoomWellFormedMono(r: Room, w: Id, nr: Id, nd: Id, nr': Id, nd': Id)
    requires RoomWellFormed(r, w, nr, nd) && nr <= nr' && nd <= nd'
    ensures RoomWellFormed(r, w, nr', nd')
  {
  }

  /** A matched room stays well formed, its devices below the advanced
      device counter. */
  lemma ReconcileRoomWellFormed(room: Room, e: UpdateRoomDto, n: Id, w: Id, nr: Id)
    requires RoomWellFormed(room, w, nr, n)
    ensures var u := ReconcileRoom(room, e, n); RoomWellFormed(u.room, w, nr, u.nextDeviceId)
  {
    if e.devices.Some? {
      ReconcileDevicesWellFormed(room.devices, e.devices.value, room.id, n);
    }
  }

  /** The invariant of the room loop: every stored room keeps its id
      below the room counter and its devices below the current device
      counter. */
  predicate KeptWellFormed(acc: RoomsAcc, w: Id, nr: Id) {
    forall i :: 0 <= i < |acc.kept| ==> RoomWellFormed(acc.kept[i], w, nr, acc.nextDeviceId)
  }

  lemma ApplyRoomEntryWellFormed(acc: RoomsAcc, e: UpdateRoomDto, w: Id, nr: Id)
    requires KeptWellFormed(acc, w, nr)
    ensures KeptWellFormed(ApplyRoomEntry(acc, e), w, nr)
  {
    var r := ApplyRoomEntry(acc, e);
    if e.id.Some? {
      match IndexOf(RoomIds(acc.kept), e.id.value)
      case None =>
      case Some(k) =>
        var u := ReconcileRoom(acc.kept[k], e, acc.nextDeviceId);
        ReconcileRoomWellFormed(acc.kept[k], e, acc.nextDeviceId, w, nr);
        assert r.kept == acc.kept[k := u.room] && r.nextDeviceId == u.nextDeviceId;
        forall i | 0 <= i < |r.kept| ensures RoomWellFormed(r.kept[i], w, nr, r.nextDeviceId) {
          if i != k { RoomWellFormedMono(acc.kept[i], w, nr, acc.nextDeviceId, nr, r.nextDeviceId); }
        }
    }
  }

  lemma {:induction false} ApplyRoomEntriesWellFormed(acc: RoomsAcc, entries: seq<UpdateRoomDto>, w: Id, nr: Id)
    requires KeptWellFormed(acc, w, nr)
    ensures KeptWellFormed(ApplyRoomEntries(acc, entries), w, nr)
    decreases |entries|
  {
    if entries != [] {
      ApplyRoomEntryWellFormed(acc, entries[0], w, nr);
      ApplyRoomEntriesWellFormed(ApplyRoomEntry(acc, entries[0]), entries[1..], w, nr);
    }
  }

  /** Reconciling keeps a workspace's rooms well formed: distinct ids
      below the advanced room counter, devices below the advanced device
      counter. */
  lemma ReconcileRoomsWellFormed(rooms: seq<Room>, entries: seq<UpdateRoomDto>, w: Id, nr: Id, nd: Id)
    requires RoomsWellFormed(rooms, w, nr, nd)
    ensures var r := ReconcileRooms(rooms, entries, w, nr, nd);
      RoomsWellFormed(r.rooms, w, r.nextRoomId, r.nextDeviceId)
  {
    var keep := IdentifiedRoomIds(entries);
    var kept := KeepRooms(rooms, keep);
    KeepRoomsNoDup(rooms, keep);
    KeepRoomsMembership(rooms, keep);
    var acc0 := RoomsAcc(kept, nd);
    forall i | 0 <= i < |kept| ensures RoomWellFormed(kept[i], w, nr, nd) {
      assert kept[i] in rooms;
    }
    ApplyRoomEntriesWellFormed(acc0, entries, w, nr);
    var acc := ApplyRoomEntries(acc0, entries);
    var creates := AsCreateRooms(NewRoomEntries(entries));
    var added := AddedRooms(entries, w, nr, acc.nextDeviceId);
    NewRoomsWellFormed(creates, w, nr, acc.nextDeviceId);
    assert added == NewRooms(creates, w, nr, acc.nextDeviceId);
    var r := ReconcileRooms(rooms, entries, w, nr, nd);
    assert r.rooms == acc.kept + added.rooms;
    var newIds := Range(nr, r.nextRoomId);
    RangeNoDup(nr, r.nextRoomId);
    forall i, j | 0 <= i < |kept| && 0 <= j < |newIds| ensures RoomIds(kept)[i] != newIds[j] {
      assert kept[i] in rooms;
    }
    NoDupConcat(RoomIds(kept), newIds);
    forall i | 0 <= i < |r.rooms| ensures RoomWellFormed(r.rooms[i], w, r.nextRoomId, r.nextDeviceId) {
      if i < |acc.kept| {
        RoomWellFormedMono(acc.kept[i], w, nr, acc.nextDeviceId, r.nextRoomId, r.nextDeviceId);
      } else {
        assert r.rooms[i] == added.rooms[i - |acc.kept|];
      }
    }
  }

  /** The nested update keeps the store well formed. */
  lemma UpdateWithRoomsWellFormed(s: Store, dto: UpdateWorkSpaceDto)
    requires WellFormed(s)
    ensures WellFormed(UpdateWithRooms(s, dto).0)
  {
    if dto.id in s.workspaces && dto.rooms.Some? {
      var w := s.workspaces[dto.id];
      var s' := UpdateWithRooms(s, dto).0;
      ReconcileRoomsWellFormed(w.rooms, dto.rooms.value, w.id, s.nextRoomId, s.nextDeviceId);
      forall k | k in s'.workspaces && k != dto.id
        ensures RoomsWellFormed(s'.workspaces[k].rooms, k, s'.nextRoomId, s'.nextDeviceId)
      {
        RoomsWellFormedMono(s.workspaces[k].rooms, k, s.nextRoomId, s.nextDeviceId, s'.nextRoomId, s'.nextDeviceId);
      }
    }
  }

  // =====================================================================
  // Room level: the full outcome, when room entry ids are distinct

  /** The entry carrying id `x`, if any. */
  function RoomEntryFor(entries: seq<UpdateRoomDto>, x: Id): (r: Option<UpdateRoomDto>)
    ensures r.Some? ==> r.value.id == Some(x)
    ensures r.None? <==> x !in IdentifiedRoomIds(entries)
    decreases |entries|
  {
    if entries == [] then None
    else if entries[0].id == Some(x) then Some(entries[0])
    else
      assert entries == [entries[0]] + entries[1..];
      RoomEntryFor(entries[1..], x)
  }

  /** An identified room entry reconciles exactly the room carrying its id,
      when room ids are distinct. */
  lemma UpdateExistingRoomAt(rooms: seq<Room>, e: UpdateRoomDto, nd: Id, i: nat)
    requires e.id.Some? && NoDup(RoomIds(rooms)) && i < |rooms|
    ensures var u := UpdateExistingRoom(rooms, e, nd);
      if rooms[i].id == e.id.value
      then u.0[i] == ReconcileRoom(rooms[i], e, nd).room && u.1 == ReconcileRoom(rooms[i], e, nd).nextDeviceId
      else u.0[i] == rooms[i]
  {
    match IndexOf(RoomIds(rooms), e.id.value)
    case None =>
      assert RoomIds(rooms)[i] == rooms[i].id;
    case Some(k) =>
      if rooms[i].id == e.id.value {
        assert RoomIds(rooms)[i] == RoomIds(rooms)[k];
      }
  }

  /** `room'` is `room` reconciled with `e` when the device counter stood
      at `n`, and the counter has since reached at most `hi`. */
  predicate ReconciledAt(room': Room, room: Room, e: UpdateRoomDto, n: Id, hi: Id) {
    room' == ReconcileRoom(room, e, n).room && ReconcileRoom(room, e, n).nextDeviceId <= hi
  }

  /** `room'` is `room` reconciled with `e`, with the device counter
      somewhere in [lo, hi]: the fresh device ids it received lie there. */
  predicate IsReconciledRoom(room': Room, room: Room, e: UpdateRoomDto, lo: Id, hi: Id) {
    exists n :: lo <= n <= hi && ReconciledAt(room', room, e, n, hi)
  }

  /** A stored room after the room loop. */
  predicate SettledRoom(room': Room, room: Room, entry: Option<UpdateRoomDto>, lo: Id, hi: Id) {
    match entry
    case None => room' == room
    case Some(e) => IsReconciledRoom(room', room, e, lo, hi)
  }

  lemma {:induction false} ApplyRoomEntriesKept(acc: RoomsAcc, entries: seq<UpdateRoomDto>, i: nat)
    requires NoDup(RoomIds(acc.kept)) && DistinctRoomEntryIds(entries) && i < |acc.kept|
    ensures var r := ApplyRoomEntries(acc, entries);
      SettledRoom(r.kept[i], acc.kept[i], RoomEntryFor(entries, acc.kept[i].id), acc.nextDeviceId, r.nextDeviceId)
    decreases |entries|
  {
    if entries != [] {
      var e := entries[0];
      var rest := entries[1..];
      var x := acc.kept[i].id;
      var acc' := ApplyRoomEntry(acc, e);
      var r := ApplyRoomEntries(acc, entries);
      assert r == ApplyRoomEntries(acc', rest);
      assert DistinctRoomEntryIds(rest) by {
        forall a, b | 0 <= a < b < |rest| && rest[a].id.Some? ensures rest[a].id != rest[b].id {
          assert rest[a] == entries[a + 1] && rest[b] == entries[b + 1];
        }
      }
      assert RoomIds(acc'.kept) == RoomIds(acc.kept);
      ApplyRoomEntriesKept(acc', rest, i);
      if e.id.Some? {
        UpdateExistingRoomAt(acc.kept, e, acc.nextDeviceId, i);
      }
      if e.id == Some(x) {
        assert RoomEntryFor(rest, x).None? by {
          forall b | 0 <= b < |rest| ensures rest[b].id != Some(x) {
            assert entries[b + 1] == rest[b];
          }
        }
        assert RoomEntryFor(entries, x) == Some(e);
        assert ReconciledAt(r.kept[i], acc.kept[i], e, acc.nextDeviceId, r.nextDeviceId);
      } else {
        assert RoomEntryFor(entries, x) == RoomEntryFor(rest, x);
        assert acc'.kept[i] == acc.kept[i];
        match RoomEntryFor(rest, x)
        case None =>
        case Some(e') =>
          var n :| acc'.nextDeviceId <= n <= r.nextDeviceId && ReconciledAt(r.kept[i], acc.kept[i], e', n, r.nextDeviceId);
          assert acc.nextDeviceId <= n;
      }
    }
  }

  lemma SettledRoomWiden(room': Room, room: Room, entry: Option<UpdateRoomDto>, lo: Id, hi: Id, hi': Id)
    requires SettledRoom(room', room, entry, lo, hi) && hi <= hi'
    ensures SettledRoom(room', room, entry, lo, hi')
  {
    if entry.Some? {
      var n :| lo <= n <= hi && ReconciledAt(room', room, entry.value, n, hi);
      assert ReconciledAt(room', room, entry.value, n, hi');
    }
  }

  /** The first part of the reconciled room list: the stored rooms some
      entry names, in their stored order, each reconciled with the entry
      naming it. */
  lemma ReconcileRoomsKept(rooms: seq<Room>, entries: seq<UpdateRoomDto>, w: Id, nr: Id, nd: Id, i: nat)
    requires NoDup(RoomIds(rooms)) && DistinctRoomEntryIds(entries)
    requires i < |KeepRooms(rooms, IdentifiedRoomIds(entries))|
    ensures var r := ReconcileRooms(rooms, entries, w, nr, nd);
            var kept := KeepRooms(rooms, IdentifiedRoomIds(entries));
      i < |r.rooms| && SettledRoom(r.rooms[i], kept[i], RoomEntryFor(entries, kept[i].id), nd, r.nextDeviceId)
  {
    var kept := KeepRooms(rooms, IdentifiedRoomIds(entries));
    KeepRoomsNoDup(rooms, IdentifiedRoomIds(entries));
    var acc0 := RoomsAcc(kept, nd);
    var acc := ApplyRoomEntries(acc0, entries);
    var added := AddedRooms(entries, w, nr, acc.nextDeviceId);
    var r := ReconcileRooms(rooms, entries, w, nr, nd);
    assert r.rooms == acc.kept + added.rooms && r.nextDeviceId == added.nextDeviceId;
    ApplyRoomEntriesKept(acc0, entries, i);
    SettledRoomWiden(acc.kept[i], kept[i], RoomEntryFor(entries, kept[i].id), nd, acc.nextDeviceId, r.nextDeviceId);
  }

  /** The second part of the reconciled room list: one new room per
      unidentified entry, in payload order, with consecutive fresh room ids
      and fresh device ids; a device entry's own id is ignored there. */
  lemma ReconcileRoomsAdded(rooms: seq<Room>, entries: seq<UpdateRoomDto>, w: Id, nr: Id, nd: Id, j: nat)
    requires j < |NewRoomEntries(entries)|
    ensures var r := ReconcileRooms(rooms, entries, w, nr, nd);
            var kept := KeepRooms(rooms, IdentifiedRoomIds(entries));
      && |r.rooms| == |kept| + |NewRoomEntries(entries)|
      && IsNewRoomFor(r.rooms[|kept| + j], AsCreateRoom(NewRoomEntries(entries)[j]), w, nr + j, nd, r.nextDeviceId)
  {
    var kept := KeepRooms(rooms, IdentifiedRoomIds(entries));
    var acc := ApplyRoomEntries(RoomsAcc(kept, nd), entries);
    var creates := AsCreateRooms(NewRoomEntries(entries));
    ReconcileRoomsTail(rooms, entries, w, nr, nd, j);
    NewRoomsContentFrom(creates, w, nr, nd, acc.nextDeviceId, j);
  }

  /** The rooms after the settled ones are those `NewRooms` builds for the
      unidentified entries, after the room loop has drawn its device ids. */
  lemma ReconcileRoomsTail(rooms: seq<Room>, entries: seq<UpdateRoomDto>, w: Id, nr: Id, nd: Id, j: nat)
    requires j < |NewRoomEntries(entries)|
    ensures var r := ReconcileRooms(rooms, entries, w, nr, nd);
            var kept := KeepRooms(rooms, IdentifiedRoomIds(entries));
            var acc := ApplyRoomEntries(RoomsAcc(kept, nd), entries);
            var creates := AsCreateRooms(NewRoomEntries(entries));
            var added := NewRooms(creates, w, nr, acc.nextDeviceId);
      && nd <= acc.nextDeviceId
      && |r.rooms| == |kept| + |NewRoomEntries(entries)|
      && r.rooms[|kept| + j] == added.rooms[j]
      && r.nextDeviceId == added.nextDeviceId
  {
    var kept := KeepRooms(rooms, IdentifiedRoomIds(entries));
    var acc := ApplyRoomEntries(RoomsAcc(kept, nd), entries);
    var creates := AsCreateRooms(NewRoomEntries(entries));
    var added := NewRooms(creates, w, nr, acc.nextDeviceId);
    ReconcileRoomsSplit(rooms, entries, w, nr, nd);
    AppendIndexRight(acc.kept, added.rooms, j);
  }

  lemma NewRoomsContentFrom(entries: seq<CreateRoomDto>, w: Id, nr: Id, lo: Id, nd: Id, j: nat)
    requires j < |entries| && lo <= nd
    ensures var r := NewRooms(entries, w, nr, nd);
      IsNewRoomFor(r.rooms[j], entries[j], w, nr + j, lo, r.nextDeviceId)
  {
    var r := NewRooms(entries, w, nr, nd);
    NewRoomsContent(entries, w, nr, nd, j);
    IsNewRoomForWiden(r.rooms[j], entries[j], w, nr + j, lo, nd, r.nextDeviceId, r.nextDeviceId);
  }

  /** The reconciled room list is the stored rooms the room loop settled,
      followed by the rooms the unidentified entries create. */
  lemma ReconcileRoomsSplit(rooms: seq<Room>, entries: seq<UpdateRoomDto>, w: Id, nr: Id, nd: Id)
    ensures var kept := KeepRooms(rooms, IdentifiedRoomIds(entries));
            var acc := ApplyRoomEntries(RoomsAcc(kept, nd), entries);
            var added := NewRooms(AsCreateRooms(NewRoomEntries(entries)), w, nr, acc.nextDeviceId);
      && |acc.kept| == |kept|
      && ReconcileRooms(rooms, entries, w, nr, nd) == NewRoomsResult(acc.kept + added.rooms, added.nextRoomId, added.nextDeviceId)
  {
    var kept := KeepRooms(rooms, IdentifiedRoomIds(entries));
    var acc := ApplyRoomEntries(RoomsAcc(kept, nd), entries);
    assert |RoomIds(acc.kept)| == |RoomIds(kept)|;
  }

  /** The whole reconciled room list, when stored room ids and the
      payload's room ids are distinct: the named stored rooms, each
      reconciled with its entry, then one new room per unidentified entry.
      Nothing else is in it: an identified entry that names no stored room
      contributes no room at all. */
  lemma ReconcileRoomsContent(rooms: seq<Room>, entries: seq<UpdateRoomDto>, w: Id, nr: Id, nd: Id)
    requires NoDup(RoomIds(rooms)) && DistinctRoomEntryIds(entries)
    ensures var r := ReconcileRooms(rooms, entries, w, nr, nd);
            var kept := KeepRooms(rooms, IdentifiedRoomIds(entries));
            var news := NewRoomEntries(entries);
      && |r.rooms| == |kept| + |news|
      && (forall i :: 0 <= i < |kept| ==>
            SettledRoom(r.rooms[i], kept[i], RoomEntryFor(entries, kept[i].id), nd, r.nextDeviceId))
      && (forall j :: 0 <= j < |news| ==>
            IsNewRoomFor(r.rooms[|kept| + j], AsCreateRoom(news[j]), w, nr + j, nd, r.nextDeviceId))
  {
    var r := ReconcileRooms(rooms, entries, w, nr, nd);
    var kept := KeepRooms(rooms, IdentifiedRoomIds(entries));
    var news := NewRoomEntries(entries);
    assert |r.rooms| == |kept| + |news| by {
      assert |RoomIds(r.rooms)| == |RoomIds(kept)| + |Range(nr, r.nextRoomId)|;
    }
    forall i | 0 <= i < |kept|
      ensures SettledRoom(r.rooms[i], kept[i], RoomEntryFor(entries, kept[i].id), nd, r.nextDeviceId)
    {
      ReconcileRoomsKept(rooms, entries, w, nr, nd, i);
    }
    forall j | 0 <= j < |news|
      ensures IsNewRoomFor(r.rooms[|kept| + j], AsCreateRoom(news[j]), w, nr + j, nd, r.nextDeviceId)
    {
      ReconcileRoomsAdded(rooms, entries, w, nr, nd, j);
    }
  }
}
