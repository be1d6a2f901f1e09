/** The data-annotation bounds of the payloads carried into the store: a
    valid create or update request leaves the affected rooms within the
    bounds the request was checked against. */
module PayloadBounds {
  import opened Wrappers
  import opened Seqs
  import opened Entities
  import opened Payloads
  import opened WorkSpaceService
  import opened CreateProperties
  import opened ReconcileProperties

  /** A stored room whose scalar fields satisfy the bounds a room entry is
      checked against. */
  predicate RoomInBounds(r: Room) {
    Required(r.name) && MinLength(r.name, 2) && CapacityValid(r.capacity) && MoneyValid(r.pricePerHour)
  }

  lemma {:induction false} NewRoomEntriesIn(entries: seq<UpdateRoomDto>, j: nat)
    requires j < |NewRoomEntries(entries)|
    ensures NewRoomEntries(entries)[j] in entries
    decreases |entries|
  {
    if entries[0].id.None? {
      if j > 0 {
        NewRoomEntriesIn(entries[1..], j - 1);
      }
    } else {
      NewRoomEntriesIn(entries[1..], j);
    }
  }

  lemma NewRoomInBounds(room: Room, e: UpdateRoomDto, w: Id, id: Id, lo: Id, hi: Id)
    requires UpdateRoomDtoValid(e) && IsNewRoomFor(room, AsCreateRoom(e), w, id, lo, hi)
    ensures RoomInBounds(room)
  {
  }

  /** One identified entry: the stored room carrying its id is reconciled
      with it and so takes its bounds; every other room is untouched. */
  lemma UpdateExistingRoomInBounds(rooms: seq<Room>, e: UpdateRoomDto, nd: Id, i: nat)
    requires e.id.Some? && NoDup(RoomIds(rooms)) && i < |rooms| && UpdateRoomDtoValid(e)
    ensures var u := UpdateExistingRoom(rooms, e, nd).0;
      && (rooms[i].id == e.id.value ==> RoomInBounds(u[i]))
      && (rooms[i].id != e.id.value ==> u[i] == rooms[i])
  {
    UpdateExistingRoomAt(rooms, e, nd, i);
  }

  /** The loop's promise before an entry list: every stored room is in
      bounds or named by an entry still to come. */
  predicate InBoundsOrPending(kept: seq<Room>, entries: seq<UpdateRoomDto>) {
    forall i :: 0 <= i < |kept| ==> RoomInBounds(kept[i]) || kept[i].id in IdentifiedRoomIds(entries)
  }

  /** One iteration of the room loop keeps that promise for the entries
      after it. */
  lemma ApplyRoomEntryInBounds(acc: RoomsAcc, entries: seq<UpdateRoomDto>)
    requires entries != [] && NoDup(RoomIds(acc.kept)) && UpdateRoomDtoValid(entries[0])
    requires InBoundsOrPending(acc.kept, entries)
    ensures InBoundsOrPending(ApplyRoomEntry(acc, entries[0]).kept, entries[1..])
  {
    var e := entries[0];
    var rest := entries[1..];
    var acc' := ApplyRoomEntry(acc, e);
    assert |acc'.kept| == |RoomIds(acc'.kept)| == |acc.kept|;
    forall i | 0 <= i < |acc'.kept|
      ensures RoomInBounds(acc'.kept[i]) || acc'.kept[i].id in IdentifiedRoomIds(rest)
    {
      assert RoomIds(acc'.kept)[i] == RoomIds(acc.kept)[i];
      var x := acc.kept[i].id;
      if x in IdentifiedRoomIds(entries) && e.id != Some(x) {
        var k :| 0 <= k < |entries| && entries[k].id == Some(x);
        assert rest[k - 1].id == Some(x);
      }
      if e.id.Some? {
        UpdateExistingRoomInBounds(acc.kept, e, acc.nextDeviceId, i);
      }
    }
  }

  /** The room loop, for any payload of valid entries, repeated ids
      included: a stored room that is out of bounds but still named by an
      entry to come is reconciled by that entry, and a reconciled room stays
      in bounds whatever later entry reconciles it again. */
  lemma {:induction false} ApplyRoomEntriesInBounds(acc: RoomsAcc, entries: seq<UpdateRoomDto>)
    requires NoDup(RoomIds(acc.kept))
    requires forall k :: 0 <= k < |entries| ==> UpdateRoomDtoValid(entries[k])
    requires InBoundsOrPending(acc.kept, entries)
    ensures var r := ApplyRoomEntries(acc, entries);
      forall i :: 0 <= i < |r.kept| ==> RoomInBounds(r.kept[i])
    decreases |entries|
  {
    if entries == [] {
      assert ApplyRoomEntries(acc, entries) == acc;
    } else {
      var acc' := ApplyRoomEntry(acc, entries[0]);
      ApplyRoomEntryInBounds(acc, entries);
      ApplyRoomEntriesInBounds(acc', entries[1..]);
      assert ApplyRoomEntries(acc, entries) == ApplyRoomEntries(acc', entries[1..]);
    }
  }

  /** Reconciling with valid entries leaves only rooms within the bounds,
      whether or not an entry repeats a room id: every kept room is named
      by some entry, so the loop reconciles it with a valid one; new rooms
      take their fields from their entry; and unlisted rooms are gone. */
  lemma ReconciledRoomsInBounds(rooms: seq<Room>, entries: seq<UpdateRoomDto>, w: Id, nr: Id, nd: Id)
    requires NoDup(RoomIds(rooms))
    requires forall k :: 0 <= k < |entries| ==> UpdateRoomDtoValid(entries[k])
    ensures var r := ReconcileRooms(rooms, entries, w, nr, nd);
      forall i :: 0 <= i < |r.rooms| ==> RoomInBounds(r.rooms[i])
  {
    var r := ReconcileRooms(rooms, entries, w, nr, nd);
    var n := |KeepRooms(rooms, IdentifiedRoomIds(entries))|;
    KeptRoomsInBounds(rooms, entries, w, nr, nd);
    forall i | n <= i < |r.rooms| ensures RoomInBounds(r.rooms[i]) {
      AddedRoomInBounds(rooms, entries, w, nr, nd, i - n);
    }
  }

  /** The stored rooms the loop leaves, which open the reconciled list,
      are all in bounds. */
  lemma KeptRoomsInBounds(rooms: seq<Room>, entries: seq<UpdateRoomDto>, w: Id, nr: Id, nd: Id)
    requires NoDup(RoomIds(rooms))
    requires forall k :: 0 <= k < |entries| ==> UpdateRoomDtoValid(entries[k])
    ensures var r := ReconcileRooms(rooms, entries, w, nr, nd);
      var n := |KeepRooms(rooms, IdentifiedRoomIds(entries))|;
      && |r.rooms| == n + |NewRoomEntries(entries)|
      && forall i :: 0 <= i < n ==> RoomInBounds(r.rooms[i])
  {
    var kept := KeepRooms(rooms, IdentifiedRoomIds(entries));
    var acc := ApplyRoomEntries(RoomsAcc(kept, nd), entries);
    KeepRoomsNoDup(rooms, IdentifiedRoomIds(entries));
    KeepRoomsMembership(rooms, IdentifiedRoomIds(entries));
    assert forall i :: 0 <= i < |kept| ==> kept[i] in kept;
    ApplyRoomEntriesInBounds(RoomsAcc(kept, nd), entries);
    ReconcileRoomsSplit(rooms, entries, w, nr, nd);
    var r := ReconcileRooms(rooms, entries, w, nr, nd);
    assert forall i :: 0 <= i < |kept| ==> r.rooms[i] == acc.kept[i];
  }

  /** The j-th room added for an unidentified entry is in bounds. */
  lemma AddedRoomInBounds(rooms: seq<Room>, entries: seq<UpdateRoomDto>, w: Id, nr: Id, nd: Id, j: nat)
    requires forall k :: 0 <= k < |entries| ==> UpdateRoomDtoValid(entries[k])
    requires j < |NewRoomEntries(entries)|
    ensures var r := ReconcileRooms(rooms, entries, w, nr, nd);
      |KeepRooms(rooms, IdentifiedRoomIds(entries))| + j < |r.rooms| &&
      RoomInBounds(r.rooms[|KeepRooms(rooms, IdentifiedRoomIds(entries))| + j])
  {
    var r := ReconcileRooms(rooms, entries, w, nr, nd);
    var kept := KeepRooms(rooms, IdentifiedRoomIds(entries));
    var news := NewRoomEntries(entries);
    ReconcileRoomsAdded(rooms, entries, w, nr, nd, j);
    NewRoomEntriesIn(entries, j);
    NewRoomInBounds(r.rooms[|kept| + j], news[j], w, nr + j, nd, r.nextDeviceId);
  }

  /** After an update whose payload is valid and carries a room list, the
      workspace's fields are within the workspace bounds (the
      coordinate attributes round before comparing, so a latitude up to
      90.5 and a longitude up to 180.5 in magnitude pass) and every one of
      its rooms is within the room-entry bounds. */
  lemma ValidUpdateKeepsRoomsInBounds(s: Store, dto: UpdateWorkSpaceDto)
    requires WellFormed(s) && dto.id in s.workspaces
    requires UpdateWorkSpaceDtoValid(dto)
    requires dto.rooms.Some?
    ensures var w := UpdateWithRooms(s, dto).0.workspaces[dto.id];
      && Required(w.name) && MinLength(w.name, 3)
      && Required(w.description) && Required(w.address) && Required(w.city)
      && InRangeIfPresent(w.latitude, -90.5, 90.5) && InRangeIfPresent(w.longitude, -180.5, 180.5)
      && forall i :: 0 <= i < |w.rooms| ==> RoomInBounds(w.rooms[i])
  {
    CoordinateAttributes(dto.latitude);
    CoordinateAttributes(dto.longitude);
    var w := s.workspaces[dto.id];
    assert RoomsWellFormed(w.rooms, dto.id, s.nextRoomId, s.nextDeviceId);
    ReconciledRoomsInBounds(w.rooms, dto.rooms.value, w.id, s.nextRoomId, s.nextDeviceId);
  }

  /** Creating with valid room entries stores rooms within the bounds. */
  lemma ValidCreateKeepsRoomsInBounds(s: Store, dto: CreateWorkSpaceDto)
    requires WellFormed(s)
    requires forall j :: 0 <= j < |RequestedRooms(dto)| ==> CreateRoomDtoValid(RequestedRooms(dto)[j])
    ensures var rooms := CreateWithRooms(s, dto).0.workspaces[s.nextWorkSpaceId].rooms;
      forall i :: 0 <= i < |rooms| ==> RoomInBounds(rooms[i])
  {
    CreateWithRoomsContent(s, dto);
  }
}
