/** The persisted entity graph: workspaces own rooms, rooms own devices.
    Each entity is a value; ownership is nesting, so there are no cycles. */
module Entities {
  import opened Wrappers
  import opened Seqs

  /** A surrogate key handed out by the store's identity column. */
  type Id = int

  /** A `decimal(18,2)` money column; no arithmetic is done on it. */
  type Money = real

  /** A `double` coordinate, copied through unchanged. */
  type Coordinate = real

  datatype Device = Device(id: Id, name: string, extraCostPerHour: Money, roomId: Id)

  /** `hasDevices` is a stored column the writer is meant to keep equal to
      "devices is non-empty"; the store does not enforce it. */
  datatype Room = Room(
    id: Id,
    name: string,
    capacity: int,
    hasDevices: bool,
    pricePerHour: Money,
    workspaceId: Id,
    devices: seq<Device>)

  /** The coordinates are the columns the service reads and writes and a
      migration adds; they are optional doubles. */
  datatype WorkSpace = WorkSpace(
    id: Id,
    name: string,
    description: string,
    address: string,
    city: string,
    latitude: Option<Coordinate>,
    longitude: Option<Coordinate>,
    rooms: seq<Room>)

  /** The store: the workspace table keyed by id, and for each identity
      column the next value it will hand out. */
  datatype Store = Store(
    workspaces: map<Id, WorkSpace>,
    nextWorkSpaceId: Id,
    nextRoomId: Id,
    nextDeviceId: Id)

  function DeviceIds(devices: seq<Device>): (r: seq<Id>)
    ensures |r| == |devices|
    ensures forall i :: 0 <= i < |devices| ==> r[i] == devices[i].id
  {
    seq(|devices|, i requires 0 <= i < |devices| => devices[i].id)
  }

  function RoomIds(rooms: seq<Room>): (r: seq<Id>)
    ensures |r| == |rooms|
    ensures forall i :: 0 <= i < |rooms| ==> r[i] == rooms[i].id
  {
    seq(|rooms|, i requires 0 <= i < |rooms| => rooms[i].id)
  }

  /** The devices of one room: distinct ids below the device counter, each
      pointing back at its room. */
  predicate DevicesWellFormed(devices: seq<Device>, roomId: Id, nextDeviceId: Id) {
    && NoDup(DeviceIds(devices))
    && forall i :: 0 <= i < |devices| ==> devices[i].roomId == roomId && devices[i].id < nextDeviceId
  }

  predicate RoomWellFormed(r: Room, workspaceId: Id, nextRoomId: Id, nextDeviceId: Id) {
    && r.workspaceId == workspaceId
    && r.id < nextRoomId
    && DevicesWellFormed(r.devices, r.id, nextDeviceId)
  }

  /** The rooms of one workspace: distinct ids below the room counter, each
      pointing back at its workspace, each with well-formed devices. */
  predicate RoomsWellFormed(rooms: seq<Room>, workspaceId: Id, nextRoomId: Id, nextDeviceId: Id) {
    && NoDup(RoomIds(rooms))
    && forall i :: 0 <= i < |rooms| ==> RoomWellFormed(rooms[i], workspaceId, nextRoomId, nextDeviceId)
  }

  /** Every workspace is stored under its own id, below the workspace
      counter, and owns well-formed rooms. */
  predicate WellFormed(s: Store) {
    forall k :: k in s.workspaces ==>
      && s.workspaces[k].id == k
      && k < s.nextWorkSpaceId
      && RoomsWellFormed(s.workspaces[k].rooms, k, s.nextRoomId, s.nextDeviceId)
  }

  /** The stored `hasDevices` column agrees with the device list. */
  predicate FlagsConsistent(rooms: seq<Room>) {
    forall i :: 0 <= i < |rooms| ==> rooms[i].hasDevices == (|rooms[i].devices| > 0)
  }

  /** Raising the counters keeps a well-formed room list well-formed. */
  lemma RoomsWellFormedMono(rooms: seq<Room>, w: Id, nr: Id, nd: Id, nr': Id, nd': Id)
    requires RoomsWellFormed(rooms, w, nr, nd)
    requires nr <= nr' && nd <= nd'
    ensures RoomsWellFormed(rooms, w, nr', nd')
  {
  }
}
