/** The response shapes of the read side (`RoomDto`, `WorkSpaceDto` and the
    `DeviceDto` they carry). A room's nested `workSpace` and a workspace's
    `rooms` are nullable, which is how the mapper avoids reference cycles. */
module Dtos {
  import opened Wrappers
  import opened Entities

  datatype DeviceDto = DeviceDto(id: Id, name: string, extraCostPerHour: Money, roomId: Id)

  datatype RoomDto = RoomDto(
    id: Id,
    name: string,
    capacity: int,
    hasDevices: bool,
    pricePerHour: Money,
    workspaceId: Id,
    workSpace: Option<WorkSpaceDto>,
    devices: Option<seq<DeviceDto>>)

  datatype WorkSpaceDto = WorkSpaceDto(
    id: Id,
    name: string,
    description: string,
    address: string,
    city: string,
    latitude: Option<Coordinate>,
    longitude: Option<Coordinate>,
    rooms: Option<seq<RoomDto>>)
}
